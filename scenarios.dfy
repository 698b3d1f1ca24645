/** Callers of the seeking parser, and the worked examples of a three-record
    stream "a,b\nc,d\ne,f\n" whose records are 4 bytes each. */
module Scenarios {
  import opened Wrappers
  import opened Streams
  import opened CsvParsing
  import opened Bookkeeping
  import opened Seeking

  /** Seeking twice leaves what seeking once to the second target leaves. */
  method SeekTwice(p: SeekingCsvParser, a: int, b: int) returns (r: Outcome)
    requires p.Valid()
    modifies p`initOffset, p.parser, p.streamReader, p.streamReader.baseStream
    ensures r.Fail? <==> old(p.parser.disposed)
    ensures r.Pass? ==>
      && p.streamReader.baseStream.position == b
      && p.streamReader.buffered == []
      && p.initOffset == b
      && p.parser.row == 0
    ensures p.bytePositionRecord == old(p.bytePositionRecord)
  {
    var first := p.Seek(a);
    r := p.Seek(b);
  }

  /** Reading records 4 bytes long from a parser built at offset 0. */
  lemma ThreeRecordsAtZero()
    ensures Replay(Run(Initial(0), false, []), ReadsFrom(0, [4, 4, 4])).reported == [0, 4, 8]
  {
    FreshParserStarts(0, [4, 4, 4]);
    FourByteRecords(0);
  }

  lemma FourByteRecords(origin: int)
    ensures Starts(origin, [4, 4, 4]) == [origin, origin + 4, origin + 8]
  {
    assert [4, 4, 4][1..] == [4, 4] && [4, 4][1..] == [4] && [4][1..] == [];
    assert Starts(origin + 8, [4]) == [origin + 8];
    assert Starts(origin + 4, [4, 4]) == [origin + 4, origin + 8];
  }

  /** The same records when the stream is a suffix of a logical file whose
      first 100 bytes precede it. */
  lemma ThreeRecordsAtHundred()
    ensures Replay(Run(Initial(100), false, []), ReadsFrom(0, [4, 4, 4])).reported ==
      [100, 104, 108]
  {
    FreshParserStarts(100, [4, 4, 4]);
    FourByteRecords(100);
  }

  /** Read record 1, seek to byte 8 (the start of record 3), read again: the
      second read reports stream-relative 0 and raw 8 when the base counter
      starts again from 0 after the seek. */
  lemma ReadSeekRead()
    ensures Replay(Run(Initial(0), false, []), [Read(0), SeekTo(8), Read(0)]) ==
      Run(Shim(8, 0), false, [0, 8])
  {
    var start := Run(Initial(0), false, []);
    var evs := [Read(0), SeekTo(8), Read(0)];
    ReplayAppend(start, [Read(0)], [SeekTo(8), Read(0)]);
    assert evs == [Read(0)] + [SeekTo(8), Read(0)];
    var afterFirst := Step(start, Read(0));
    assert Replay(start, [Read(0)]) == Replay(afterFirst, []);
    SeekThenReadIsFresh(afterFirst, 8, 0);
    ReplayAppend(afterFirst, [SeekTo(8)], [Read(0)]);
    assert [SeekTo(8), Read(0)] == [SeekTo(8)] + [Read(0)];
    assert Replay(afterFirst, [SeekTo(8)]) == Replay(Step(afterFirst, SeekTo(8)), []);
    assert Replay(Step(afterFirst, SeekTo(8)), [Read(0)]) ==
      Replay(Step(Step(afterFirst, SeekTo(8)), Read(0)), []);
  }

  /** A seek replaces the construction-time correction: a parser built with
      `initbytes` that reads a record, seeks to `target` and reads again
      reports `target` as the second raw start, whatever `initbytes` was.
      Raw positions after a seek count from the start of the stream. */
  lemma SeekReplacesInitialCorrection(initbytes: int, target: int)
    ensures Replay(Run(Initial(initbytes), false, []), [Read(0), SeekTo(target), Read(0)]) ==
      Run(Shim(target, 0), false, [initbytes, target])
  {
    var start := Run(Initial(initbytes), false, []);
    ReplayAppend(start, [Read(0)], [SeekTo(target), Read(0)]);
    assert [Read(0), SeekTo(target), Read(0)] == [Read(0)] + [SeekTo(target), Read(0)];
    var afterFirst := Step(start, Read(0));
    assert Replay(start, [Read(0)]) == Replay(afterFirst, []);
    ReplayAppend(afterFirst, [SeekTo(target)], [Read(0)]);
    assert [SeekTo(target), Read(0)] == [SeekTo(target)] + [Read(0)];
    assert Replay(afterFirst, [SeekTo(target)]) == Replay(Step(afterFirst, SeekTo(target)), []);
    assert Replay(Step(afterFirst, SeekTo(target)), [Read(0)]) ==
      Replay(Step(Step(afterFirst, SeekTo(target)), Read(0)), []);
  }

  /** The construction guards on concrete readers. */
  method GuardWalkthrough() {
    var stream := new Stream(true, 12, 0);
    var reader := new StreamReader(stream);

    var noCounting := SeekingCsvParser.Create(OverStream(reader), Configuration(false), 0);
    assert noCounting == Failure(CountBytesDisabled);

    var notStream := SeekingCsvParser.Create(OtherReader, Configuration(true), 0);
    assert notStream == Failure(NotAStreamReader);

    var pipe := new Stream(false, 12, 0);
    var pipeReader := new StreamReader(pipe);
    var unseekable := SeekingCsvParser.Create(OverStream(pipeReader), Configuration(false), 0);
    assert unseekable == Failure(CountBytesDisabled);
    unseekable := SeekingCsvParser.Create(OverStream(pipeReader), Configuration(true), 0);
    assert unseekable == Failure(StreamCannotSeek);

    var broken := new Stream(true, 12, -1);
    var brokenReader := new StreamReader(broken);
    var negative := SeekingCsvParser.Create(OverStream(brokenReader), Configuration(true), 0);
    assert negative == Failure(NegativeStreamOffset);
  }

  /** A read and two seeks on a parser built at offset 100 over a seekable
      stream, the second seek after disposal. */
  method UsageWalkthrough() {
    var stream := new Stream(true, 12, 0);
    var reader := new StreamReader(stream);

    var built := SeekingCsvParser.CreateCountingBytes(OverStream(reader), 100);
    assert built.Success?;
    var p := built.value;
    assert p.BytePositionRecordRaw() == 100 && p.BytePositionRecord() == 0;

    var before := p.BytePositionRaw();
    var line := p.ReadLine();
    assert p.BytePositionRecordRaw() == before;

    var sought := p.Seek(8);
    assert sought.Pass?;
    assert stream.position == 8 && reader.buffered == [] && p.parser.row == 0;
    assert p.BytePositionRecordRaw() == p.BytePositionRecord() + 8;

    p.parser.Dispose();
    var late := p.Seek(4);
    assert late == Fail(ObjectDisposed) && stream.position == 8 && p.initOffset == 8;
  }
}
