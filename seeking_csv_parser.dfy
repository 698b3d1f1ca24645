/** `SeekingCsvParser`: a CSV parser that can jump to a byte offset of its
    stream and reports byte positions offset for where the stream started.
    The C# class inherits from `CsvParser`; here it holds its base part as
    `parser` and reaches the stream through `streamReader`. */
module Seeking {
  import opened Wrappers
  import opened Streams
  import opened CsvParsing
  import opened Bookkeeping
  import opened Construction

  /** What the constructor's guards see of a reader. */
  function View(reader: TextReader): ReaderView
    reads reader.Objects()
  {
    match reader
    case OverStream(sr) => StreamReaderView(sr.baseStream.canSeek, sr.baseStream.position)
    case OtherReader => NotStreamReader
  }

  /** `new CsvConfiguration()`: byte counting is off unless a caller turns it on. */
  function DefaultConfiguration(): Configuration {
    Configuration(countBytes := false)
  }

  /** With the default configuration every reader is rejected, by the first
      guard. */
  lemma DefaultConfigurationRejected(reader: ReaderView)
    ensures ConstructionError(DefaultConfiguration().countBytes, reader) == Some(CountBytesDisabled)
  {
    ConstructionOrder(DefaultConfiguration().countBytes, reader);
  }

  class SeekingCsvParser {
    /** The base `CsvParser` this parser extends. */
    const parser: CsvParser
    /** `_streamReader`: the reader `parser` reads through. */
    const streamReader: StreamReader
    /** `_initOffset`: added to every stream-relative position. */
    var initOffset: int
    /** `_bytePositionRecord`: the base counter captured before the last read. */
    var bytePositionRecord: int

    /** What the constructor's guards established, and what stays true: the
        base parser reads through `streamReader`, counts bytes, and the stream
        can seek. */
    ghost predicate Valid() {
      && parser.source == OverStream(streamReader)
      && parser.configuration.countBytes
      && streamReader.baseStream.canSeek
    }

    /** The parser's own bookkeeping as a value. */
    function State(): Shim
      reads this
    {
      Shim(initOffset, bytePositionRecord)
    }

    /** The assignments the C# constructor makes once its guards have passed. */
    constructor (parser: CsvParser, streamReader: StreamReader, initbytes: int)
      requires parser.source == OverStream(streamReader)
      requires parser.configuration.countBytes && streamReader.baseStream.canSeek
      ensures Valid()
      ensures this.parser == parser && this.streamReader == streamReader
      ensures State() == Initial(initbytes)
    {
      this.parser := parser;
      this.streamReader := streamReader;
      initOffset := initbytes;
      bytePositionRecord := 0;
    }

    /** The three-argument constructor: builds the base parser, then runs the
        guards in order and throws at the first that fails. */
    static method Create(reader: TextReader, configuration: Configuration, initbytes: int)
      returns (r: Result<SeekingCsvParser>)
      ensures r.Success? <==> ConstructionError(configuration.countBytes, View(reader)).None?
      ensures r.Failure? ==> Some(r.error) == ConstructionError(configuration.countBytes, View(reader))
      ensures r.Success? ==>
        && fresh(r.value) && fresh(r.value.parser)
        && r.value.Valid()
        && r.value.State() == Initial(initbytes)
        && r.value.parser.source == reader
        && r.value.parser.configuration == configuration
        && !r.value.parser.disposed && r.value.parser.delivered == []
    {
      ConstructionOrder(configuration.countBytes, View(reader));
      var base := new CsvParser(reader, configuration);
      if !configuration.countBytes {
        return Failure(CountBytesDisabled);
      }
      match reader {
        case OtherReader =>
          return Failure(NotAStreamReader);
        case OverStream(sr) =>
          if !sr.baseStream.canSeek {
            return Failure(StreamCannotSeek);
          }
          if sr.baseStream.position < 0 {
            return Failure(NegativeStreamOffset);
          }
          var p := new SeekingCsvParser(base, sr, initbytes);
          return Success(p);
      }
    }

    /** The two-argument constructor as written: it passes a default
        configuration, whose byte counting is off, so it always throws. */
    static method CreateWithDefaultConfiguration(reader: TextReader, initbytes: int := 0)
      returns (r: Result<SeekingCsvParser>)
      ensures r == Failure(CountBytesDisabled)
    {
      DefaultConfigurationRejected(View(reader));
      r := Create(reader, DefaultConfiguration(), initbytes);
    }

    /** The two-argument constructor as evidently intended: a configuration
        that counts bytes, so that only the reader can be rejected. */
    static method CreateCountingBytes(reader: TextReader, initbytes: int := 0)
      returns (r: Result<SeekingCsvParser>)
      ensures r.Success? <==>
        reader.OverStream? && reader.streamReader.baseStream.canSeek
        && reader.streamReader.baseStream.position >= 0
      ensures r.Failure? ==> r.error != CountBytesDisabled
      ensures r.Failure? ==> Some(r.error) == ConstructionError(true, View(reader))
      ensures r.Success? ==>
        && fresh(r.value) && fresh(r.value.parser)
        && r.value.Valid()
        && r.value.State() == Initial(initbytes)
        && r.value.parser.source == reader
        && !r.value.parser.disposed && r.value.parser.delivered == []
    {
      ConstructionOrder(true, View(reader));
      r := Create(reader, Configuration(countBytes := true), initbytes);
    }

    /** `BytePositionRecord`. */
    function BytePositionRecord(): int
      reads this
    {
      RecordStart(State())
    }

    /** `BytePositionRecordRaw`. */
    function BytePositionRecordRaw(): int
      reads this
    {
      RecordStartRaw(State())
    }

    /** `BytePositionRaw`: reads the base parser's live counter. */
    function BytePositionRaw(): int
      reads this, parser
    {
      CurrentRaw(State(), parser.bytePosition)
    }

    /** `ReadLine`: captures the base counter, then delegates the read and
        hands its line back. */
    method ReadLine() returns (line: Line)
      requires Valid()
      modifies this`bytePositionRecord, parser, streamReader, streamReader.baseStream
      ensures Valid()
      ensures State() == AfterRead(old(State()), old(parser.bytePosition))
      ensures BytePositionRecord() == old(parser.bytePosition)
      ensures BytePositionRecordRaw() == old(BytePositionRaw())
      ensures initOffset == old(initOffset)
      ensures parser.delivered == old(parser.delivered) + [line]
      ensures parser.disposed == old(parser.disposed)
    {
      bytePositionRecord := parser.bytePosition;
      line := parser.ReadLine();
    }

    /** The public `Seek(position)`: seeks from the beginning of the stream. */
    method Seek(position: int) returns (r: Outcome)
      requires Valid()
      modifies this`initOffset, parser, streamReader, streamReader.baseStream
      ensures Valid()
      ensures r.Fail? <==> old(parser.disposed)
      ensures r.Fail? ==>
        r.error == ObjectDisposed && unchanged(this, parser, streamReader, streamReader.baseStream)
      ensures r.Pass? ==>
        && streamReader.baseStream.position == position
        && streamReader.buffered == []
        && initOffset == position
        && parser.row == 0
      ensures r.Pass? ==> State() == AfterSeek(old(State()), position)
      ensures bytePositionRecord == old(bytePositionRecord)
      ensures parser.disposed == old(parser.disposed) && parser.delivered == old(parser.delivered)
    {
      r := SeekFrom(position, Begin);
    }

    /** The private `Seek(position, origin)`: after the disposed check,
        repositions the stream, discards the reader's read-ahead, takes
        `position` as the new offset and resets the base parser.  The offset
        is `position` whatever the origin, which is right only for `Begin`,
        the one origin the public overload passes. */
    method SeekFrom(position: int, origin: SeekOrigin) returns (r: Outcome)
      requires Valid()
      modifies this`initOffset, parser, streamReader, streamReader.baseStream
      ensures Valid()
      ensures r.Fail? <==> old(parser.disposed)
      ensures r.Fail? ==>
        r.error == ObjectDisposed && unchanged(this, parser, streamReader, streamReader.baseStream)
      ensures r.Pass? ==>
        && streamReader.baseStream.position == old(streamReader.baseStream.Target(position, origin))
        && streamReader.buffered == []
        && initOffset == position
        && parser.row == 0
      ensures bytePositionRecord == old(bytePositionRecord)
      ensures parser.disposed == old(parser.disposed) && parser.delivered == old(parser.delivered)
    {
      r := parser.CheckDisposed();
      if r.Fail? {
        return;
      }
      streamReader.baseStream.Seek(position, origin);
      streamReader.DiscardBufferedData();
      initOffset := position;
      parser.Reset();
    }
  }
}
