# SeekingCsvParser, modelled in Dafny

CsvHelper's `SeekingCsvParser` is a `CsvParser` that a caller can move to any byte offset of its
stream. It is meant for indexing large CSV files: a caller records where each record starts,
and later jumps straight back to one of those offsets. The class keeps two numbers of its own:

- `_initOffset`: the correction added to every stream-relative position to make it "raw". At
  construction it is `initbytes`, which the class documents as the offset for the initial stream
  position. Each seek overwrites it with the seek's target, an absolute position in the stream. From
  the first seek on, raw positions count from the start of the stream, and whatever `initbytes`
  meant is gone (`Scenarios.SeekReplacesInitialCorrection`). Raw positions before and after a seek
  are on the same scale only when `initbytes` was the stream's position at construction.
- `_bytePositionRecord`: the base parser's byte counter, captured just before each record is read.

The class has four parts:

- Construction: guards run in a fixed order.
- Record reads: the position is captured, then the read is delegated.
- Three position getters.
- Seek: it repositions the stream, drops the reader's read-ahead, makes the target the new
  offset and resets the base parser's record counter.

The model has six modules:

- `Wrappers` (wrappers.dfy): `Option`, and the thrown exceptions as `Result` and `Outcome` values.
- `Streams` (streams.dfy): the .NET collaborators as classes. A `Stream` has a fixed `canSeek`, a
  fixed length and a mutable position. A `StreamReader` has a read-ahead buffer. A `TextReader`
  either is a `StreamReader` or is some other reader.
- `CsvParsing` (csv_parser.dfy): the base `CsvParser`, whose tokenizer is not part of this model.
  Its `ReadLine`, `Reset` and constructor have bodies that pick arbitrary values. Their contracts
  promise only what the seeking parser relies on:
  - `ReadLine` keeps the disposed flag and hands out exactly one line, which a ghost log records.
  - `Reset` sets the record counter to 0. Its frame holds no stream or reader, so it cannot move
    the stream.
- `Bookkeeping` (bookkeeping.dfy): the parser's own state as a value
  `Shim(initOffset, bytePositionRecord)`. It defines what a read and a seek do to that state, and
  replays traces of reads, seeks and a disposal. Lemmas relate the replay to reference definitions
  that read a trace backwards.
- `Construction` (construction.dfy): the constructor's guards as an ordered list of checks. The
  first failing check decides the exception.
- `Seeking` (seeking_csv_parser.dfy): the class `SeekingCsvParser`. The C# class inherits from
  `CsvParser`; here it holds that base part as the field `parser` and reaches the stream through
  `streamReader`. Each method is proved against the `Bookkeeping` functions and against the base
  parser's and the stream's contracts.
- `Scenarios` (scenarios.dfy): callers, and the worked example of a three-record stream
  `"a,b\nc,d\ne,f\n"`.

The C# `long` fields and positions are unbounded integers here. The C# exceptions are `Failure`
or `Fail` results. Each of them is returned before the state it would have skipped is changed.

Two facts about the code shape the model:

- `Seek` does not assign `_bytePositionRecord` (src/CsvHelper/SeekingCsvParser.cs:96-103). After
  `Seek(a)` and `Seek(b)`, the parser matches a parser freshly built at `b` in every field except
  `BytePositionRecord`. Between a seek and the next read, `BytePositionRecord` still describes the
  record read before the seek. `BytePositionRecordRaw` is that stale value plus the new target,
  which is neither the old record's raw start nor the target. For example, a read at counter 100
  with offset 0, followed by `Seek(8)`, gives 108 (`Bookkeeping.SeekKeepsRecordStart`). The first
  read after the seek makes both getters right again (`Bookkeeping.SeekThenReadIsFresh`).
- The constructor accepts a negative `initbytes` (src/CsvHelper/SeekingCsvParser.cs:37).

A record read reaches the overridden `ReadLine` only through the base parser's public read, which
checks for disposal first. The trace model in `Bookkeeping` therefore ignores reads after
disposal, just as it ignores seeks after disposal.

## Model

| member | source | states |
|---|---|---|
| `Construction.FirstFailing` | src/CsvHelper/SeekingCsvParser.cs:26-35 | the index it returns is that of the first failing guard: every earlier guard passes, and the guard at that index fails unless all passed |
| `Construction.ConstructionOrder` | src/CsvHelper/SeekingCsvParser.cs:26-35 | the guards run in order and the first violation wins. Byte counting off throws first, whatever the reader. Next is a reader that is not a `StreamReader`, then a stream that cannot seek, then a negative stream position. Construction succeeds exactly when none of the four holds |
| `Seeking.SeekingCsvParser.Create` | src/CsvHelper/SeekingCsvParser.cs:24-40 | the three-argument constructor fails exactly with the first failing guard's exception. On success the parser is valid: it counts bytes, reads through the given `StreamReader`, and its stream can seek. Its offset is `initbytes`, its record start is 0, and its base parser was built over the given reader and configuration |
| `Seeking.SeekingCsvParser.constructor` | src/CsvHelper/SeekingCsvParser.cs:37-39 | once the guards have passed, the state is `_initOffset = initbytes` and `_bytePositionRecord = 0`, and the stream reader is kept |
| `Seeking.DefaultConfigurationRejected` | src/CsvHelper/SeekingCsvParser.cs:20 | with the default configuration, every reader is rejected by the byte-counting guard |
| `Seeking.SeekingCsvParser.CreateWithDefaultConfiguration` | src/CsvHelper/SeekingCsvParser.cs:20-22 | the two-argument constructor as written (`initbytes` defaults to 0) throws the byte-counting error for every reader |
| `Seeking.SeekingCsvParser.CreateCountingBytes` | src/CsvHelper/SeekingCsvParser.cs:20-22 | the two-argument constructor as intended (`initbytes` defaults to 0) succeeds exactly on a `StreamReader` over a seekable stream at a non-negative position. It never throws the byte-counting error, and its initial state is `initbytes` and 0 |
| `Seeking.SeekingCsvParser.ReadLine` | src/CsvHelper/SeekingCsvParser.cs:72-76 | `_bytePositionRecord` becomes the base counter as it was before the delegated read. The new `BytePositionRecordRaw` equals `BytePositionRaw` as it was before the read. `_initOffset` is untouched. The base read ran exactly once, and its line is returned unchanged |
| `Seeking.SeekingCsvParser.Seek` | src/CsvHelper/SeekingCsvParser.cs:84-87 | on a disposed parser it throws `ObjectDisposed` and changes nothing. Otherwise the stream is at `position` from the beginning, the read-ahead buffer is empty, `_initOffset == position` and the record counter is 0. The state is `AfterSeek` of the old state, and `_bytePositionRecord` is never assigned |
| `Seeking.SeekingCsvParser.SeekFrom` | src/CsvHelper/SeekingCsvParser.cs:96-103 | the disposed check comes first and changes nothing on failure. Then the stream moves to the target of `(position, origin)` and the read-ahead buffer is emptied. `_initOffset` becomes `position` whatever the origin, and the record counter is reset to 0. The reset cannot move the stream |
| `CsvParsing.CsvParser.CheckDisposed` | src/CsvHelper/SeekingCsvParser.cs:98 | it fails, with `ObjectDisposed`, exactly when the parser is disposed |
| `CsvParsing.CsvParser.ReadLine` | src/CsvHelper/SeekingCsvParser.cs:75 | the delegated base read keeps the disposed flag and hands out exactly one line |
| `CsvParsing.CsvParser.Reset` | src/CsvHelper/SeekingCsvParser.cs:102 | the base reset sets the record counter to 0, keeps the disposed flag and touches no stream or reader |
| `CsvParsing.CsvParser.constructor` | src/CsvHelper/SeekingCsvParser.cs:24 | the base part is built over the given reader and configuration, is not disposed, and has handed out no line |
| `Streams.Stream.Seek` | src/CsvHelper/SeekingCsvParser.cs:99 | seeking from `Begin` puts the stream at exactly the offset |
| `Streams.StreamReader.DiscardBufferedData` | src/CsvHelper/SeekingCsvParser.cs:100 | the reader's read-ahead buffer is empty afterwards |
| `Bookkeeping.ReplayOffset` | src/CsvHelper/SeekingCsvParser.cs:37-38 | after any trace of reads, seeks and a disposal, `_initOffset` is the target of the last seek made before disposal. With no such seek, it is the initial offset |
| `Bookkeeping.ReplayRecordStart` | src/CsvHelper/SeekingCsvParser.cs:74 | after any trace, `_bytePositionRecord` is the counter captured by the last read made before disposal. Seeks never change it. With no such read, it is the initial value |
| `Bookkeeping.DisposedFreezes` | src/CsvHelper/SeekingCsvParser.cs:98-101 | once disposed, a parser stays disposed. No later read or seek changes its bookkeeping or reports a position |
| `Bookkeeping.ReadReportsPriorRawPosition` | src/CsvHelper/SeekingCsvParser.cs:54-76 | on a live parser, a read reports as its record's raw start the raw position (`BytePosition + _initOffset`) the parser stood at just before the read. It keeps the offset, and on a disposed parser it changes nothing |
| `Bookkeeping.ReportedOfReads` | src/CsvHelper/SeekingCsvParser.cs:54-76 | on a live parser, consecutive records of given byte lengths, read with the counter starting at `c`, report raw starts `c + offset`, then each start plus the previous record's length. The offset stays the same, and a disposed parser is left as it was |
| `Bookkeeping.StartsAt` | src/CsvHelper/SeekingCsvParser.cs:42-57 | record `k` starts at the origin plus the total length of the `k` records before it |
| `Bookkeeping.FreshParserStarts` | src/CsvHelper/SeekingCsvParser.cs:37-38 | a parser built with `initbytes` whose counter starts at 0 reports raw record starts `initbytes`, then `initbytes` plus the lengths read so far |
| `Bookkeeping.SeekThenReads` | src/CsvHelper/SeekingCsvParser.cs:99-102 | after `Seek(x)`, with the counter starting again from 0, reads report the same raw starts as a parser freshly built at `x`, whatever happened before the seek |
| `Bookkeeping.SeekTwice` | src/CsvHelper/SeekingCsvParser.cs:99-102 | `Seek(a)` then `Seek(b)` leaves exactly the state `Seek(b)` alone leaves |
| `Bookkeeping.SeekKeepsRecordStart` | src/CsvHelper/SeekingCsvParser.cs:96-103 | a seek leaves `_bytePositionRecord` and the reported positions alone. On a live parser it sets the offset to the target, so until the next read `BytePositionRecordRaw` is the stale record start plus the target |
| `Bookkeeping.SeekThenReadIsFresh` | src/CsvHelper/SeekingCsvParser.cs:37-38 | a seek to `b` followed by one read leaves the state of a parser freshly built at `b` that made the same read |
| `Scenarios.SeekTwice` | src/CsvHelper/SeekingCsvParser.cs:84-103 | on the class, two seeks leave the stream at the second target, an empty buffer, `_initOffset` equal to the second target and the record counter at 0. `_bytePositionRecord` is unchanged |
| `Scenarios.ThreeRecordsAtZero` | src/CsvHelper/SeekingCsvParser.cs:37-38 | three 4-byte records read from offset 0 start at raw positions 0, 4 and 8 |
| `Scenarios.ThreeRecordsAtHundred` | src/CsvHelper/SeekingCsvParser.cs:37-38 | the same records read with `initbytes` 100 start at raw positions 100, 104 and 108 |
| `Scenarios.SeekReplacesInitialCorrection` | src/CsvHelper/SeekingCsvParser.cs:37-101 | a parser built with `initbytes` that reads a record, seeks to `t` and reads again reports raw starts `initbytes` and then `t`. After the seek, `initbytes` has no influence |
| `Scenarios.ReadSeekRead` | src/CsvHelper/SeekingCsvParser.cs:74-102 | reading record 1, seeking to 8 and reading again reports raw starts 0 and then 8, with stream-relative start 0 and offset 8 |

The getters `BytePositionRecord`, `BytePositionRecordRaw` and `BytePositionRaw`
(src/CsvHelper/SeekingCsvParser.cs:45-65) are functions of the class. They have no side effects by
construction. They read `_bytePositionRecord`, `_bytePositionRecord + _initOffset`, and the base
parser's live `bytePosition` plus `_initOffset`; the raw getter never reads a cached copy. They are
defined through `Bookkeeping.RecordStart`, `RecordStartRaw` and `CurrentRaw`, which the rows above
are about.

## Left out

- The base tokenizer (quoting, delimiters, field splitting) is not part of this model. `CsvParser.ReadLine` returns any line and may move the byte counter, the record counter, the stream and the read-ahead buffer anywhere.
- The model does not say how the base `BytePosition` advances, or whether `Reset` clears it. The lemmas that give concrete record starts (`ReportedOfReads`, `FreshParserStarts`, `SeekThenReads` and the scenarios) assume that the counter starts at 0 after construction or a seek, and advances by each record's byte length. That assumption is written into the traces they read (`ReadsFrom`); it is not proved.
- `Bookkeeping.Step`: the disposed check that comes before a read belongs to the base parser's public read, which is not part of this model. The trace model builds that check into `Step`. The class's `ReadLine`, like the source's, does not check for disposal itself.
- `CsvParsing.CsvParser.ReadLine`: a read that throws (a malformed record or an I/O error) is not modelled as an error result. The seeking parser captures the position before it delegates, so the capture happens whatever the read does.
- `Streams.Stream.Seek`: the model does not cover its failure modes, such as a negative target or a stream that cannot seek. It always succeeds, because the stream's own code is not part of this model.
- Character decoding in `StreamReader` is not modelled. `DiscardBufferedData` only empties the read-ahead buffer.
- Disposal is only a flag. `CsvParser.Dispose` sets it, and `CheckDisposed` consults it. Releasing the reader and the stream is not modelled.
- `CsvConfiguration` is modelled only as its `CountBytes` flag.
- The base constructor's own argument checks are not modelled: it belongs to `CsvParser`, whose code is not part of this model.
- 64-bit `long` wrap-around in `_bytePositionRecord + _initOffset` and in `BytePosition + _initOffset` is not modelled, and neither is the widening of the `int` parameter `initbytes` to `long`. Positions are unbounded integers.
- The `protected` setter of `BytePositionRecord` (line 48) is not modelled. Only a subclass can call it, and no subclass is part of this model.

## Findings

| source | as written | input that shows it | evidently intended | confidence | as-written member | corrected member |
|---|---|---|---|---|---|---|
| src/CsvHelper/SeekingCsvParser.cs:20 | the two-argument constructor passes `new CsvConfiguration()`, whose `CountBytes` is off by default, to a constructor that throws unless `CountBytes` is on | any reader, e.g. a `StreamReader` over a seekable stream at position 0: construction throws "Expected configuration.CountBytes to be set to true" | a convenience constructor that turns byte counting on, so that only the reader can be rejected | medium: rests on `CountBytes` defaulting to false, and `CsvConfiguration` is not part of this model; not executed | `Seeking.SeekingCsvParser.CreateWithDefaultConfiguration` | `Seeking.SeekingCsvParser.CreateCountingBytes` |
