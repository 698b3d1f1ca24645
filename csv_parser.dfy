/** The base `CsvParser` the seeking parser extends.  Its tokenizer is not part
    of this model: reading and resetting are stated by the little the seeking
    parser relies on, and their bodies choose every other value freely. */
module CsvParsing {
  import opened Wrappers
  import opened Streams

  /** `CsvConfiguration`, reduced to the one setting the seeking parser checks. */
  datatype Configuration = Configuration(countBytes: bool)

  /** A record as the tokenizer returns it: its fields, or `None` at the end of
      the data (C# returns null). */
  type Line = Option<seq<string>>

  class CsvParser {
    const source: TextReader
    const configuration: Configuration
    /** `BytePosition`: the live count of bytes consumed from the stream. */
    var bytePosition: int
    /** The record counter that `Reset` clears. */
    var row: int
    var disposed: bool
    /** Every line `ReadLine` has handed out, in order. */
    ghost var delivered: seq<Line>

    constructor (source: TextReader, configuration: Configuration)
      ensures this.source == source && this.configuration == configuration
      ensures !disposed && delivered == []
    {
      this.source := source;
      this.configuration := configuration;
      var start: int :| true;
      bytePosition, row, disposed := start, 0, false;
      delivered := [];
    }

    /** `CheckDisposed`: throws once the parser has been disposed. */
    method CheckDisposed() returns (r: Outcome)
      ensures r.Fail? <==> disposed
      ensures r.Fail? ==> r.error == ObjectDisposed
    {
      r := if disposed then Fail(ObjectDisposed) else Pass;
    }

    /** `ReadLine`: tokenizes the next record.  It may consume any amount of the
        source and move the byte counter and record counter anywhere; it keeps
        the disposed flag and hands out exactly one line. */
    method ReadLine() returns (line: Line)
      modifies this, source.Objects()
      ensures disposed == old(disposed)
      ensures delivered == old(delivered) + [line]
    {
      var consumed: int, rows: int :| true;
      line :| true;
      bytePosition, row := consumed, rows;
      match source {
        case OverStream(sr) =>
          var position: int, readAhead: seq<char> :| true;
          sr.baseStream.position := position;
          sr.buffered := readAhead;
        case OtherReader =>
      }
      delivered := delivered + [line];
    }

    /** `Reset`: restarts record numbering.  It touches no stream or reader
        (they are outside its frame); whether it also clears the byte counter
        is left open. */
    method Reset()
      modifies this
      ensures row == 0
      ensures disposed == old(disposed) && delivered == old(delivered)
    {
      var counter: int :| true;
      bytePosition, row := counter, 0;
    }

    /** `Dispose`: releases the parser; every later disposed check fails. */
    method Dispose()
      modifies this
      ensures disposed
      ensures bytePosition == old(bytePosition) && row == old(row) && delivered == old(delivered)
    {
      disposed := true;
    }
  }
}
