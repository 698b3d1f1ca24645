/** The .NET I/O collaborators the seeking parser touches: a seekable byte
    stream and the buffering text reader layered on it. */
module Streams {

  /** `SeekOrigin`: the reference point of `Stream.Seek`. */
  datatype SeekOrigin = Begin | Current | End

  /** A byte stream reduced to what the parser uses: whether it can seek, its
      length, and its current position. */
  class Stream {
    const canSeek: bool
    const length: int
    var position: int

    constructor (canSeek: bool, length: int, position: int)
      ensures this.canSeek == canSeek && this.length == length && this.position == position
    {
      this.canSeek := canSeek;
      this.length := length;
      this.position := position;
    }

    /** The absolute position `Seek(offset, origin)` moves to. */
    function Target(offset: int, origin: SeekOrigin): int
      reads this
    {
      match origin
      case Begin => offset
      case Current => position + offset
      case End => length + offset
    }

    /** `Stream.Seek`: moves the position relative to the given origin. */
    method Seek(offset: int, origin: SeekOrigin)
      modifies this
      ensures position == old(Target(offset, origin))
      ensures origin == Begin ==> position == offset
    {
      position := Target(offset, origin);
    }
  }

  /** A `StreamReader`: decodes the bytes of `baseStream` and keeps read-ahead
      characters in `buffered`. */
  class StreamReader {
    const baseStream: Stream
    var buffered: seq<char>

    constructor (baseStream: Stream)
      ensures this.baseStream == baseStream && buffered == []
    {
      this.baseStream := baseStream;
      buffered := [];
    }

    /** `StreamReader.DiscardBufferedData`: forgets the read-ahead data. */
    method DiscardBufferedData()
      modifies this
      ensures buffered == []
    {
      buffered := [];
    }
  }

  /** A `TextReader` as the parser receives it: either a `StreamReader`, or a
      reader of some other kind that offers no stream to seek. */
  datatype TextReader = OverStream(streamReader: StreamReader) | OtherReader {

    /** The objects a read through this reader may change. */
    function Objects(): set<object> {
      match this
      case OverStream(sr) => {sr, sr.baseStream}
      case OtherReader => {}
    }
  }
}
