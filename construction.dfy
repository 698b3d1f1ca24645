/** The guard checks the seeking parser's constructor runs, as an ordered list
    in which the first failing check decides the exception. */
module Construction {
  import opened Wrappers

  /** What the constructor can see of the reader it is given: not a
      `StreamReader` at all, or one over a stream with these properties. */
  datatype ReaderView = NotStreamReader | StreamReaderView(canSeek: bool, position: int)

  /** One guard: whether it passes, and what is thrown when it does not. */
  datatype Check = Check(passes: bool, error: Error)

  /** The constructor's guards, in the order it runs them. */
  function ConstructionChecks(countBytes: bool, reader: ReaderView): seq<Check> {
    [ Check(countBytes, CountBytesDisabled),
      Check(reader.StreamReaderView?, NotAStreamReader),
      Check(reader.StreamReaderView? ==> reader.canSeek, StreamCannotSeek),
      Check(reader.StreamReaderView? ==> reader.position >= 0, NegativeStreamOffset) ]
  }

  /** The index of the first check that fails, or `|checks|` when all pass. */
  function FirstFailing(checks: seq<Check>): (i: nat)
    ensures i <= |checks|
    ensures forall j | 0 <= j < i :: checks[j].passes
    ensures i < |checks| ==> !checks[i].passes
    decreases |checks|
  {
    if checks == [] || !checks[0].passes then 0 else 1 + FirstFailing(checks[1..])
  }

  /** The exception the first failing check throws, if any. */
  function FirstError(checks: seq<Check>): Option<Error> {
    var i := FirstFailing(checks);
    if i < |checks| then Some(checks[i].error) else None
  }

  /** The exception construction throws, if any. */
  function ConstructionError(countBytes: bool, reader: ReaderView): Option<Error> {
    FirstError(ConstructionChecks(countBytes, reader))
  }

  /** Checks in order, first violation wins: byte counting first, whatever the
      reader; then the reader's kind; then seekability; then the position. */
  lemma ConstructionOrder(countBytes: bool, reader: ReaderView)
    ensures !countBytes ==> ConstructionError(countBytes, reader) == Some(CountBytesDisabled)
    ensures countBytes && reader.NotStreamReader? ==>
      ConstructionError(countBytes, reader) == Some(NotAStreamReader)
    ensures countBytes && reader.StreamReaderView? && !reader.canSeek ==>
      ConstructionError(countBytes, reader) == Some(StreamCannotSeek)
    ensures countBytes && reader.StreamReaderView? && reader.canSeek && reader.position < 0 ==>
      ConstructionError(countBytes, reader) == Some(NegativeStreamOffset)
    ensures ConstructionError(countBytes, reader).None? <==>
      countBytes && reader.StreamReaderView? && reader.canSeek && reader.position >= 0
  {
    var checks := ConstructionChecks(countBytes, reader);
    var i := FirstFailing(checks);
    assert |checks| == 4;
    assert checks[0] == Check(countBytes, CountBytesDisabled);
    assert checks[1] == Check(reader.StreamReaderView?, NotAStreamReader);
    assert checks[2] == Check(reader.StreamReaderView? ==> reader.canSeek, StreamCannotSeek);
    assert checks[3] == Check(reader.StreamReaderView? ==> reader.position >= 0, NegativeStreamOffset);
    if i == 1 {
      assert checks[0].passes;
    } else if i == 2 {
      assert checks[0].passes && checks[1].passes;
    } else if i >= 3 {
      assert checks[0].passes && checks[1].passes && checks[2].passes;
    }
  }
}
