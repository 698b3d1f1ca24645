/** The seeking parser's own bookkeeping as values: the two numbers it keeps,
    what a read and a seek do to them, and what a whole sequence of reads,
    seeks and a disposal reports.  The class in module Seeking is proved to
    follow these functions step by step. */
module Bookkeeping {
  import opened Wrappers

  /** `_initOffset` and `_bytePositionRecord`. */
  datatype Shim = Shim(initOffset: int, bytePositionRecord: int)

  /** The state a successful construction leaves. */
  function Initial(initbytes: int): Shim {
    Shim(initbytes, 0)
  }

  /** `BytePositionRecord`: where the current record started, stream-relative. */
  function RecordStart(s: Shim): int {
    s.bytePositionRecord
  }

  /** `BytePositionRecordRaw`: where the current record started, offset for the
      initial stream position. */
  function RecordStartRaw(s: Shim): int {
    s.bytePositionRecord + s.initOffset
  }

  /** `BytePositionRaw`, given the base parser's live byte counter. */
  function CurrentRaw(s: Shim, live: int): int {
    live + s.initOffset
  }

  /** A read captures the live counter as it stood before the read. */
  function AfterRead(s: Shim, live: int): Shim {
    s.(bytePositionRecord := live)
  }

  /** A seek that passes the disposed check makes its target the new offset. */
  function AfterSeek(s: Shim, target: int): Shim {
    s.(initOffset := target)
  }

  /** What a caller does to the parser: a read (carrying the base parser's live
      counter at that moment, a value of the tokenizer that is not modelled),
      a seek, or a disposal.  A read reaches `ReadLine` only through the base
      parser's public read, which checks for disposal first; a seek checks
      for itself.  So once disposed, neither changes anything. */
  datatype Event = Read(live: int) | SeekTo(target: int) | Dispose

  /** The bookkeeping, the disposed flag, and every `BytePositionRecordRaw`
      reported right after each read, in order. */
  datatype Run = Run(shim: Shim, disposed: bool, reported: seq<int>)

  function Step(r: Run, e: Event): Run {
    match e
    case Read(live) =>
      if r.disposed then r
      else
        var s := AfterRead(r.shim, live);
        r.(shim := s, reported := r.reported + [RecordStartRaw(s)])
    case SeekTo(target) =>
      if r.disposed then r else r.(shim := AfterSeek(r.shim, target))
    case Dispose =>
      r.(disposed := true)
  }

  /** The events applied in order. */
  function Replay(r: Run, evs: seq<Event>): Run
    decreases |evs|
  {
    if evs == [] then r else Replay(Step(r, evs[0]), evs[1..])
  }

  // ---------------------------------------------------------------------
  // Reference definitions, read from the end of a trace backwards

  function SeekTarget(e: Event): Option<int> {
    if e.SeekTo? then Some(e.target) else None
  }

  function ReadCounter(e: Event): Option<int> {
    if e.Read? then Some(e.live) else None
  }

  /** The value `pick` gives the last event it gives one, if any. */
  function Latest(evs: seq<Event>, pick: Event -> Option<int>): Option<int>
    decreases |evs|
  {
    if evs == [] then None
    else if pick(evs[|evs| - 1]).Some? then pick(evs[|evs| - 1])
    else Latest(evs[..|evs| - 1], pick)
  }

  /** The events before the first disposal. */
  function UntilDisposed(evs: seq<Event>): (pre: seq<Event>)
    ensures |pre| <= |evs| && pre == evs[..|pre|]
    ensures forall i | 0 <= i < |pre| :: !pre[i].Dispose?
    ensures |pre| < |evs| ==> evs[|pre|].Dispose?
  {
    if evs == [] || evs[0].Dispose? then [] else [evs[0]] + UntilDisposed(evs[1..])
  }

  /** The offset a trace ends with: that of the last seek made before the
      parser was disposed, else the one it started with. */
  function FinalOffset(r: Run, evs: seq<Event>): int {
    if r.disposed then r.shim.initOffset
    else Latest(UntilDisposed(evs), SeekTarget).GetOr(r.shim.initOffset)
  }

  /** Record starts of consecutive records of the given byte lengths, the first
      at `origin`. */
  function Starts(origin: int, lens: seq<nat>): seq<int>
    decreases |lens|
  {
    if lens == [] then [] else [origin] + Starts(origin + lens[0], lens[1..])
  }

  function Sum(xs: seq<nat>): int
    decreases |xs|
  {
    if xs == [] then 0 else Sum(xs[..|xs| - 1]) + xs[|xs| - 1]
  }

  /** Reads of consecutive records of the given byte lengths, the base counter
      standing at `counter` before the first and advancing by each record's
      length: how the tokenizer is assumed to count. */
  function ReadsFrom(counter: int, lens: seq<nat>): seq<Event>
    decreases |lens|
  {
    if lens == [] then [] else [Read(counter)] + ReadsFrom(counter + lens[0], lens[1..])
  }

  // ---------------------------------------------------------------------
  // Lemmas

  /** Seeing one more event at the front changes the latest value only when
      no later event gives one. */
  lemma {:induction false} LatestCons(e: Event, evs: seq<Event>, pick: Event -> Option<int>)
    ensures Latest([e] + evs, pick) ==
      if Latest(evs, pick).Some? then Latest(evs, pick) else pick(e)
    decreases |evs|
  {
    var all := [e] + evs;
    if evs == [] {
      assert all == [e];
      assert all[..0] == [];
    } else {
      var n := |evs|;
      assert all[n] == evs[n - 1];
      assert all[..n] == [e] + evs[..n - 1];
      LatestCons(e, evs[..n - 1], pick);
    }
  }

  lemma {:induction false} ReplayAppend(r: Run, a: seq<Event>, b: seq<Event>)
    ensures Replay(r, a + b) == Replay(Replay(r, a), b)
    decreases |a|
  {
    if a == [] {
      assert a + b == b;
    } else {
      assert (a + b)[0] == a[0];
      assert (a + b)[1..] == a[1..] + b;
      ReplayAppend(Step(r, a[0]), a[1..], b);
    }
  }

  /** Once disposed, a parser stays disposed, and no read or seek changes its
      bookkeeping or reports a position. */
  lemma {:induction false} DisposedFreezes(r: Run, evs: seq<Event>)
    requires r.disposed
    ensures Replay(r, evs) == r
    decreases |evs|
  {
    if evs != [] {
      DisposedFreezes(Step(r, evs[0]), evs[1..]);
    }
  }

  /** After any trace, `_initOffset` is the target of the last seek made
      before disposal, or the starting offset when there was none. */
  lemma {:induction false} ReplayOffset(r: Run, evs: seq<Event>)
    ensures Replay(r, evs).shim.initOffset == FinalOffset(r, evs)
    decreases |evs|
  {
    if evs == [] {
    } else if r.disposed {
      DisposedFreezes(r, evs);
    } else {
      var e, rest := evs[0], evs[1..];
      assert evs == [e] + rest;
      if e.Dispose? {
        DisposedFreezes(Step(r, e), rest);
      } else {
        ReplayOffset(Step(r, e), rest);
        LatestCons(e, UntilDisposed(rest), SeekTarget);
      }
    }
  }

  /** The record start a trace ends with: the counter captured by the last
      read made before the parser was disposed, seeks notwithstanding, else
      the one it started with. */
  function FinalRecordStart(r: Run, evs: seq<Event>): int {
    if r.disposed then r.shim.bytePositionRecord
    else Latest(UntilDisposed(evs), ReadCounter).GetOr(r.shim.bytePositionRecord)
  }

  /** After any trace, `_bytePositionRecord` is the counter captured by the
      last read made before disposal, or the starting value when there was
      none; seeks never change it. */
  lemma {:induction false} ReplayRecordStart(r: Run, evs: seq<Event>)
    ensures Replay(r, evs).shim.bytePositionRecord == FinalRecordStart(r, evs)
    decreases |evs|
  {
    if evs == [] {
    } else if r.disposed {
      DisposedFreezes(r, evs);
    } else {
      var e, rest := evs[0], evs[1..];
      assert evs == [e] + rest;
      if e.Dispose? {
        DisposedFreezes(Step(r, e), rest);
      } else {
        ReplayRecordStart(Step(r, e), rest);
        LatestCons(e, UntilDisposed(rest), ReadCounter);
      }
    }
  }

  /** Every read on a live parser reports, as its record's raw start, the raw
      position the parser stood at just before the read; on a disposed parser
      a read changes nothing. */
  lemma ReadReportsPriorRawPosition(r: Run, live: int)
    ensures !r.disposed ==> Step(r, Read(live)).reported == r.reported + [CurrentRaw(r.shim, live)]
    ensures !r.disposed ==> RecordStartRaw(Step(r, Read(live)).shim) == CurrentRaw(r.shim, live)
    ensures Step(r, Read(live)).shim.initOffset == r.shim.initOffset
    ensures r.disposed ==> Step(r, Read(live)) == r
  {
  }

  /** Reading records of lengths `lens` with the counter starting at `counter`
      reports the raw starts `counter + initOffset`, then each previous start
      plus the previous record's length. */
  lemma {:induction false} ReportedOfReads(r: Run, counter: int, lens: seq<nat>)
    ensures !r.disposed ==>
      Replay(r, ReadsFrom(counter, lens)).reported ==
      r.reported + Starts(counter + r.shim.initOffset, lens)
    ensures Replay(r, ReadsFrom(counter, lens)).shim.initOffset == r.shim.initOffset
    ensures r.disposed ==> Replay(r, ReadsFrom(counter, lens)) == r
    decreases |lens|
  {
    if r.disposed {
      DisposedFreezes(r, ReadsFrom(counter, lens));
    } else if lens == [] {
      assert r.reported + [] == r.reported;
    } else {
      var evs := ReadsFrom(counter, lens);
      assert evs[0] == Read(counter);
      assert evs[1..] == ReadsFrom(counter + lens[0], lens[1..]);
      var next := Step(r, Read(counter));
      ReportedOfReads(next, counter + lens[0], lens[1..]);
      assert next.reported == r.reported + [counter + r.shim.initOffset];
    }
  }

  /** Record `k` (counting from 0) starts at `origin` plus the lengths of the
      `k` records before it. */
  lemma {:induction false} StartsAt(origin: int, lens: seq<nat>, k: nat)
    requires k < |lens|
    ensures |Starts(origin, lens)| == |lens|
    ensures Starts(origin, lens)[k] == origin + Sum(lens[..k])
    decreases |lens|
  {
    if k == 0 {
      assert lens[..0] == [];
      StartsLength(origin + lens[0], lens[1..]);
    } else {
      StartsAt(origin + lens[0], lens[1..], k - 1);
      assert lens[1..][..k - 1] == lens[1..k];
      SumCons(lens[0], lens[1..k]);
      assert [lens[0]] + lens[1..k] == lens[..k];
    }
  }

  lemma {:induction false} StartsLength(origin: int, lens: seq<nat>)
    ensures |Starts(origin, lens)| == |lens|
    decreases |lens|
  {
    if lens != [] {
      StartsLength(origin + lens[0], lens[1..]);
    }
  }

  lemma {:induction false} SumCons(x: nat, xs: seq<nat>)
    ensures Sum([x] + xs) == x + Sum(xs)
    decreases |xs|
  {
    var all := [x] + xs;
    if xs == [] {
      assert all[..0] == [];
    } else {
      var n := |xs|;
      assert all[..n] == [x] + xs[..n - 1];
      SumCons(x, xs[..n - 1]);
    }
  }

  /** A freshly constructed parser whose counter starts at 0 reports its
      records at `initbytes`, then at `initbytes` plus the lengths read. */
  lemma FreshParserStarts(initbytes: int, lens: seq<nat>)
    ensures Replay(Run(Initial(initbytes), false, []), ReadsFrom(0, lens)).reported ==
      Starts(initbytes, lens)
  {
    ReportedOfReads(Run(Initial(initbytes), false, []), 0, lens);
  }

  /** Seeking to `target` and then reading, when the base counter starts again
      from 0 after the seek, reports the same raw starts as a parser freshly
      built at `target`, whatever came before the seek. */
  lemma SeekThenReads(r: Run, target: int, lens: seq<nat>)
    requires !r.disposed
    ensures Replay(r, [SeekTo(target)] + ReadsFrom(0, lens)).reported ==
      r.reported + Replay(Run(Initial(target), false, []), ReadsFrom(0, lens)).reported
  {
    var evs := [SeekTo(target)] + ReadsFrom(0, lens);
    assert evs[0] == SeekTo(target) && evs[1..] == ReadsFrom(0, lens);
    ReportedOfReads(Step(r, SeekTo(target)), 0, lens);
    FreshParserStarts(target, lens);
  }

  /** A second seek wipes out every trace of the first. */
  lemma SeekTwice(r: Run, a: int, b: int)
    ensures Replay(r, [SeekTo(a), SeekTo(b)]) == Replay(r, [SeekTo(b)])
  {
    assert [SeekTo(a), SeekTo(b)][1..] == [SeekTo(b)];
  }

  /** A seek does not touch `_bytePositionRecord`: until the next read, the
      stream-relative record start still describes the record read before the
      seek, and the raw record start is that stale value plus the target,
      which is neither the old record's raw start nor the target. */
  lemma SeekKeepsRecordStart(r: Run, target: int)
    ensures Step(r, SeekTo(target)).shim.bytePositionRecord == r.shim.bytePositionRecord
    ensures !r.disposed ==> Step(r, SeekTo(target)).shim.initOffset == target
    ensures !r.disposed ==>
      RecordStartRaw(Step(r, SeekTo(target)).shim) == r.shim.bytePositionRecord + target
    ensures Step(r, SeekTo(target)).reported == r.reported
  {
  }

  /** After a seek and one read, the bookkeeping is that of a parser freshly
      built at the seek target that has made the same read. */
  lemma SeekThenReadIsFresh(r: Run, target: int, live: int)
    requires !r.disposed
    ensures Replay(r, [SeekTo(target), Read(live)]).shim ==
      AfterRead(Initial(target), live)
  {
    var sought := Step(r, SeekTo(target));
    assert [SeekTo(target), Read(live)][1..] == [Read(live)];
    assert [Read(live)][1..] == [];
    assert Replay(r, [SeekTo(target), Read(live)]) == Replay(sought, [Read(live)]);
    assert Replay(sought, [Read(live)]) == Replay(Step(sought, Read(live)), []);
  }
}
