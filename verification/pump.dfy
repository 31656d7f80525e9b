/**
  The whole-buffer stream pumps: into a caller's buffer, into a growing
  accumulator, and with the doubling retry.
  */
module Pump {
  import opened Base
  import opened Sessions

  const SLICE: nat := 0x10_0000

  /** Outcome of pump_into: the byte count, the too-small exception, or an error. */
  datatype PumpResult = Done(n: nat) | TooSmall | Error

  // -------------------------------------------------- what a schedule comes to

  /** Writes it takes to feed `len` bytes. */
  function Slices(len: nat): nat {
    (len + SLICE - 1) / SLICE
  }

  /** The read count after draining until a read finds nothing new. */
  function Quiet(plan: Plan, k: nat): (q: nat)
    ensures k < q
    decreases |plan.total| - Produced(plan, k)
  {
    ProducedGrows(plan, k, k + 1);
    if Produced(plan, k + 1) == Produced(plan, k) then k + 1 else Quiet(plan, k + 1)
  }

  /** The read count after `slices` more writes, each followed by a drain. */
  function QuietAfter(plan: Plan, k: nat, slices: nat): nat
    decreases slices
  {
    if slices == 0 then k else QuietAfter(plan, Quiet(plan, k), slices - 1)
  }

  /** What the session has produced by the time its input ends. */
  function BeforeEnd(plan: Plan, len: nat): nat {
    Produced(plan, QuietAfter(plan, 0, Slices(len)))
  }

  /** When pumping `len` bytes of input succeeds into `room` bytes of output: the
      whole output is shorter, or it fills the buffer exactly and some of it comes
      only after the end of input. */
  predicate Fits(plan: Plan, len: nat, room: nat) {
    |plan.total| < room || (|plan.total| == room && BeforeEnd(plan, len) < room)
  }

  lemma {:induction false} QuietAfterGrows(plan: Plan, k: nat, slices: nat)
    ensures k <= QuietAfter(plan, k, slices)
    decreases slices
  {
    if slices == 0 {
    } else {
      QuietAfterGrows(plan, Quiet(plan, k), slices - 1);
    }
  }

  lemma OneSliceLess(len: nat, slice: nat)
    requires 0 < len && slice == Min(len, SLICE)
    ensures Slices(len) == Slices(len - slice) + 1
  {
  }

  /** Once a read before end finds the buffer's worth produced, it does not fit. */
  lemma FullTooEarly(plan: Plan, d: nat, k: nat, len: nat, left: nat, room: nat)
    requires k < Quiet(plan, d) && room <= Produced(plan, k)
    requires QuietAfter(plan, Quiet(plan, d), left) == QuietAfter(plan, 0, Slices(len))
    ensures !Fits(plan, len, room)
  {
    ProducedGrows(plan, k, Quiet(plan, d));
    QuietAfterGrows(plan, Quiet(plan, d), left);
    ProducedGrows(plan, Quiet(plan, d), QuietAfter(plan, 0, Slices(len)));
  }

  // ------------------------------------------------------------- pump_into

  /** One read into the free tail of `dst`; None is the too-small exception. */
  method DrainOne(session: Session, dst: array<Byte>, used: nat) returns (r: Option<Option<StreamRead>>)
    requires session.Valid() && used <= dst.Length && !session.failed
    requires used == session.taken && dst[..used] == session.plan.total[..used]
    modifies session, dst
    ensures session.Valid()
    ensures session.accepted == old(session.accepted) && session.ended == old(session.ended)
    ensures session.largestWrite == old(session.largestWrite)
    ensures session.taken <= dst.Length && dst[..session.taken] == session.plan.total[..session.taken]
    ensures r == None <==> used == dst.Length
    ensures r == None ==> !session.failed && session.taken == used && session.drains == old(session.drains)
    ensures r.Some? ==> (r.value == None <==> session.failed)
    ensures session.failed ==> Faulty(session.plan)
    ensures r.Some? && r.value.Some? ==>
      var got := r.value.value;
      && old(session.made) <= session.made && used <= session.made
      && session.taken == used + got.n && got.n == Min(session.made - used, dst.Length - used)
      && session.drains == old(session.drains) + 1
      && (got.finished <==> session.ended && session.taken == |session.plan.total|)
      && (session.ended ==> 0 < got.n || got.finished)
  {
    if used == dst.Length {
      return None;
    }
    var got := session.Read(dst, used);
    if got == None || got.value.n > dst.Length - used {
      return Some(None);
    }
    var now := used + got.value.n;
    assert dst[..now] == dst[..used] + dst[used..now];
    assert session.plan.total[..now] == session.plan.total[..used] + session.plan.total[used..now];
    return Some(got);
  }

  /** The reads after one write: until one finds nothing. */
  method DrainQuiet(session: Session, dst: array<Byte>, used0: nat) returns (used: nat, stop: Option<PumpResult>)
    requires session.Valid() && used0 <= dst.Length && !session.failed && !session.ended
    requires used0 == session.taken == session.made && dst[..used0] == session.plan.total[..used0]
    modifies session, dst
    ensures session.Valid() && session.accepted == old(session.accepted) && !session.ended
    ensures session.largestWrite == old(session.largestWrite)
    ensures session.taken <= dst.Length && dst[..session.taken] == session.plan.total[..session.taken]
    ensures (session.failed <==> stop == Some(Error)) && (session.failed ==> Faulty(session.plan))
    ensures stop != Some(Error) ==> used == session.taken
    ensures stop == None ==>
      used == session.made < dst.Length && session.drains == Quiet(session.plan, old(session.drains))
    ensures stop != None && stop != Some(Error) ==>
      && stop == Some(TooSmall) && used == dst.Length <= session.made
      && session.drains < Quiet(session.plan, old(session.drains))
  {
    used := used0;
    while true
      invariant session.Valid() && !session.failed && session.accepted == old(session.accepted) && !session.ended
      invariant session.largestWrite == old(session.largestWrite)
      invariant used == session.taken == Min(session.made, dst.Length)
      invariant dst[..used] == session.plan.total[..used]
      invariant Quiet(session.plan, session.drains) == Quiet(session.plan, old(session.drains))
      decreases |session.plan.total| - session.taken
    {
      var got := DrainOne(session, dst, used);
      if got == None {
        return used, Some(TooSmall);
      }
      if got.value == None {
        return used, Some(Error);
      }
      used := used + got.value.value.n;
      if got.value.value.n == 0 {
        return used, None;
      }
    }
  }

  /** Between two slices: the first `offset` bytes are fed, everything produced so far
      is drained, and the writes still to come end where the whole feed ends. */
  ghost predicate Feeding(session: Session, src: Bytes, offset: nat, dst: array<Byte>, used: nat)
    reads session, dst
  {
    && offset <= |src| && session.Valid() && !session.failed && !session.ended
    && session.accepted == src[..offset] && session.largestWrite == Min(offset, SLICE)
    && (offset < SLICE ==> offset == 0 || offset == |src|)
    && used == session.taken == session.made <= dst.Length && (0 < offset ==> used < dst.Length)
    && dst[..used] == session.plan.total[..used]
    && QuietAfter(session.plan, session.drains, Slices(|src| - offset))
         == QuietAfter(session.plan, 0, Slices(|src|))
  }

  /** One slice: a write, and the reads after it. */
  method FeedSlice(session: Session, src: Bytes, offset: nat, dst: array<Byte>, used0: nat)
    returns (next: nat, used: nat, stop: Option<PumpResult>)
    requires Feeding(session, src, offset, dst, used0) && offset < |src|
    modifies session, dst
    ensures session.Valid() && !session.ended
    ensures session.accepted <= src && session.largestWrite <= SLICE
    ensures session.taken <= dst.Length && dst[..session.taken] == session.plan.total[..session.taken]
    ensures (session.failed <==> stop == Some(Error)) && (session.failed ==> Faulty(session.plan))
    ensures stop.Some? ==> stop.value == Error || (stop.value == TooSmall && !Fits(session.plan, |src|, dst.Length))
    ensures stop == None ==> offset < next && Feeding(session, src, next, dst, used)
  {
    hide Fits, Faulty, Quiet, Slices, Produced;
    var slice := Min(|src| - offset, SLICE);
    OneSliceLess(|src| - offset, slice);
    assert src[..offset + slice] == src[..offset] + src[offset..offset + slice];
    next, used := offset, used0;
    var ok := session.Write(src[offset..offset + slice]);
    if !ok {
      return next, used, Some(Error);
    }
    next := offset + slice;
    ghost var d := session.drains;
    used, stop := DrainQuiet(session, dst, used);
    if stop == Some(TooSmall) {
      FullTooEarly(session.plan, d, session.drains, |src|, Slices(|src| - next), dst.Length);
    }
  }

  /** Feeds all of `src` in bounded slices, draining after each. */
  method Feed(session: Session, src: Bytes, dst: array<Byte>) returns (used: nat, stop: Option<PumpResult>)
    requires session.Fresh()
    modifies session, dst
    ensures session.Valid() && !session.ended
    ensures session.accepted <= src && session.largestWrite <= SLICE
    ensures session.taken <= dst.Length && dst[..session.taken] == session.plan.total[..session.taken]
    ensures (session.failed <==> stop == Some(Error)) && (session.failed ==> Faulty(session.plan))
    ensures stop.Some? ==> stop.value == Error || (stop.value == TooSmall && !Fits(session.plan, |src|, dst.Length))
    ensures stop == None ==>
      && session.accepted == src && used == session.taken == BeforeEnd(session.plan, |src|)
      && session.largestWrite == Min(|src|, SLICE)
      && (|src| == 0 || used < dst.Length)
  {
    assert session.Valid() && Slices(0) == 0;
    hide Fits, Faulty, Produced, Quiet, Slices;
    var offset := 0;
    used := 0;
    while offset < |src|
      invariant Feeding(session, src, offset, dst, used)
      decreases |src| - offset
    {
      offset, used, stop := FeedSlice(session, src, offset, dst, used);
      if stop.Some? {
        return;
      }
    }
    stop := None;
  }

  /** pump_into: the result and the bytes are a function of the output the session
      will produce and of when it becomes available, for every input length. */
  method PumpInto(session: Session, src: Bytes, dst: array<Byte>) returns (r: PumpResult)
    requires session.Fresh()
    modifies session, dst
    ensures session.accepted <= src && session.largestWrite <= 1_048_576
    ensures (session.failed <==> r == Error) && (r == Error ==> Faulty(session.plan))
    ensures session.taken <= |session.plan.total| && session.taken <= dst.Length
    ensures dst[..session.taken] == session.plan.total[..session.taken]
    ensures r != Error ==>
      r == if Fits(session.plan, |src|, dst.Length) then Done(|session.plan.total|) else TooSmall
    ensures r.Done? ==> session.accepted == src && r.n == session.taken
    ensures r.Done? ==> session.largestWrite == Min(|src|, 1_048_576)
  {
    var used, stop := Feed(session, src, dst);
    if stop.Some? {
      return stop.value;
    }
    var ok := session.End();
    if !ok {
      return Error;
    }
    while true
      invariant session.Valid() && !session.failed && session.ended
      invariant session.accepted == src && session.largestWrite == Min(|src|, SLICE)
      invariant BeforeEnd(session.plan, |src|) <= used == session.taken <= dst.Length
      invariant dst[..used] == session.plan.total[..used]
      invariant used == dst.Length == |session.plan.total| ==> BeforeEnd(session.plan, |src|) == used
      decreases |session.plan.total| - session.taken
    {
      var got := DrainOne(session, dst, used);
      if got == None {
        return TooSmall;
      }
      if got.value == None {
        return Error;
      }
      used := used + got.value.value.n;
      if got.value.value.finished {
        return Done(used);
      }
    }
  }

  // ------------------------------------------------------ which sizes are safe

  lemma {:induction false} AllAtOnce(plan: Plan, k: nat)
    requires forall j :: |plan.total| <= plan.grow(j)
    ensures 0 < k ==> Produced(plan, k) == |plan.total|
    decreases k
  {
    if k == 0 {
    } else {
      AllAtOnce(plan, k - 1);
    }
  }

  /** The buffer sizes that work for every schedule of the same output: any larger
      than the output, and the exact size only when there is output but no input.
      So an exact-size buffer is not safe in general, whatever the bytes. */
  lemma SafeSizes(total: Bytes, len: nat, room: nat)
    ensures (forall plan: Plan | plan.total == total :: Fits(plan, len, room))
            <==> |total| < room || (|total| == room && len == 0 && 0 < room)
  {
    if |total| == room && len == 0 && 0 < room {
      forall plan: Plan | plan.total == total ensures Fits(plan, len, room) {
        assert BeforeEnd(plan, len) == 0;
      }
    } else if room <= |total| {
      var plan := Plan(total, (k: nat) => |total|, (k: nat) => Sound);
      if 0 < len {
        QuietAfterGrows(plan, Quiet(plan, 0), Slices(len) - 1);
        AllAtOnce(plan, QuietAfter(plan, 0, Slices(len)));
      }
      assert !Fits(plan, len, room);
    }
  }

  /** A concrete session whose exact-size buffer is refused: one byte in, one byte
      out, produced before the end of input. */
  lemma ExactSizeRefused() returns (plan: Plan)
    ensures plan.total == [7] && !Fits(plan, 1, 1)
  {
    plan := Plan([7], (k: nat) => 1, (k: nat) => Sound);
    QuietAfterGrows(plan, Quiet(plan, 0), 0);
    AllAtOnce(plan, QuietAfter(plan, 0, Slices(1)));
  }

  // ------------------------------------------------------------- pump_body

  /** The accumulating pump of the harness: the same feed and drain over a fixed
      drain slice, with the last step taken in `stage`.  It trusts the drain count,
      so the session must not report one beyond the slice. */
  method PumpBody(session: Session, src: Bytes, scratch: array<Byte>)
    returns (out: Bytes, ok: bool, stage: Stage)
    requires session.Fresh() && scratch.Length == SLICE
    requires forall k :: session.plan.fault(k) != Overreport
    modifies session, scratch
    ensures session.accepted <= src && session.largestWrite <= 1_048_576
    ensures (ok <==> !session.failed) && (!ok ==> Faulty(session.plan))
    ensures session.taken <= |session.plan.total| && out == session.plan.total[..session.taken]
    ensures ok ==> out == session.plan.total && session.accepted == src && session.ended
    ensures ok ==> session.largestWrite == Min(|src|, 1_048_576)
    ensures stage == session.last && (ok ==> stage == AtRead)
    ensures !ok ==> (stage == AtEnd ==> session.accepted == src)
  {
    var plan := session.plan;
    out, stage, ok := [], AtBegin, true;
    var off := 0;
    while off < |src|
      invariant off <= |src| && session.Valid() && !session.failed && !session.ended
      invariant session.accepted == src[..off] && session.largestWrite == Min(off, SLICE)
      invariant off < SLICE ==> off == 0 || off == |src|
      invariant stage == session.last
      invariant out == plan.total[..session.taken]
    {
      var slice := Min(|src| - off, SLICE);
      stage := AtWrite;
      ok := session.Write(src[off..off + slice]);
      if !ok {
        return;
      }
      off := off + slice;
      while true
        invariant session.Valid() && !session.failed && !session.ended
        invariant session.accepted == src[..off] && session.largestWrite == Min(off, SLICE)
        invariant stage == session.last
        invariant out == plan.total[..session.taken]
        decreases |plan.total| - session.taken
      {
        stage := AtRead;
        var got := session.Read(scratch, 0);
        if got == None {
          return out, false, stage;
        }
        if got.value.n == 0 {
          break;
        }
        out := out + scratch[..got.value.n];
      }
    }
    stage := AtEnd;
    ok := session.End();
    if !ok {
      return;
    }
    while true
      invariant session.Valid() && !session.failed && session.ended
      invariant session.accepted == src && session.largestWrite == Min(|src|, SLICE) && stage == session.last
      invariant out == plan.total[..session.taken]
      decreases |plan.total| - session.taken
    {
      stage := AtRead;
      var got := session.Read(scratch, 0);
      if got == None {
        return out, false, stage;
      }
      out := out + scratch[..got.value.n];
      if got.value.finished {
        return out, true, stage;
      }
    }
  }
}
