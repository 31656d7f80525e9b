/**
  What holds in every reachable state and along every run of the harness, for
  any number of workers and any outcome of the library calls.
  */
module ProtocolTheorems {
  import opened Base
  import opened Protocol
  import opened ProtocolPhases
  import opened ProtocolKeying
  import opened ProtocolCounts
  import opened ProtocolProgress

  // ------------------------------------------------------------ reachability

  lemma {:induction false} RunKeepsGood(cfg: Config, s: State, acts: seq<Action>)
    requires Good(cfg, s) && CanRun(cfg, s, acts)
    ensures Good(cfg, After(cfg, s, acts))
    decreases |acts|
  {
    if acts == [] {
    } else {
      KeepsGood(cfg, s, acts[0]);
      RunKeepsGood(cfg, Apply(cfg, s, acts[0]), acts[1..]);
    }
  }

  lemma ReachableGood(cfg: Config, s: State)
    requires Reachable(cfg, s)
    ensures Good(cfg, s)
  {
    var s0: State, acts: seq<Action> :| Init(cfg, s0) && CanRun(cfg, s0, acts) && After(cfg, s0, acts) == s;
    InitGood(cfg, s0);
    RunKeepsGood(cfg, s0, acts);
  }

  lemma {:induction false} RunExtends(cfg: Config, s: State, acts: seq<Action>, a: Action)
    requires CanRun(cfg, s, acts) && Enabled(cfg, After(cfg, s, acts), a)
    ensures CanRun(cfg, s, acts + [a])
    ensures After(cfg, s, acts + [a]) == Apply(cfg, After(cfg, s, acts), a)
    decreases |acts|
  {
    if acts == [] {
      assert acts + [a] == [a];
    } else {
      assert (acts + [a])[1..] == acts[1..] + [a];
      RunExtends(cfg, Apply(cfg, s, acts[0]), acts[1..], a);
    }
  }

  lemma ReachableStep(cfg: Config, s: State, a: Action)
    requires Reachable(cfg, s) && Enabled(cfg, s, a)
    ensures Reachable(cfg, Apply(cfg, s, a))
  {
    var s0: State, acts: seq<Action> :| Init(cfg, s0) && CanRun(cfg, s0, acts) && After(cfg, s0, acts) == s;
    RunExtends(cfg, s0, acts, a);
  }

  // ------------------------------------------------------------------ keying

  /** The DATA MISMATCH exit and the dereference of an empty Pipeline are
      unreachable. */
  lemma MismatchUnreachable(cfg: Config, s: State)
    requires Reachable(cfg, s)
    ensures s.halt == Running
  {
    ReachableGood(cfg, s);
  }

  /** From any state at all, a comparison of differing bytes ends the process on the
      spot: it counts nothing, and no action is possible afterwards. */
  lemma MismatchStopsEverything(cfg: Config, s: State, i: nat, c: Choice)
    requires Enabled(cfg, s, WorkerAct(i, c)) && s.ws[i].pc.Compare?
    requires s.ws[i].data.got != s.ws[i].data.plain
    ensures var s' := Apply(cfg, s, WorkerAct(i, c));
      && s'.halt == DataMismatch && s'.ws[i].tally == s.ws[i].tally && s'.pipes == s.pipes
      && forall a: Action :: !Enabled(cfg, s', a)
  {
  }

  /** A decrypt in flight runs under the very keying its matching encrypt sealed
      under, and that keying is still the live one. */
  lemma RoundTripUnderOneKeying(cfg: Config, s: State, i: nat)
    requires Reachable(cfg, s) && i < |s.ws| && s.ws[i].pc.DecRun?
    ensures
      var d := s.ws[i].data;
      && d.use.Open? && d.use.handle in s.pipes.live
      && d.wire == Sealed(Surface(cfg.shape, s.ws[i].iter), s.pipes.live[d.use.handle], d.plain)
      && d.use.key == s.pipes.live[d.use.handle]
  {
    ReachableGood(cfg, s);
  }

  /** The actions that rekey or free `h`: the Rekey call on it, whatever keying comes
      out, the swap that replaces it, and the destructors. */
  predicate Mutates(s: State, a: Action, h: Handle) {
    match a
    case WorkerAct(j, _) =>
      && j < |s.ws|
      && (match s.ws[j].pc
          case RekeyCall(slot) => slot in s.pipes.pipe && s.pipes.pipe[slot] == h
          case CycleSwap(slot, _) => slot in s.pipes.pipe && s.pipes.pipe[slot] == h
          case _ => false)
    case MainAct(_) => s.board.main.Teardown? && Owned(s.pipes, h)
    case Poll(_) => false
  }

  /** Every worker's sessions and calls are closed while a handle is rekeyed or freed. */
  lemma MutationFindsNoUse(cfg: Config, s: State, a: Action, h: Handle, i: nat)
    requires Reachable(cfg, s) && Enabled(cfg, s, a) && Mutates(s, a, h)
    requires i < |s.ws|
    ensures s.ws[i].data.use == Idle
  {
    ReachableGood(cfg, s);
    match a
    case WorkerAct(j, _) =>
      assert HoldsWrite(s.ws[j].pc);
      assert !HoldsRead(s.ws[i].pc);
    case MainAct(c) =>
      MainKeepsTrips(cfg, s, c);
    case Poll(_) =>
  }

  /** No other action changes the keying of an allocated handle or frees it. */
  lemma OnlyMutationsChange(cfg: Config, s: State, a: Action, h: Handle)
    requires Reachable(cfg, s) && Enabled(cfg, s, a) && h in s.pipes.live
    requires var live' := Apply(cfg, s, a).pipes.live; h !in live' || live'[h] != s.pipes.live[h]
    ensures Mutates(s, a, h)
  {
    ReachableGood(cfg, s);
    match a
    case WorkerAct(j, c) =>
      WorkerChanges(s.pipes, s.ws[j].pc, c, h);
      assert PipesAfter(s.pipes, s.ws[j].pc, c) == Apply(cfg, s, a).pipes;
      MutatorHoldsWrite(s.pipes, s.ws[j].pc, c);
    case MainAct(c) => MainChanges(cfg, s, c, h);
    case Poll(_) =>
  }

  lemma WorkerChanges(p: Pipes, pc: PC, c: Choice, h: Handle)
    requires h in p.live && (forall g :: g in p.live ==> g < p.next)
    requires var live' := PipesAfter(p, pc, c).live; h !in live' || live'[h] != p.live[h]
    ensures match pc
      case RekeyCall(slot) => slot in p.pipe && p.pipe[slot] == h
      case CycleSwap(slot, _) => slot in p.pipe && p.pipe[slot] == h
      case _ => false
  {
  }

  lemma MainChanges(cfg: Config, s: State, c: Choice, h: Handle)
    requires h in s.pipes.live && (forall g :: g in s.pipes.live ==> g < s.pipes.next)
    requires var live' := MainPipes(cfg, s.pipes, s.board.main, c).live; h !in live' || live'[h] != s.pipes.live[h]
    ensures s.board.main.Teardown? && Owned(s.pipes, h)
  {
    if s.board.main.Teardown? {
      assert h in s.pipes.pipe.Values;
      var slot :| slot in s.pipes.pipe && s.pipes.pipe[slot] == h;
      match slot case StreamSlot => case MsgSlot =>
    }
  }

  lemma MutatorHoldsWrite(p: Pipes, pc: PC, c: Choice)
    requires PipesAfter(p, pc, c) != p
    ensures HoldsWrite(pc)
  {
  }

  /** Whatever a worker has open is allocated, engaged in the slot of its
      iteration, and keyed as it was when the use began. */
  lemma UseIsLive(cfg: Config, s: State, i: nat)
    requires Reachable(cfg, s) && i < |s.ws| && s.ws[i].data.use.Open?
    ensures
      var (slot, use) := (SlotAt(cfg, s.ws[i]), s.ws[i].data.use);
      && slot in s.pipes.pipe && s.pipes.pipe[slot] == use.handle
      && use.handle in s.pipes.live && s.pipes.live[use.handle] == use.key
      && s.lock.writer == None
  {
    ReachableGood(cfg, s);
    assert HoldsRead(s.ws[i].pc);
  }

  // ------------------------------------------------------------------- blobs

  ghost predicate BlobsAgree(p: Pipes) {
    forall slot :: slot in p.pipe ==>
      p.pipe[slot] in p.live && slot in p.blob && p.live[p.pipe[slot]] == p.blob[slot]
  }

  /** The retained blobs restore the live keying whenever no rekey stands between
      its two steps: always without a writer, throughout a reopen, and on every
      failing way out of a rotation or a reopen. */
  lemma BlobsRestoreKeying(cfg: Config, s: State)
    requires Reachable(cfg, s)
    requires s.lock.writer == None || forall i :: 0 <= i < |s.ws| ==> !s.ws[i].pc.RekeyStore?
    ensures BlobsAgree(s.pipes)
  {
    ReachableGood(cfg, s);
  }

  /** Keying of a slot's Pipeline. */
  function KeyingOf(p: Pipes, slot: Slot): Option<Key> {
    if slot in p.pipe && p.pipe[slot] in p.live then Some(p.live[p.pipe[slot]]) else None
  }

  /** While workers run, a slot's keying changes only by a successful Rekey of
      that slot under the write lock; in particular no reopen changes it. */
  lemma OnlyRekeyChangesKeying(cfg: Config, s: State, i: nat, c: Choice, slot: Slot)
    requires Reachable(cfg, s) && Enabled(cfg, s, WorkerAct(i, c))
    requires KeyingOf(Apply(cfg, s, WorkerAct(i, c)).pipes, slot) != KeyingOf(s.pipes, slot)
    ensures s.ws[i].pc == RekeyCall(slot) && c.ok && s.lock.writer == Some(i)
    ensures KeyingOf(Apply(cfg, s, WorkerAct(i, c)).pipes, slot) == Some(c.key)
  {
    ReachableGood(cfg, s);
    KeyingStep(cfg, s, i, c, slot);
    assert HoldsWrite(s.ws[i].pc);
  }

  lemma KeyingStep(cfg: Config, s: State, i: nat, c: Choice, slot: Slot)
    requires i < |s.ws| && LockInv(s.ws, s.lock) && PipesOK(s.pipes, WriterPC(s.ws, s.lock))
    requires KeyingOf(PipesAfter(s.pipes, s.ws[i].pc, c), slot) != KeyingOf(s.pipes, slot)
    ensures s.ws[i].pc == RekeyCall(slot) && c.ok
    ensures KeyingOf(PipesAfter(s.pipes, s.ws[i].pc, c), slot) == Some(c.key)
  {
    var pc := s.ws[i].pc;
    if !HoldsWrite(pc) {
      IdleStep(cfg, s.pipes, s.board.stop, s.ws[i], c);
    } else if !(pc == RekeyCall(slot) && c.ok) {
      PipesKeyings(s.pipes, pc, c, slot);
    }
  }

  lemma PipesKeyings(p: Pipes, pc: PC, c: Choice, slot: Slot)
    requires PipesOK(p, pc) && !(pc == RekeyCall(slot) && c.ok)
    ensures KeyingOf(PipesAfter(p, pc, c), slot) == KeyingOf(p, slot)
  {
    match pc
    case RekeyCall(other) =>
      assert slot != other ==> !(slot in p.pipe && other in p.pipe && p.pipe[slot] == p.pipe[other]);
    case CycleLoad(other) => LoadKeepsKeying(p, other, slot);
    case CycleSwap(other, loaded) => SwapKeepsKeying(p, other, loaded, slot);
    case _ =>
  }

  lemma LoadKeepsKeying(p: Pipes, other: Slot, slot: Slot)
    requires PipesOK(p, CycleLoad(other))
    ensures other in p.pipe ==> KeyingOf(Loaded(p, other), slot) == KeyingOf(p, slot)
  {
  }

  /** A reopen keeps every slot's keying though it replaces the handle. */
  lemma SwapKeepsKeying(p: Pipes, other: Slot, loaded: Handle, slot: Slot)
    requires PipesOK(p, CycleSwap(other, loaded))
    ensures KeyingOf(Swapped(p, other, loaded), slot) == KeyingOf(p, slot)
    ensures p.pipe[other] !in Swapped(p, other, loaded).live
  {
    if slot != other && slot in p.pipe {
      assert p.pipe[slot] != p.pipe[other] by { match slot case StreamSlot => case MsgSlot => }
    }
  }

  /** Every allocated handle is owned by a Pipeline or is being swapped in, two
      Pipelines never own one handle, and at the end none is left. */
  lemma HandlesAccounted(cfg: Config, s: State)
    requires Reachable(cfg, s)
    ensures forall h :: h in s.pipes.live ==> Owned(s.pipes, h) || Loading(WriterPC(s.ws, s.lock), h)
    ensures StreamSlot in s.pipes.pipe && MsgSlot in s.pipes.pipe
            ==> s.pipes.pipe[StreamSlot] != s.pipes.pipe[MsgSlot]
    ensures s.board.main.Exited? ==> s.pipes.live == map[]
  {
    ReachableGood(cfg, s);
    if s.board.main.Exited? { NothingLeft(cfg, s); }
  }

  lemma NothingLeft(cfg: Config, s: State)
    requires Safe(cfg, s) && s.board.main.Exited?
    ensures s.pipes.live == map[]
  {
    BitSums(s.ws);
    assert forall i :: 0 <= i < |s.ws| ==> !HoldsWrite(s.ws[i].pc);
    assert s.lock.writer == None;
    assert forall h :: h !in s.pipes.live;
  }

  // ---------------------------------------------------------------- liveness

  /** Before the process has exited some action other than a poll is enabled. */
  lemma NoDeadlock(cfg: Config, s: State)
    requires Reachable(cfg, s) && !s.board.main.Exited?
    ensures exists a: Action :: !a.Poll? && Enabled(cfg, s, a)
  {
    ReachableGood(cfg, s);
    NeverStuck(cfg, s);
  }

  /** With a fixed budget, or once a stop is requested, every run is finite apart
      from polls, and what it runs into is the process exit. */
  lemma Terminates(cfg: Config, s: State, acts: seq<Action>)
    requires Reachable(cfg, s) && (0 < cfg.iterations || s.board.stop) && CanRun(cfg, s, acts)
    ensures Actions(acts) <= Work(cfg, s)
    ensures
      var s' := After(cfg, s, acts);
      s'.board.main.Exited? || exists a: Action :: !a.Poll? && Enabled(cfg, s', a)
  {
    ReachableGood(cfg, s);
    RunsAreBounded(cfg, s, acts);
    RunKeepsGood(cfg, s, acts);
    if !After(cfg, s, acts).board.main.Exited? { NeverStuck(cfg, After(cfg, s, acts)); }
  }

  /** The bound in terms of the configuration alone. */
  lemma WorkAtStart(cfg: Config, s: State)
    requires Init(cfg, s) && 0 < cfg.iterations
    ensures Work(cfg, s) <= cfg.workers * (41 * cfg.iterations + 1) + 12
  {
    var k := 41 * (cfg.iterations - 1) + 40;
    forall w | w in s.ws ensures 0 <= RemainingFn(cfg, s.board.stop)(w) <= k {}
    SumBounds(s.ws, RemainingFn(cfg, s.board.stop), 0, k);
    SplitBound(cfg.workers, cfg.iterations);
  }

  lemma SplitBound(n: nat, m: nat)
    ensures (41 * (m - 1) + 40) * n + 2 * n == n * (41 * m + 1)
  {
  }

  // -------------------------------------------------------------------- stop

  /** Completions still ahead of a worker that will find the stop flag set. */
  function IterAhead(pc: PC): nat {
    if pc.NotStarted? || (InIterate(pc) && !pc.ReadUnlock?) then 1 else 0
  }

  function RekeyAhead(w: Worker): nat {
    var pc := w.pc;
    if pc.NotStarted? || InIterate(pc) || pc.MaintRekey? || (InRekey(pc) && !pc.RekeyUnlock?) then 1 else 0
  }

  function CycleAhead(w: Worker): nat {
    var pc := w.pc;
    if RekeyAhead(w) == 1 || pc.RekeyUnlock? || pc.MaintCycle? || (InCycle(pc) && !pc.CycleUnlock?) then 1 else 0
  }

  /** A worker's counters with what is still ahead of them. */
  predicate NoMore(w: Worker, w': Worker) {
    && w'.tally.iters + IterAhead(w'.pc) <= w.tally.iters + IterAhead(w.pc)
    && w'.tally.rekeyed + RekeyAhead(w') <= w.tally.rekeyed + RekeyAhead(w)
    && w'.tally.cycled + CycleAhead(w') <= w.tally.cycled + CycleAhead(w)
  }

  lemma StoppedItersStep(cfg: Config, p: Pipes, w: Worker, c: Choice)
    ensures var w' := WorkerAfter(cfg, p, true, w, c);
      w'.tally.iters + IterAhead(w'.pc) <= w.tally.iters + IterAhead(w.pc)
  {
  }

  lemma StoppedOpsStep(cfg: Config, p: Pipes, w: Worker, c: Choice)
    ensures var w' := WorkerAfter(cfg, p, true, w, c);
      && w'.tally.rekeyed + RekeyAhead(w') <= w.tally.rekeyed + RekeyAhead(w)
      && w'.tally.cycled + CycleAhead(w') <= w.tally.cycled + CycleAhead(w)
  {
  }

  lemma StopStays(cfg: Config, s: State, a: Action)
    requires Good(cfg, s) && Enabled(cfg, s, a) && s.board.stop
    ensures var s' := Apply(cfg, s, a);
      && s'.board.stop && |s'.ws| == |s.ws|
      && forall i :: 0 <= i < |s.ws| ==> NoMore(s.ws[i], s'.ws[i])
  {
    match a
    case WorkerAct(i, c) =>
      StoppedItersStep(cfg, s.pipes, s.ws[i], c);
      StoppedOpsStep(cfg, s.pipes, s.ws[i], c);
    case MainAct(c) => MainKeepsStop(cfg, s, c);
    case Poll(_) =>
  }

  lemma {:induction false} StoppedRun(cfg: Config, s: State, acts: seq<Action>)
    requires Good(cfg, s) && CanRun(cfg, s, acts) && s.board.stop
    ensures var s' := After(cfg, s, acts);
      && s'.board.stop && |s'.ws| == |s.ws|
      && forall i :: 0 <= i < |s.ws| ==> NoMore(s.ws[i], s'.ws[i])
    decreases |acts|
  {
    if acts == [] {
    } else {
      KeepsGood(cfg, s, acts[0]);
      StopStays(cfg, s, acts[0]);
      StoppedRun(cfg, Apply(cfg, s, acts[0]), acts[1..]);
    }
  }

  /** After a stop is requested it stays requested, and each worker completes at
      most one more iteration, one more rotation and one more reopen. */
  lemma StopIsPrompt(cfg: Config, s: State, acts: seq<Action>, i: nat)
    requires Reachable(cfg, s) && s.board.stop && CanRun(cfg, s, acts) && i < |s.ws|
    ensures
      var s' := After(cfg, s, acts);
      && s'.board.stop && |s'.ws| == |s.ws|
      && var (t, t') := (s.ws[i].tally, s'.ws[i].tally);
      && t'.iters <= t.iters + 1 && t'.rekeyed <= t.rekeyed + 1 && t'.cycled <= t.cycled + 1
  {
    ReachableGood(cfg, s);
    StoppedRun(cfg, s, acts);
    assert NoMore(s.ws[i], After(cfg, s, acts).ws[i]);
  }

  lemma {:induction false} RunSplits(cfg: Config, s: State, before: seq<Action>, rest: seq<Action>)
    ensures CanRun(cfg, s, before + rest) <==> CanRun(cfg, s, before) && CanRun(cfg, After(cfg, s, before), rest)
    ensures CanRun(cfg, s, before + rest) ==>
      After(cfg, s, before + rest) == After(cfg, After(cfg, s, before), rest)
    decreases |before|
  {
    hide Apply, Enabled;
    if before == [] {
      assert before + rest == rest;
    } else {
      assert (before + rest)[0] == before[0] && (before + rest)[1..] == before[1..] + rest;
      if Enabled(cfg, s, before[0]) {
        RunSplits(cfg, Apply(cfg, s, before[0]), before[1..], rest);
      }
    }
  }

  lemma ReachableRun(cfg: Config, s: State, acts: seq<Action>)
    requires Reachable(cfg, s) && CanRun(cfg, s, acts)
    ensures Reachable(cfg, After(cfg, s, acts))
  {
    hide Apply, Enabled;
    var s0: State, before: seq<Action> :| Init(cfg, s0) && CanRun(cfg, s0, before) && After(cfg, s0, before) == s;
    RunSplits(cfg, s0, before, acts);
  }

  /** What holds from a stop on, to the end of any run. */
  ghost predicate WindsDown(cfg: Config, p: State, rest: seq<Action>)
    requires CanRun(cfg, p, rest)
  {
    var e := After(cfg, p, rest);
    && p.board.stop && e.board.stop && Actions(rest) <= Work(cfg, p)
    && (e.board.main.Exited? || exists a: Action :: !a.Poll? && Enabled(cfg, e, a))
    && |e.ws| == |p.ws|
    && forall i :: 0 <= i < |p.ws| ==>
         && e.ws[i].tally.iters <= p.ws[i].tally.iters + 1
         && e.ws[i].tally.rekeyed <= p.ws[i].tally.rekeyed + 1
         && e.ws[i].tally.cycled <= p.ws[i].tally.cycled + 1
  }

  lemma StoppedWindsDown(cfg: Config, p: State, rest: seq<Action>)
    requires Reachable(cfg, p) && p.board.stop && CanRun(cfg, p, rest)
    ensures WindsDown(cfg, p, rest)
  {
    Terminates(cfg, p, rest);
    SameWorkers(cfg, p, rest);
    forall i | 0 <= i < |p.ws|
      ensures var e := After(cfg, p, rest);
        && e.board.stop && |e.ws| == |p.ws|
        && e.ws[i].tally.iters <= p.ws[i].tally.iters + 1
        && e.ws[i].tally.rekeyed <= p.ws[i].tally.rekeyed + 1
        && e.ws[i].tally.cycled <= p.ws[i].tally.cycled + 1
    {
      StopIsPrompt(cfg, p, rest, i);
    }
    ReachableGood(cfg, p);
    StoppedRun(cfg, p, rest);
    hide Reachable, Work, Enabled, CanRun, After, Good;
  }

  /** The deadline and a signal end a run, whatever its budget and whatever went
      before: from the poll that notices one, the stop flag is set for good, the
      actions still to come are bounded, what they run into is the process exit, and
      each worker completes at most one more iteration, rotation and reopen. */
  lemma PollStops(cfg: Config, s: State, before: seq<Action>, rest: seq<Action>)
    requires Reachable(cfg, s) && CanRun(cfg, s, before + ([Poll(true)] + rest))
    ensures CanRun(cfg, s, before) && Enabled(cfg, After(cfg, s, before), Poll(true))
    ensures
      var p := Apply(cfg, After(cfg, s, before), Poll(true));
      && CanRun(cfg, p, rest) && After(cfg, s, before + ([Poll(true)] + rest)) == After(cfg, p, rest)
      && WindsDown(cfg, p, rest)
  {
    var all := [Poll(true)] + rest;
    RunSplits(cfg, s, before, all);
    var m := After(cfg, s, before);
    assert all[0] == Poll(true) && all[1..] == rest;
    ReachableRun(cfg, s, before);
    ReachableStep(cfg, m, Poll(true));
    hide Reachable, Enabled, WindsDown, WorkerStep, MainStep;
    StoppedWindsDown(cfg, Apply(cfg, m, Poll(true)), rest);
  }

  lemma {:induction false} SameWorkers(cfg: Config, s: State, acts: seq<Action>)
    requires CanRun(cfg, s, acts)
    ensures |After(cfg, s, acts).ws| == |s.ws|
    decreases |acts|
  {
    hide WorkerAfter, PipesAfter, LockAfter, BoardAfter, HaltAfter, MainPipes, MainBoard;
    if acts == [] {
    } else {
      SameWorkers(cfg, Apply(cfg, s, acts[0]), acts[1..]);
    }
  }

  /** A poll that notices nothing changes nothing, and no poll takes a stop back. */
  lemma PollOnlyStops(cfg: Config, s: State, stop: bool)
    requires Enabled(cfg, s, Poll(stop))
    ensures var s' := Apply(cfg, s, Poll(stop));
      && s'.board.stop == (s.board.stop || stop) && s'.ws == s.ws && s'.pipes == s.pipes && s'.lock == s.lock
      && s'.board.main == Waiting && s'.board.active == s.board.active && (!stop ==> s' == s)
  {
  }

  /** A recorded worker error implies the stop request. */
  lemma ErrorsStop(cfg: Config, s: State, i: nat)
    requires Reachable(cfg, s) && i < |s.ws| && s.ws[i].failed
    ensures s.board.stop
  {
    ReachableGood(cfg, s);
  }
}
