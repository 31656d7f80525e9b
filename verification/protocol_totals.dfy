/**
  What a run of the harness has done when it ends, and what main sees when it
  takes the warmup baselines.
  */
module ProtocolTotals {
  import opened Base
  import opened Protocol
  import opened ProtocolPhases
  import opened ProtocolKeying
  import opened ProtocolCounts
  import opened ProtocolProgress
  import opened ProtocolTheorems

  /** Main has joined every worker: it stands at the summary or past it, and did not
      give up before its workers. */
  predicate Finished(s: State) {
    s.board.main.Summary? || (Ending(s.board.main) && !Aborted(s.board))
  }

  predicate FailureFree(s: State) {
    forall i :: 0 <= i < |s.ws| ==> !s.ws[i].failed
  }

  /** Every worker has returned once the run is finished. */
  lemma AllDone(cfg: Config, s: State)
    requires PhaseInv(cfg, s) && Finished(s)
    ensures forall i :: 0 <= i < |s.ws| ==> s.ws[i].pc == Done
  {
    BitSums(s.ws);
  }

  /** The facts about one worker the invariants carry. */
  lemma WorkerFacts(cfg: Config, s: State, i: nat)
    requires Reachable(cfg, s) && i < |s.ws|
    ensures ControlOK(s.ws[i]) && TallyOK(cfg, s.ws[i], s.board.stop)
    ensures Finished(s) ==> s.ws[i].pc == Done
  {
    ReachableGood(cfg, s);
    if Finished(s) { AllDone(cfg, s); }
  }

  lemma SharedCounters(cfg: Config, s: State)
    requires Reachable(cfg, s)
    ensures s.rekeys == Sum(s.ws, RekeyedBy) && s.cycles == Sum(s.ws, CycledBy)
  {
    ReachableGood(cfg, s);
  }

  ghost function ExpectedRekeys(cfg: Config): Worker -> int {
    (w: Worker) => Times(cfg.rekeyEvery, Before(w.tally.iters))
  }

  ghost function ExpectedCycles(cfg: Config): Worker -> int {
    (w: Worker) => Times(cfg.blobCycleEvery, Before(w.tally.iters))
  }

  function ItersBy(w: Worker): int { w.tally.iters }
  function BytesEncBy(w: Worker): int { w.tally.bytesEnc }
  function BytesDecBy(w: Worker): int { w.tally.bytesDec }

  /** At the end of a failure-free run the rotations and reopens are exactly those
      the intervals call for: floor((iters - 1) / every), summed over the workers. */
  lemma OpsAddUp(cfg: Config, s: State)
    requires Reachable(cfg, s) && Finished(s) && FailureFree(s)
    ensures s.rekeys == Sum(s.ws, ExpectedRekeys(cfg))
    ensures s.cycles == Sum(s.ws, ExpectedCycles(cfg))
    ensures forall i :: 0 <= i < |s.ws| ==> 1 <= s.ws[i].tally.iters
  {
    SharedCounters(cfg, s);
    forall i | 0 <= i < |s.ws|
      ensures RekeyedBy(s.ws[i]) == ExpectedRekeys(cfg)(s.ws[i])
      ensures CycledBy(s.ws[i]) == ExpectedCycles(cfg)(s.ws[i])
      ensures 1 <= s.ws[i].tally.iters
    {
      OpsOfOne(cfg, s, i);
    }
    SumSame(s.ws, RekeyedBy, ExpectedRekeys(cfg));
    SumSame(s.ws, CycledBy, ExpectedCycles(cfg));
  }

  /** One worker that returned without an error. */
  lemma OpsOfOne(cfg: Config, s: State, i: nat)
    requires Reachable(cfg, s) && Finished(s) && i < |s.ws| && !s.ws[i].failed
    ensures var t := s.ws[i].tally;
      && 1 <= t.iters
      && t.rekeyed == Times(cfg.rekeyEvery, t.iters - 1)
      && t.cycled == Times(cfg.blobCycleEvery, t.iters - 1)
  {
    WorkerFacts(cfg, s, i);
  }

  lemma SumSame(ws: seq<Worker>, f: Worker -> int, g: Worker -> int)
    requires forall i :: 0 <= i < |ws| ==> f(ws[i]) == g(ws[i])
    ensures Sum(ws, f) == Sum(ws, g)
  {
    SumMonotone(ws, f, g);
    SumMonotone(ws, g, f);
  }

  /** In every reachable state, failing runs included, both byte totals are the
      completed iterations times the payload. */
  lemma BytesAddUp(cfg: Config, s: State)
    requires Reachable(cfg, s)
    ensures Sum(s.ws, BytesEncBy) == Sum(s.ws, ItersBy) * cfg.payload
    ensures Sum(s.ws, BytesDecBy) == Sum(s.ws, ItersBy) * cfg.payload
  {
    forall i | 0 <= i < |s.ws|
      ensures s.ws[i].tally.bytesEnc == s.ws[i].tally.bytesDec == s.ws[i].tally.iters * cfg.payload
    {
      WorkerFacts(cfg, s, i);
    }
    BytesSum(cfg, s.ws);
  }

  lemma {:induction false} BytesSum(cfg: Config, ws: seq<Worker>)
    requires forall i :: 0 <= i < |ws| ==>
      ws[i].tally.bytesEnc == ws[i].tally.bytesDec == ws[i].tally.iters * cfg.payload
    ensures Sum(ws, BytesEncBy) == Sum(ws, BytesDecBy) == Sum(ws, ItersBy) * cfg.payload
  {
    if ws == [] {
    } else {
      BytesSum(cfg, ws[1..]);
    }
  }

  /** With a fixed budget and no stop every worker completes exactly its budget,
      warmup included; and no worker ever exceeds it. */
  lemma BudgetIsSpent(cfg: Config, s: State, i: nat)
    requires Reachable(cfg, s) && 0 < cfg.iterations && i < |s.ws|
    ensures s.ws[i].tally.iters <= cfg.iterations
    ensures Finished(s) && !s.board.stop ==> s.ws[i].tally.iters == cfg.iterations
  {
    WorkerFacts(cfg, s, i);
  }

  /** The run that reaches the summary exits 0 exactly when no worker failed. */
  lemma ExitStatusIsTheVerdict(cfg: Config, s: State)
    requires Reachable(cfg, s) && Finished(s) && Ending(s.board.main)
    ensures s.board.main.code == 0 <==> FailureFree(s)
    ensures s.board.main.code in {0, 1}
  {
    ReachableGood(cfg, s);
  }

  /** The surfaces of `both` take turns, so any three consecutive iterations use all
      three, and both Pipelines. */
  lemma SurfacesRotate(k: nat)
    ensures Surface(Both, 3 * k) == Stream && SlotOf(Stream) == StreamSlot
    ensures Surface(Both, 3 * k + 1) == Message && SlotOf(Message) == MsgSlot
    ensures Surface(Both, 3 * k + 2) == StreamOneShot && SlotOf(StreamOneShot) == StreamSlot
    ensures forall shape :: shape != Both ==> Surface(shape, k) == shape
  {
  }

  /** A run that gives up before its workers, for a Pipeline or a plaintext it could
      not make, exits 1. */
  lemma AbortedExitsOne(cfg: Config, s: State)
    requires Reachable(cfg, s) && Aborted(s.board)
    ensures s.board.main.code == 1
  {
    ReachableGood(cfg, s);
  }

  /** When main takes the baselines every worker has returned from iteration 0,
      none has begun iteration 1, and each one either completed exactly one
      iteration or failed in it. */
  lemma BaselineSeesWarmupOnly(cfg: Config, s: State, i: nat)
    requires Reachable(cfg, s) && s.board.main.Baseline? && i < |s.ws|
    ensures s.ws[i].pc.WarmupWait? || s.ws[i].pc.ReleaseArrive? || s.ws[i].pc.ReleaseWait?
    ensures s.ws[i].iter == 0 && s.ws[i].tally.rekeyed == s.ws[i].tally.cycled == 0
    ensures s.ws[i].tally.iters == if s.ws[i].failed then 0 else 1
  {
    ReachableGood(cfg, s);
    BitSums(s.ws);
    assert TallyOK(cfg, s.ws[i], s.board.stop) && ControlOK(s.ws[i]);
    assert 1 <= Phase(s.ws[i]) < 4;
  }

  /** From the moment main sets it, `active` is the number of workers not yet
      returned, the finish instant has been stamped exactly once when that is zero and
      not at all before, and from the release on it is no earlier than the start. */
  lemma ActiveCountsWorkers(cfg: Config, s: State)
    requires Reachable(cfg, s) && !PreSpawn(s.board.main) && !Aborted(s.board)
    ensures s.board.active == Sum(s.ws, LiveBit)
    ensures s.board.stamps == if forall i :: 0 <= i < |s.ws| ==> s.ws[i].pc == Done then 1 else 0
    ensures s.board.main.RelArrive? || 3 <= MainPhase(s.board) ==> s.board.startNs <= s.board.finishNs
  {
    ReachableGood(cfg, s);
    hide KeyingInv, CountInv, Reachable;
    ActiveFromPhase(cfg, s);
  }

  lemma ActiveFromPhase(cfg: Config, s: State)
    requires PhaseInv(cfg, s) && !PreSpawn(s.board.main) && !Aborted(s.board)
    ensures s.board.active == Sum(s.ws, LiveBit)
    ensures s.board.stamps == if forall i :: 0 <= i < |s.ws| ==> s.ws[i].pc == Done then 1 else 0
    ensures s.board.main.RelArrive? || 3 <= MainPhase(s.board) ==> s.board.startNs <= s.board.finishNs
  {
    DoneSum(s.ws);
    hide Sum, Control, Barriers;
  }

  lemma DoneSum(ws: seq<Worker>)
    ensures Sum(ws, LiveBit) == 0 <==> forall i :: 0 <= i < |ws| ==> ws[i].pc == Done
  {
    BitSums(ws);
    if forall i :: 0 <= i < |ws| ==> ws[i].pc == Done {
      forall w | w in ws ensures 0 <= LiveBit(w) <= 0 {}
      SumBounds(ws, LiveBit, 0, 0);
    }
  }

  /** The start instant is main's clock at the baselines, and nothing else sets it. */
  lemma StartIsBaseline(cfg: Config, s: State, a: Action)
    requires Enabled(cfg, s, a)
    ensures var s' := Apply(cfg, s, a);
      && (a.MainAct? && s.board.main.Baseline? ==> s'.board.startNs == s'.board.finishNs == a.c.now)
      && (!(a.MainAct? && s.board.main.Baseline?) ==> s'.board.startNs == s.board.startNs)
  {
    hide WorkerAfter, PipesAfter, LockAfter, HaltAfter, MainPipes, Fails, WorkerEnabled;
  }

  /** The return of the last worker stamps the finish instant with its own clock. */
  lemma LastReturnStamps(cfg: Config, s: State, i: nat, c: Choice)
    requires Reachable(cfg, s) && Enabled(cfg, s, WorkerAct(i, c)) && s.ws[i].pc == Finishing
    requires forall j :: 0 <= j < |s.ws| && j != i ==> s.ws[j].pc == Done
    ensures var s' := Apply(cfg, s, WorkerAct(i, c));
      && s'.board.finishNs == c.now && s'.board.stamps == 1 && s'.board.active == 0 && s'.ws[i].pc == Done
  {
    var s' := Apply(cfg, s, WorkerAct(i, c));
    ReachableStep(cfg, s, WorkerAct(i, c));
    ReachableGood(cfg, s);
    ReachableGood(cfg, s');
    hide Reachable, KeyingInv, CountInv, Barriers, Control;
    OnlyOneLive(s.ws, i);
  }

  lemma OnlyOneLive(ws: seq<Worker>, i: nat)
    requires i < |ws| && ws[i].pc != Done && forall j :: 0 <= j < |ws| && j != i ==> ws[j].pc == Done
    ensures Sum(ws, LiveBit) == 1
  {
    var w := ws[i].(pc := Done);
    SumUpdate(ws, i, w, LiveBit);
    SumBounds(ws[i := w], LiveBit, 0, 0);
  }

  /** The stamp is placed after every iteration has ended, on a clock no earlier
      than the start. */
  lemma StampIsLast(cfg: Config, s: State, i: nat, c: Choice)
    requires Reachable(cfg, s) && Enabled(cfg, s, WorkerAct(i, c))
    requires Apply(cfg, s, WorkerAct(i, c)).board.finishNs != s.board.finishNs
    ensures var s' := Apply(cfg, s, WorkerAct(i, c));
      && s'.board.finishNs == c.now && s'.board.startNs <= c.now && s'.board.stamps == 1
      && s.board.stamps == 0 && forall j :: 0 <= j < |s'.ws| ==> s'.ws[j].pc == Done
  {
    var s' := Apply(cfg, s, WorkerAct(i, c));
    ReachableStep(cfg, s, WorkerAct(i, c));
    ReachableGood(cfg, s);
    ReachableGood(cfg, s');
    BitSums(s'.ws);
    assert 3 <= MainPhase(s.board) by { BitSums(s.ws); }
  }
}
