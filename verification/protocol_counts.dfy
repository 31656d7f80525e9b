/**
  Conservation of the counters: what every worker's tally and the run's rekey
  and blob-cycle counters are, at every program point of every interleaving.
  */
module ProtocolCounts {
  import opened Base
  import opened Protocol
  import opened ProtocolPhases

  /** How often an interval of `every` iterations has fired by iteration `n`. */
  function Times(every: nat, n: nat): nat {
    if every == 0 then 0 else n / every
  }

  lemma TimesStep(every: nat, n: nat)
    requires 0 < n
    ensures Times(every, n) == Times(every, n - 1) + if Due(every, n) then 1 else 0
  {
    if every != 0 {
      var q, r := n / every, n % every;
      assert n == q * every + r;
      if r == 0 {
        assert n - 1 == (q - 1) * every + (every - 1);
        QuotientIs(n - 1, every, q - 1, every - 1);
      } else {
        QuotientIs(n - 1, every, q, r - 1);
      }
    }
  }

  function Before(iter: nat): nat {
    if iter == 0 then 0 else iter - 1
  }

  predicate Stopped(pc: PC) {
    pc.Finishing? || pc.Done?
  }

  /** Past this iteration's comparison. */
  predicate Compared(pc: PC) {
    match pc
    case ReadUnlock(ok) => ok
    case WarmupArrive(ok) => ok
    case WarmupWait(ok) => ok
    case ReleaseArrive(ok) => ok
    case ReleaseWait(ok) => ok
    case MaintRekey => true
    case MaintCycle => true
    case _ => InRekey(pc) || InCycle(pc)
  }

  /** Past this iteration's rotation. */
  predicate RekeyPassed(pc: PC) {
    pc == RekeyUnlock(true) || pc.MaintCycle? || InCycle(pc)
  }

  /** Past this iteration's reopen. */
  predicate CyclePassed(pc: PC) {
    pc == CycleUnlock(true)
  }

  /** Completed iterations, from the program point and the iteration number. */
  predicate ItersOK(w: Worker) {
    if Stopped(w.pc) && w.failed then w.iter <= w.tally.iters <= w.iter + 1
    else w.tally.iters == w.iter + if Compared(w.pc) then 1 else 0
  }

  /** A fixed budget is never exceeded. */
  predicate WithinBudget(cfg: Config, w: Worker) {
    0 < cfg.iterations ==>
      && w.iter <= cfg.iterations
      && (w.pc.CheckStop? || InIterate(w.pc) || Compared(w.pc) || w.failed ==> w.iter < cfg.iterations)
  }

  /** A count of an interval's firings: `passed` tells whether this
      iteration's firing is behind the worker. */
  predicate FiredOK(every: nat, w: Worker, passed: bool, count: nat) {
    if Stopped(w.pc) && w.failed
    then Times(every, Before(w.iter)) <= count <= Times(every, Before(w.iter)) + 1
    else count == Times(every, if passed then w.iter else Before(w.iter))
  }

  /** Maintenance runs after a warm-up only, and only in an iteration it is due. */
  predicate DueOK(cfg: Config, w: Worker) {
    && (InRekey(w.pc) ==> Due(cfg.rekeyEvery, w.iter))
    && (InCycle(w.pc) ==> Due(cfg.blobCycleEvery, w.iter))
    && (w.pc.MaintRekey? || InRekey(w.pc) || w.pc.MaintCycle? || InCycle(w.pc) ==> 0 < w.iter)
  }

  /** Rotations and reopens this worker completed. */
  predicate RekeysOK(cfg: Config, w: Worker) {
    FiredOK(cfg.rekeyEvery, w, RekeyPassed(w.pc), w.tally.rekeyed)
  }

  predicate CyclesOK(cfg: Config, w: Worker) {
    FiredOK(cfg.blobCycleEvery, w, CyclePassed(w.pc), w.tally.cycled)
  }

  predicate BytesOK(cfg: Config, w: Worker) {
    && |w.data.plain| == cfg.payload
    && w.tally.bytesEnc == w.tally.iters * cfg.payload
    && w.tally.bytesDec == w.tally.iters * cfg.payload
  }

  /** A worker that returned without an error or a stop used up its budget. */
  predicate BudgetOK(cfg: Config, w: Worker, stop: bool) {
    Stopped(w.pc) && !stop ==> 0 < cfg.iterations == w.iter
  }

  function RekeyedBy(w: Worker): int { w.tally.rekeyed }
  function CycledBy(w: Worker): int { w.tally.cycled }

  predicate TallyOK(cfg: Config, w: Worker, stop: bool) {
    && ItersOK(w) && WithinBudget(cfg, w) && BudgetOK(cfg, w, stop) && BytesOK(cfg, w)
    && DueOK(cfg, w) && RekeysOK(cfg, w) && CyclesOK(cfg, w)
  }

  ghost predicate CountInv(cfg: Config, s: State) {
    && (forall i :: 0 <= i < |s.ws| ==> TallyOK(cfg, s.ws[i], s.board.stop))
    && s.rekeys == Sum(s.ws, RekeyedBy)
    && s.cycles == Sum(s.ws, CycledBy)
    && VerdictOK(s.ws, s.board)
  }

  /** The exit status: 1 when main gave up before the workers, otherwise 0
      exactly when no worker failed. */
  predicate VerdictOK(ws: seq<Worker>, b: Board) {
    Ending(b.main) ==>
      b.main.code == if !Aborted(b) && (forall i :: 0 <= i < |ws| ==> !ws[i].failed) then 0 else 1
  }

  // ------------------------------------------------------------------ proof

  lemma ItersStep(cfg: Config, p: Pipes, stop: bool, w: Worker, c: Choice)
    requires ControlOK(w) && ItersOK(w) && (w.pc.Compare? ==> w.data.got == w.data.plain)
    ensures ItersOK(WorkerAfter(cfg, p, stop, w, c))
  {
    if InMaintenance(w.pc) {
      MaintenanceIters(cfg, p, stop, w, c);
    } else {
      RoundTripIters(cfg, p, stop, w, c);
    }
  }

  lemma MaintenanceIters(cfg: Config, p: Pipes, stop: bool, w: Worker, c: Choice)
    requires InMaintenance(w.pc) && ControlOK(w) && ItersOK(w)
    ensures ItersOK(WorkerAfter(cfg, p, stop, w, c))
  {
    hide DataAfter, SlotAt, Due;
  }

  lemma RoundTripIters(cfg: Config, p: Pipes, stop: bool, w: Worker, c: Choice)
    requires !InMaintenance(w.pc) && ControlOK(w) && ItersOK(w)
    requires w.pc.Compare? ==> w.data.got == w.data.plain
    ensures ItersOK(WorkerAfter(cfg, p, stop, w, c))
  {
    hide DataAfter, SlotAt, Due;
  }

  lemma WithinStep(cfg: Config, p: Pipes, stop: bool, w: Worker, c: Choice)
    requires WithinBudget(cfg, w) && ControlOK(w)
    ensures WithinBudget(cfg, WorkerAfter(cfg, p, stop, w, c))
  {
    hide DataAfter, SlotAt;
  }

  lemma DueStep(cfg: Config, p: Pipes, stop: bool, w: Worker, c: Choice)
    requires DueOK(cfg, w)
    ensures DueOK(cfg, WorkerAfter(cfg, p, stop, w, c))
  {
  }

  lemma RekeysStep(cfg: Config, p: Pipes, stop: bool, w: Worker, c: Choice)
    requires ControlOK(w) && DueOK(cfg, w) && RekeysOK(cfg, w)
    ensures RekeysOK(cfg, WorkerAfter(cfg, p, stop, w, c))
  {
    hide Times, Due;
    if 0 < w.iter { TimesStep(cfg.rekeyEvery, w.iter); }
  }

  lemma CyclesStep(cfg: Config, p: Pipes, stop: bool, w: Worker, c: Choice)
    requires ControlOK(w) && DueOK(cfg, w) && CyclesOK(cfg, w)
    ensures CyclesOK(cfg, WorkerAfter(cfg, p, stop, w, c))
  {
    hide Times, Due;
    if 0 < w.iter { TimesStep(cfg.blobCycleEvery, w.iter); }
  }

  lemma BytesStep(cfg: Config, p: Pipes, stop: bool, w: Worker, c: Choice)
    requires BytesOK(cfg, w)
    requires w.pc.Refill? && cfg.rotating && c.ok ==> |c.bytes| == cfg.payload
    requires w.pc.Compare? ==> w.data.got == w.data.plain
    ensures BytesOK(cfg, WorkerAfter(cfg, p, stop, w, c))
  {
    assert (w.tally.iters + 1) * cfg.payload == w.tally.iters * cfg.payload + cfg.payload;
  }

  lemma BudgetStep(cfg: Config, p: Pipes, stop: bool, w: Worker, c: Choice)
    requires ControlOK(w) && (w.failed ==> stop) && ItersOK(w) && WithinBudget(cfg, w) && BudgetOK(cfg, w, stop)
    ensures BudgetOK(cfg, WorkerAfter(cfg, p, stop, w, c), stop || Fails(cfg, p, w, c))
  {
    hide DataAfter, SlotAt;
  }

  lemma TallyStep(cfg: Config, p: Pipes, stop: bool, w: Worker, c: Choice)
    requires ControlOK(w) && (w.failed ==> stop) && TallyOK(cfg, w, stop)
    requires w.pc.Refill? && cfg.rotating && c.ok ==> |c.bytes| == cfg.payload
    requires w.pc.Compare? ==> w.data.got == w.data.plain
    ensures TallyOK(cfg, WorkerAfter(cfg, p, stop, w, c), stop || Fails(cfg, p, w, c))
  {
    ItersStep(cfg, p, stop, w, c);
    WithinStep(cfg, p, stop, w, c);
    BudgetStep(cfg, p, stop, w, c);
    BytesStep(cfg, p, stop, w, c);
    DueStep(cfg, p, stop, w, c);
    RekeysStep(cfg, p, stop, w, c);
    CyclesStep(cfg, p, stop, w, c);
  }

  lemma TallyStopped(cfg: Config, w: Worker, stop: bool)
    requires TallyOK(cfg, w, stop)
    ensures TallyOK(cfg, w, true)
  {
  }

  lemma WorkerKeepsSums(cfg: Config, s: State, i: nat, c: Choice)
    requires i < |s.ws| && s.rekeys == Sum(s.ws, RekeyedBy) && s.cycles == Sum(s.ws, CycledBy)
    ensures var s' := WorkerStep(cfg, s, i, c);
      s'.rekeys == Sum(s'.ws, RekeyedBy) && s'.cycles == Sum(s'.ws, CycledBy)
  {
    var w' := WorkerAfter(cfg, s.pipes, s.board.stop, s.ws[i], c);
    SumUpdate(s.ws, i, w', RekeyedBy);
    SumUpdate(s.ws, i, w', CycledBy);
  }

  lemma WorkerKeepsCounts(cfg: Config, s: State, i: nat, c: Choice)
    requires Control(s.ws, s.board) && CountInv(cfg, s) && WorkerEnabled(cfg, s, i, c)
    requires s.ws[i].pc.Compare? ==> s.ws[i].data.got == s.ws[i].data.plain
    requires !Ending(s.board.main)
    ensures CountInv(cfg, WorkerStep(cfg, s, i, c))
  {
    TallyStep(cfg, s.pipes, s.board.stop, s.ws[i], c);
    WorkerKeepsSums(cfg, s, i, c);
    forall j | 0 <= j < |s.ws| ensures TallyOK(cfg, s.ws[j], true) {
      TallyStopped(cfg, s.ws[j], s.board.stop);
    }
    hide TallyOK, WorkerAfter, PipesAfter, LockAfter, HaltAfter, Sum;
  }

  /** Once main is past the summary no worker can act. */
  lemma NoWorkerAtEnd(cfg: Config, s: State, i: nat, c: Choice)
    requires Spawn(cfg, s.ws, s.board) && Activity(s.ws, s.board) && Ending(s.board.main)
    ensures !WorkerEnabled(cfg, s, i, c)
  {
    BitSums(s.ws);
  }

  lemma {:induction false} NoFailures(ws: seq<Worker>)
    ensures FailureCount(ws) == 0 <==> forall i :: 0 <= i < |ws| ==> !ws[i].failed
  {
    if ws == [] {
    } else {
      NoFailures(ws[1..]);
      assert forall i :: 1 <= i < |ws| ==> ws[i] == ws[1..][i - 1];
    }
  }

  lemma MainKeepsVerdict(cfg: Config, s: State, c: Choice)
    requires Spawn(cfg, s.ws, s.board) && VerdictOK(s.ws, s.board)
    ensures VerdictOK(s.ws, MainStep(cfg, s, c).board)
  {
    NoFailures(s.ws);
  }

  lemma MainKeepsStop(cfg: Config, s: State, c: Choice)
    requires Spawn(cfg, s.ws, s.board)
    ensures MainStep(cfg, s, c).board.stop == s.board.stop
  {
  }

  lemma KeepsCounts(cfg: Config, s: State, a: Action)
    requires PhaseInv(cfg, s) && CountInv(cfg, s) && Enabled(cfg, s, a)
    requires forall i :: 0 <= i < |s.ws| && s.ws[i].pc.Compare? ==> s.ws[i].data.got == s.ws[i].data.plain
    ensures CountInv(cfg, Apply(cfg, s, a))
  {
    match a
    case WorkerAct(i, c) =>
      if Ending(s.board.main) { NoWorkerAtEnd(cfg, s, i, c); }
      WorkerKeepsCounts(cfg, s, i, c);
    case MainAct(c) =>
      MainKeepsStop(cfg, s, c);
      MainKeepsVerdict(cfg, s, c);
    case Poll(_) =>
  }

  lemma {:induction false} FreshTallies(ws: seq<Worker>)
    requires forall i :: 0 <= i < |ws| ==> ws[i].tally == Tally(0, 0, 0, 0, 0)
    ensures Sum(ws, RekeyedBy) == 0 && Sum(ws, CycledBy) == 0
  {
    if ws == [] {
    } else {
      FreshTallies(ws[1..]);
    }
  }

  lemma InitCounts(cfg: Config, s: State)
    requires Init(cfg, s)
    ensures CountInv(cfg, s)
  {
    FreshTallies(s.ws);
  }
}
