/**
  Liveness of the harness: no reachable state is stuck before the process
  ends, and with a fixed budget, or once a stop is requested, every action
  other than main's polling uses up a finite amount of remaining work.
  */
module ProtocolProgress {
  import opened Base
  import opened Protocol
  import opened ProtocolPhases
  import opened ProtocolKeying
  import opened ProtocolCounts

  ghost predicate Good(cfg: Config, s: State) {
    Safe(cfg, s) && CountInv(cfg, s)
  }

  lemma InitGood(cfg: Config, s: State)
    requires Init(cfg, s)
    ensures Good(cfg, s)
  {
    InitSafe(cfg, s);
    InitCounts(cfg, s);
  }

  lemma KeepsGood(cfg: Config, s: State, a: Action)
    requires Good(cfg, s) && Enabled(cfg, s, a)
    ensures Good(cfg, Apply(cfg, s, a))
  {
    KeepsSafe(cfg, s, a);
    KeepsCounts(cfg, s, a);
  }

  // --------------------------------------------------------------- deadlock

  /** An answer of the outside world that every waiting action accepts. */
  function Answer(cfg: Config, s: State): Choice {
    Choice(true, 0, seq(cfg.payload, _ => 0), Junk([]), s.board.clock)
  }

  /** Blocked for a reason other than the lock. */
  predicate AwaitsOthers(cfg: Config, s: State, i: nat)
    requires i < |s.ws|
  {
    match s.ws[i].pc
    case NotStarted => s.board.spawned <= i
    case WarmupWait(_) => s.board.warm != cfg.workers + 1
    case ReleaseWait(_) => s.board.rel != cfg.workers + 1
    case Done => true
    case _ => false
  }

  predicate SomeWorker(cfg: Config, s: State) {
    exists i :: 0 <= i < |s.ws| && WorkerEnabled(cfg, s, i, Answer(cfg, s))
  }

  /** The lock itself never blocks everyone: whoever holds it can go on. */
  lemma LockHolderMoves(cfg: Config, s: State, i: nat)
    requires LockInv(s.ws, s.lock) && i < |s.ws|
    requires s.ws[i].pc.ReadLock? || s.ws[i].pc.RekeyLock? || s.ws[i].pc.CycleLock?
    ensures SomeWorker(cfg, s)
  {
    if s.lock.writer.Some? {
      assert WorkerEnabled(cfg, s, s.lock.writer.value, Answer(cfg, s));
    } else if s.lock.readers != {} {
      var j :| j in s.lock.readers;
      assert WorkerEnabled(cfg, s, j, Answer(cfg, s));
    } else {
      assert WorkerEnabled(cfg, s, i, Answer(cfg, s));
    }
  }

  lemma WorkerMovesOrWaits(cfg: Config, s: State, i: nat)
    requires LockInv(s.ws, s.lock) && i < |s.ws|
    ensures SomeWorker(cfg, s) || AwaitsOthers(cfg, s, i)
  {
    var pc := s.ws[i].pc;
    if pc.ReadLock? || pc.RekeyLock? || pc.CycleLock? {
      LockHolderMoves(cfg, s, i);
    } else if !AwaitsOthers(cfg, s, i) {
      assert WorkerEnabled(cfg, s, i, Answer(cfg, s));
    }
  }

  lemma WarmupFills(cfg: Config, s: State)
    requires Spawn(cfg, s.ws, s.board) && Barriers(cfg, s.ws, s.board) && s.board.main.WarmWait?
    requires forall i :: 0 <= i < |s.ws| ==> AwaitsOthers(cfg, s, i)
    ensures s.board.warm == cfg.workers + 1
  {
    forall w | w in s.ws ensures 1 <= WarmBit(w) <= 1 {
      var i :| 0 <= i < |s.ws| && w == s.ws[i];
      assert AwaitsOthers(cfg, s, i);
    }
    SumBounds(s.ws, WarmBit, 1, 1);
  }

  lemma ReleaseFills(cfg: Config, s: State)
    requires Spawn(cfg, s.ws, s.board) && Barriers(cfg, s.ws, s.board) && s.board.main.RelWait?
    requires forall i :: 0 <= i < |s.ws| ==> AwaitsOthers(cfg, s, i)
    ensures s.board.rel == cfg.workers + 1
  {
    forall w | w in s.ws ensures 1 <= RelBit(w) <= 1 {
      var i :| 0 <= i < |s.ws| && w == s.ws[i];
      assert AwaitsOthers(cfg, s, i);
    }
    SumBounds(s.ws, RelBit, 1, 1);
  }

  lemma AllReturned(cfg: Config, s: State)
    requires Spawn(cfg, s.ws, s.board) && Barriers(cfg, s.ws, s.board) && s.board.main.Waiting?
    requires Activity(s.ws, s.board)
    requires forall i :: 0 <= i < |s.ws| ==> AwaitsOthers(cfg, s, i)
    ensures s.board.active == 0
  {
    forall w | w in s.ws ensures 0 <= LiveBit(w) <= 0 {
      var i :| 0 <= i < |s.ws| && w == s.ws[i];
      assert AwaitsOthers(cfg, s, i);
    }
    SumBounds(s.ws, LiveBit, 0, 0);
  }

  /** When every worker waits for others, main can move. */
  lemma MainMoves(cfg: Config, s: State)
    requires PhaseInv(cfg, s) && !s.board.main.Exited?
    requires forall i :: 0 <= i < |s.ws| ==> AwaitsOthers(cfg, s, i)
    ensures MainEnabled(cfg, s, Answer(cfg, s))
  {
    match s.board.main
    case WarmWait => WarmupFills(cfg, s);
    case RelWait => ReleaseFills(cfg, s);
    case Waiting => AllReturned(cfg, s);
    case Joining => BitSums(s.ws);
    case _ =>
  }

  lemma NeverStuck(cfg: Config, s: State)
    requires Safe(cfg, s) && !s.board.main.Exited?
    ensures exists a: Action :: !a.Poll? && Enabled(cfg, s, a)
  {
    if SomeWorker(cfg, s) {
      var i :| 0 <= i < |s.ws| && WorkerEnabled(cfg, s, i, Answer(cfg, s));
      assert Enabled(cfg, s, WorkerAct(i, Answer(cfg, s)));
    } else {
      forall i | 0 <= i < |s.ws| ensures AwaitsOthers(cfg, s, i) {
        WorkerMovesOrWaits(cfg, s, i);
      }
      MainMoves(cfg, s);
      assert Enabled(cfg, s, MainAct(Answer(cfg, s)));
    }
  }

  // ---------------------------------------------------------------- measure

  /** How far a worker is from the end of its current iteration. */
  function Rank(pc: PC): nat {
    match pc
    case NotStarted => 40
    case Refill => 39
    case ReadLock => 38
    case EncBegin => 37
    case EncRun => 36
    case DecBegin => 35
    case DecRun => 34
    case Compare => 33
    case ReadUnlock(_) => 32
    case WarmupArrive(_) => 31
    case WarmupWait(_) => 30
    case ReleaseArrive(_) => 29
    case ReleaseWait(_) => 28
    case MaintRekey => 27
    case RekeyLock => 26
    case RekeyCall(slot) => if slot == StreamSlot then 25 else 23
    case RekeyStore(slot, _) => if slot == StreamSlot then 24 else 22
    case RekeyCount => 21
    case RekeyUnlock(_) => 20
    case MaintCycle => 19
    case CycleLock => 18
    case CycleLoad(slot) => if slot == StreamSlot then 17 else 15
    case CycleSwap(slot, _) => if slot == StreamSlot then 16 else 14
    case CycleCount => 13
    case CycleUnlock(_) => 12
    case LoopTop => 11
    case CheckStop => 10
    case Finishing => 1
    case Done => 0
  }

  /** How often a worker can still pass the stop check into an iteration. */
  function Laps(cfg: Config, stop: bool, w: Worker): nat {
    var next := if w.pc.LoopTop? || w.pc.CheckStop? then w.iter else w.iter + 1;
    if stop || Stopped(w.pc) || cfg.iterations <= next then 0 else cfg.iterations - next
  }

  function Remaining(cfg: Config, stop: bool, w: Worker): nat {
    41 * Laps(cfg, stop, w) + Rank(w.pc)
  }

  ghost function RemainingFn(cfg: Config, stop: bool): Worker -> int {
    w => Remaining(cfg, stop, w)
  }

  function MainRemaining(cfg: Config, b: Board): nat {
    var n := cfg.workers;
    match b.main
    case BuildStream => 12 + 2 * n
    case BuildMsg => 11 + 2 * n
    case FillPlain => 10 + 2 * n
    case Spawning => 9 + n + if b.spawned < n then n - b.spawned else 0
    case WarmWait => 8 + n
    case Baseline => 7 + n
    case RelArrive => 6 + n
    case RelWait => 5 + n
    case Waiting => 4 + n
    case Joining => 3 + if b.joined < n then n - b.joined else 0
    case Summary => 2
    case Teardown(_) => 1
    case Exited(_) => 0
  }

  /** The work left: a bound on the actions, other than polls, still to come. */
  ghost function Work(cfg: Config, s: State): int {
    Sum(s.ws, RemainingFn(cfg, s.board.stop)) + MainRemaining(cfg, s.board)
  }

  ghost predicate Bounded(cfg: Config, s: State) {
    0 < cfg.iterations || s.board.stop
  }

  lemma WorkNonNegative(cfg: Config, s: State)
    ensures 0 <= Work(cfg, s)
  {
    SumMonotone(s.ws, (w: Worker) => 0, RemainingFn(cfg, s.board.stop));
    SumZero(s.ws);
  }

  lemma {:induction false} SumZero(ws: seq<Worker>)
    ensures Sum(ws, (w: Worker) => 0) == 0
  {
    if ws == [] {
    } else {
      SumZero(ws[1..]);
    }
  }

  lemma RankStep(cfg: Config, p: Pipes, stop: bool, w: Worker, c: Choice)
    requires w.pc != Done
    ensures var pc' := WorkerAfter(cfg, p, stop, w, c).pc;
      Rank(pc') < Rank(w.pc) || (w.pc.CheckStop? && !stop && pc' == Refill)
  {
    if InMaintenance(w.pc) {
      MaintenanceRank(cfg, p, stop, w, c);
    } else {
      RoundTripRank(cfg, p, stop, w, c);
    }
  }

  lemma MaintenanceRank(cfg: Config, p: Pipes, stop: bool, w: Worker, c: Choice)
    requires InMaintenance(w.pc)
    ensures Rank(WorkerAfter(cfg, p, stop, w, c).pc) < Rank(w.pc)
  {
    hide DataAfter, TallyAfter, IterAfter, Due;
  }

  lemma RoundTripRank(cfg: Config, p: Pipes, stop: bool, w: Worker, c: Choice)
    requires w.pc != Done && !InMaintenance(w.pc)
    ensures var pc' := WorkerAfter(cfg, p, stop, w, c).pc;
      Rank(pc') < Rank(w.pc) || (w.pc.CheckStop? && !stop && pc' == Refill)
  {
    hide DataAfter, TallyAfter, IterAfter, Due;
  }

  lemma LapStep(cfg: Config, p: Pipes, stop: bool, w: Worker, c: Choice)
    requires 0 < cfg.iterations || stop
    requires ControlOK(w) && WithinBudget(cfg, w)
    ensures var w' := WorkerAfter(cfg, p, stop, w, c);
      && Laps(cfg, stop, w') <= Laps(cfg, stop, w)
      && (w.pc.CheckStop? && !stop ==> Laps(cfg, stop, w') < Laps(cfg, stop, w))
  {
  }

  /** A stop request takes work away and adds none. */
  lemma StopHelps(cfg: Config, ws: seq<Worker>, stop: bool)
    ensures Sum(ws, RemainingFn(cfg, true)) <= Sum(ws, RemainingFn(cfg, stop))
  {
    SumMonotone(ws, RemainingFn(cfg, true), RemainingFn(cfg, stop));
  }

  lemma RemainingStep(cfg: Config, p: Pipes, stop: bool, w: Worker, c: Choice)
    requires 0 < cfg.iterations || stop
    requires ControlOK(w) && WithinBudget(cfg, w) && w.pc != Done
    ensures Remaining(cfg, stop, WorkerAfter(cfg, p, stop, w, c)) < Remaining(cfg, stop, w)
  {
    RankStep(cfg, p, stop, w, c);
    LapStep(cfg, p, stop, w, c);
  }

  lemma SameMainWork(cfg: Config, s: State, i: nat, c: Choice)
    requires i < |s.ws|
    ensures var b' := WorkerStep(cfg, s, i, c).board;
      && MainRemaining(cfg, b') == MainRemaining(cfg, s.board)
      && (b'.stop == s.board.stop || b'.stop)
  {
  }

  lemma WorkerWorks(cfg: Config, s: State, i: nat, c: Choice)
    requires WorkerEnabled(cfg, s, i, c) && ControlOK(s.ws[i]) && WithinBudget(cfg, s.ws[i])
    requires Bounded(cfg, s)
    ensures Work(cfg, WorkerStep(cfg, s, i, c)) < Work(cfg, s)
  {
    var (w, p, stop) := (s.ws[i], s.pipes, s.board.stop);
    var w' := WorkerAfter(cfg, p, stop, w, c);
    RemainingStep(cfg, p, stop, w, c);
    SameMainWork(cfg, s, i, c);
    SumUpdate(s.ws, i, w', RemainingFn(cfg, stop));
    StopHelps(cfg, s.ws[i := w'], stop);
  }

  lemma MainWorks(cfg: Config, s: State, c: Choice)
    requires Spawn(cfg, s.ws, s.board) && MainEnabled(cfg, s, c)
    ensures Work(cfg, MainStep(cfg, s, c)) < Work(cfg, s)
  {
  }

  lemma EveryActionWorks(cfg: Config, s: State, a: Action)
    requires Good(cfg, s) && Bounded(cfg, s) && Enabled(cfg, s, a)
    ensures Bounded(cfg, Apply(cfg, s, a))
    ensures if a.Poll? then Work(cfg, Apply(cfg, s, a)) <= Work(cfg, s) else Work(cfg, Apply(cfg, s, a)) < Work(cfg, s)
  {
    match a
    case WorkerAct(i, c) =>
      assert TallyOK(cfg, s.ws[i], s.board.stop);
      WorkerWorks(cfg, s, i, c);
    case MainAct(c) => MainWorks(cfg, s, c);
    case Poll(stop) => if stop { StopHelps(cfg, s.ws, s.board.stop); }
  }

  /** The actions of a run other than polls. */
  function Actions(acts: seq<Action>): nat {
    if acts == [] then 0 else (if acts[0].Poll? then 0 else 1) + Actions(acts[1..])
  }

  /** No run does more than the work there is. */
  lemma {:induction false} RunsAreBounded(cfg: Config, s: State, acts: seq<Action>)
    requires Good(cfg, s) && Bounded(cfg, s) && CanRun(cfg, s, acts)
    ensures Actions(acts) + Work(cfg, After(cfg, s, acts)) <= Work(cfg, s)
    ensures Actions(acts) <= Work(cfg, s)
    decreases |acts|
  {
    if acts == [] {
      WorkNonNegative(cfg, s);
    } else {
      var s' := Apply(cfg, s, acts[0]);
      KeepsGood(cfg, s, acts[0]);
      EveryActionWorks(cfg, s, acts[0]);
      RunsAreBounded(cfg, s', acts[1..]);
      WorkNonNegative(cfg, After(cfg, s, acts));
    }
  }

  /** From every good state with bounded work, some run without any poll ends
      the process normally. */
  lemma {:induction false} RunToExit(cfg: Config, s: State) returns (acts: seq<Action>)
    requires Good(cfg, s) && Bounded(cfg, s)
    ensures CanRun(cfg, s, acts) && After(cfg, s, acts).board.main.Exited?
    ensures Actions(acts) == |acts| <= Work(cfg, s)
    decreases Work(cfg, s)
  {
    WorkNonNegative(cfg, s);
    if s.board.main.Exited? {
      acts := [];
    } else {
      NeverStuck(cfg, s);
      var a: Action :| !a.Poll? && Enabled(cfg, s, a);
      KeepsGood(cfg, s, a);
      EveryActionWorks(cfg, s, a);
      var rest := RunToExit(cfg, Apply(cfg, s, a));
      acts := [a] + rest;
      assert acts[1..] == rest;
    }
  }
}
