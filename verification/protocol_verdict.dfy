/**
  Why a run stops and what it reports: the stop flag and the exit status, read off
  the calls of the run that were refused and the polls that asked for a stop.
  */
module ProtocolVerdict {
  import opened Base
  import opened Protocol
  import opened ProtocolPhases
  import opened ProtocolKeying
  import opened ProtocolCounts
  import opened ProtocolProgress
  import opened ProtocolTheorems

  // ---------------------------------------------------------------- refusals

  /** A call or a draw of the worker that the library or the generator refused. */
  predicate RefusedWorker(cfg: Config, p: Pipes, w: Worker, c: Choice) {
    !c.ok &&
    match w.pc
    case Refill => cfg.rotating
    case MaintRekey => 0 < cfg.rekeyEvery && w.iter % cfg.rekeyEvery == 0
    case RekeyCall(slot) => slot in p.pipe
    case CycleLoad(slot) => slot in p.pipe
    case _ => w.pc.EncBegin? || w.pc.EncRun? || w.pc.DecBegin? || w.pc.DecRun?
  }

  /** A Pipeline main could not build, or a plaintext it could not fill. */
  predicate RefusedMain(cfg: Config, main: MainPC, c: Choice) {
    !c.ok &&
    match main
    case BuildStream => cfg.shape != Message
    case BuildMsg => cfg.shape == Message || cfg.shape == Both
    case _ => main.FillPlain?
  }

  predicate Refused(cfg: Config, s: State, a: Action) {
    match a
    case WorkerAct(i, c) => i < |s.ws| && RefusedWorker(cfg, s.pipes, s.ws[i], c)
    case MainAct(c) => RefusedMain(cfg, s.board.main, c)
    case Poll(_) => false
  }

  predicate AsksToStop(cfg: Config, s: State, a: Action) {
    a == Poll(true) || (a.WorkerAct? && Refused(cfg, s, a))
  }

  predicate SomeRefused(cfg: Config, s: State, acts: seq<Action>)
    requires CanRun(cfg, s, acts)
    decreases |acts|
  {
    acts != [] && (Refused(cfg, s, acts[0]) || SomeRefused(cfg, Apply(cfg, s, acts[0]), acts[1..]))
  }

  predicate SomeAsks(cfg: Config, s: State, acts: seq<Action>)
    requires CanRun(cfg, s, acts)
    decreases |acts|
  {
    acts != [] && (AsksToStop(cfg, s, acts[0]) || SomeAsks(cfg, Apply(cfg, s, acts[0]), acts[1..]))
  }

  // ------------------------------------------------------------------- steps

  predicate Clean(s: State) {
    !Aborted(s.board) && NoneFailed(s.ws)
  }

  predicate NoneFailed(ws: seq<Worker>) {
    forall i :: 0 <= i < |ws| ==> !ws[i].failed
  }

  lemma OneMore(ws: seq<Worker>, i: nat, w: Worker)
    requires i < |ws| && (ws[i].failed ==> w.failed)
    ensures NoneFailed(ws[i := w]) <==> NoneFailed(ws) && !w.failed
  {
    var ws' := ws[i := w];
    assert forall j :: 0 <= j < |ws| && j != i ==> ws'[j] == ws[j];
    assert ws'[i] == w;
  }

  lemma WorkerRefusal(cfg: Config, p: Pipes, stop: bool, w: Worker, c: Choice)
    ensures WorkerAfter(cfg, p, stop, w, c).failed <==> w.failed || RefusedWorker(cfg, p, w, c)
    ensures Fails(cfg, p, w, c) <==> RefusedWorker(cfg, p, w, c)
  {
  }

  lemma WorkerVerdict(cfg: Config, s: State, i: nat, c: Choice)
    requires PhaseInv(cfg, s) && Enabled(cfg, s, WorkerAct(i, c))
    ensures
      var (s', refused) := (WorkerStep(cfg, s, i, c), RefusedWorker(cfg, s.pipes, s.ws[i], c));
      && (Clean(s') <==> Clean(s) && !refused) && (s'.board.stop <==> s.board.stop || refused)
  {
    WorkerRefusal(cfg, s.pipes, s.board.stop, s.ws[i], c);
    hide Fails, RefusedWorker, WorkerAfter, PipesAfter, LockAfter, HaltAfter, NoneFailed;
    OneMore(s.ws, i, WorkerAfter(cfg, s.pipes, s.board.stop, s.ws[i], c));
  }

  lemma MainVerdict(cfg: Config, s: State, c: Choice)
    requires PhaseInv(cfg, s) && Enabled(cfg, s, MainAct(c))
    ensures
      var (s', refused) := (MainStep(cfg, s, c), RefusedMain(cfg, s.board.main, c));
      && (Clean(s') <==> Clean(s) && !refused) && s'.board.stop == s.board.stop
  {
  }

  lemma StepVerdict(cfg: Config, s: State, a: Action)
    requires PhaseInv(cfg, s) && Enabled(cfg, s, a)
    ensures var s' := Apply(cfg, s, a);
      && (Clean(s') <==> Clean(s) && !Refused(cfg, s, a))
      && (s'.board.stop <==> s.board.stop || AsksToStop(cfg, s, a))
  {
    match a
    case WorkerAct(i, c) =>
      WorkerVerdict(cfg, s, i, c);
      hide RefusedWorker, WorkerStep;
    case MainAct(c) =>
      MainVerdict(cfg, s, c);
      hide RefusedMain, MainStep;
    case Poll(_) =>
  }

  lemma {:induction false} RunVerdict(cfg: Config, s: State, acts: seq<Action>)
    requires Good(cfg, s) && CanRun(cfg, s, acts)
    ensures var s' := After(cfg, s, acts);
      && (Clean(s') <==> Clean(s) && !SomeRefused(cfg, s, acts))
      && (s'.board.stop <==> s.board.stop || SomeAsks(cfg, s, acts))
    decreases |acts|
  {
    hide Apply, Enabled, Refused, AsksToStop;
    if acts == [] {
    } else {
      KeepsGood(cfg, s, acts[0]);
      StepVerdict(cfg, s, acts[0]);
      RunVerdict(cfg, Apply(cfg, s, acts[0]), acts[1..]);
    }
  }

  // ---------------------------------------------------------------- theorems

  lemma FromStart(cfg: Config, s: State, acts: seq<Action>)
    requires Init(cfg, s) && CanRun(cfg, s, acts)
    ensures var s' := After(cfg, s, acts);
      && (Clean(s') <==> !SomeRefused(cfg, s, acts)) && (s'.board.stop <==> SomeAsks(cfg, s, acts))
      && VerdictOK(s'.ws, s'.board)
  {
    InitGood(cfg, s);
    RunKeepsGood(cfg, s, acts);
    assert Clean(s);
    hide CanRun, After, SomeRefused, SomeAsks;
    RunVerdict(cfg, s, acts);
  }

  /** The exit status of a run is 0 exactly when nothing main or a worker asked of the
      library or the generators was refused, from the first build to the last call. */
  lemma ExitsZeroUnlessRefused(cfg: Config, s: State, acts: seq<Action>)
    requires Init(cfg, s) && CanRun(cfg, s, acts) && After(cfg, s, acts).board.main.Exited?
    ensures After(cfg, s, acts).board.main.code == if SomeRefused(cfg, s, acts) then 1 else 0
  {
    FromStart(cfg, s, acts);
    hide CanRun, After, SomeRefused, SomeAsks;
  }

  /** The stop flag is set exactly when a worker was refused something or a poll saw
      the deadline or a signal, at some time in the run; nothing else stops a run. */
  lemma StopHasReason(cfg: Config, s: State, acts: seq<Action>)
    requires Init(cfg, s) && CanRun(cfg, s, acts)
    ensures After(cfg, s, acts).board.stop <==> SomeAsks(cfg, s, acts)
  {
    FromStart(cfg, s, acts);
  }

  /** From the spawn to the destructors the engaged Pipelines are those of the shape:
      the streaming one unless it is message, the message one for message and both. */
  lemma EngagedForShape(cfg: Config, s: State)
    requires Reachable(cfg, s) && !s.board.main.BuildStream? && !s.board.main.BuildMsg? && !s.board.main.Exited?
    requires !Aborted(s.board)
    ensures StreamSlot in s.pipes.pipe <==> cfg.shape == Stream || cfg.shape == StreamOneShot || cfg.shape == Both
    ensures MsgSlot in s.pipes.pipe <==> cfg.shape == Message || cfg.shape == Both
  {
    ReachableGood(cfg, s);
  }
}
