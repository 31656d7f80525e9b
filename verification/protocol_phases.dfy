/**
  Control-flow invariants of the harness: spawning, the two barriers, the
  active count and the stamped clock readings, over every interleaving.
  */
module ProtocolPhases {
  import opened Base
  import opened Protocol

  /** How far a worker is through the barriers: 0 before it arrives at the
      warmup barrier, 1 waiting there, 2 past it, 3 waiting for the release,
      4 released. */
  function Phase(w: Worker): nat {
    match w.pc
    case NotStarted => 0
    case WarmupArrive(_) => 0
    case WarmupWait(_) => 1
    case ReleaseArrive(_) => 2
    case ReleaseWait(_) => 3
    case _ => if InIterate(w.pc) && w.iter == 0 then 0 else 4
  }

  function WarmBit(w: Worker): int { if 1 <= Phase(w) then 1 else 0 }
  function RelBit(w: Worker): int { if 3 <= Phase(w) then 1 else 0 }
  function LiveBit(w: Worker): int { if w.pc == Done then 0 else 1 }

  predicate PreSpawn(main: MainPC) {
    main.BuildStream? || main.BuildMsg? || main.FillPlain?
  }

  predicate Ending(main: MainPC) {
    main.Teardown? || main.Exited?
  }

  /** Main gave up before it started any worker. */
  predicate Aborted(b: Board) {
    Ending(b.main) && b.spawned == 0
  }

  function MainPhase(b: Board): nat {
    match b.main
    case WarmWait => 1
    case Baseline => 2
    case RelArrive => 2
    case RelWait => 3
    case Waiting => 4
    case Joining => 4
    case Summary => 4
    case Teardown(_) => if b.spawned == 0 then 0 else 4
    case Exited(_) => if b.spawned == 0 then 0 else 4
    case _ => 0
  }

  predicate Spawn(cfg: Config, ws: seq<Worker>, b: Board) {
    && |ws| == cfg.workers && 0 < cfg.workers
    && b.spawned <= cfg.workers
    && (forall i :: b.spawned <= i < |ws| ==> ws[i].pc.NotStarted?)
    && (PreSpawn(b.main) ==> b.spawned == 0 && !b.stop)
    && (1 <= MainPhase(b) ==> b.spawned == cfg.workers)
  }

  ghost predicate Barriers(cfg: Config, ws: seq<Worker>, b: Board) {
    && b.warm == Sum(ws, WarmBit) + (if 1 <= MainPhase(b) then 1 else 0)
    && b.rel == Sum(ws, RelBit) + (if 3 <= MainPhase(b) then 1 else 0)
    && (2 <= MainPhase(b) ==> b.warm == cfg.workers + 1)
    && (4 <= MainPhase(b) ==> b.rel == cfg.workers + 1)
    && (forall i :: 0 <= i < |ws| && 2 <= Phase(ws[i]) ==> b.warm == cfg.workers + 1)
    && (forall i :: 0 <= i < |ws| && 4 <= Phase(ws[i]) ==> b.rel == cfg.workers + 1)
  }

  predicate FailedPC(pc: PC) {
    match pc
    case ReadUnlock(ok) => !ok
    case WarmupArrive(ok) => !ok
    case WarmupWait(ok) => !ok
    case ReleaseArrive(ok) => !ok
    case ReleaseWait(ok) => !ok
    case RekeyUnlock(ok) => !ok
    case CycleUnlock(ok) => !ok
    case _ => false
  }

  predicate ControlOK(w: Worker) {
    && (Phase(w) < 4 ==> w.iter == 0)
    && (Phase(w) == 4 && w.iter == 0 ==> w.failed)
    && (FailedPC(w.pc) ==> w.failed)
    && (w.failed ==> FailedPC(w.pc) || w.pc.Finishing? || w.pc.Done?)
  }

  predicate Control(ws: seq<Worker>, b: Board) {
    forall i :: 0 <= i < |ws| ==> ControlOK(ws[i]) && (ws[i].failed ==> b.stop)
  }

  ghost predicate Activity(ws: seq<Worker>, b: Board) {
    && (if PreSpawn(b.main) || Aborted(b) then b.stamps == 0
        else b.active == Sum(ws, LiveBit) && b.stamps == if b.active == 0 then 1 else 0)
    && (b.main.Joining? || b.main.Summary? || (Ending(b.main) && !Aborted(b)) ==> b.active == 0)
    && (3 <= MainPhase(b) || b.main.RelArrive? ==> b.startNs <= b.finishNs <= b.clock)
  }

  ghost predicate PhaseInv(cfg: Config, s: State) {
    && Spawn(cfg, s.ws, s.board) && Barriers(cfg, s.ws, s.board)
    && Control(s.ws, s.board) && Activity(s.ws, s.board)
  }

  // ------------------------------------------------------------------ proof

  lemma BitSums(ws: seq<Worker>)
    ensures 0 <= Sum(ws, WarmBit) <= |ws|
    ensures 0 <= Sum(ws, RelBit) <= |ws|
    ensures 0 <= Sum(ws, LiveBit) <= |ws|
    ensures Sum(ws, WarmBit) == |ws| ==> forall i :: 0 <= i < |ws| ==> 1 <= Phase(ws[i])
    ensures Sum(ws, RelBit) == |ws| ==> forall i :: 0 <= i < |ws| ==> 3 <= Phase(ws[i])
    ensures Sum(ws, LiveBit) == 0 ==> forall i :: 0 <= i < |ws| ==> ws[i].pc == Done
    ensures Sum(ws, WarmBit) == 0 ==> forall i :: 0 <= i < |ws| ==> Phase(ws[i]) == 0
    ensures Sum(ws, RelBit) == 0 ==> forall i :: 0 <= i < |ws| ==> Phase(ws[i]) < 3
    ensures Sum(ws, LiveBit) == |ws| ==> forall i :: 0 <= i < |ws| ==> ws[i].pc != Done
  {
    SumBounds(ws, WarmBit, 0, 1);
    SumBounds(ws, RelBit, 0, 1);
    SumBounds(ws, LiveBit, 0, 1);
    forall i | 0 <= i < |ws| ensures ws[i] in ws {}
  }

  /** The barrier-counted bits of fresh workers. */
  lemma {:induction false} FreshSums(ws: seq<Worker>)
    requires forall i :: 0 <= i < |ws| ==> ws[i].pc.NotStarted?
    ensures Sum(ws, WarmBit) == 0 && Sum(ws, RelBit) == 0 && Sum(ws, LiveBit) == |ws|
  {
    if ws == [] {
    } else {
      FreshSums(ws[1..]);
    }
  }

  lemma InitPhase(cfg: Config, s: State)
    requires Init(cfg, s)
    ensures PhaseInv(cfg, s)
  {
    FreshSums(s.ws);
  }

  lemma ControlStep(cfg: Config, p: Pipes, stop: bool, w: Worker, c: Choice)
    requires ControlOK(w)
    ensures ControlOK(WorkerAfter(cfg, p, stop, w, c))
  {
  }

  /** Each arrival counted at a barrier is one worker's move to the next phase,
      and a worker leaves a barrier only when it is full. */
  lemma ArrivalStep(cfg: Config, s: State, i: nat, c: Choice)
    requires i < |s.ws| && ControlOK(s.ws[i])
    ensures
      var w := s.ws[i];
      var w' := WorkerAfter(cfg, s.pipes, s.board.stop, w, c);
      var b' := BoardAfter(s.board, w.pc, c.now);
      && Phase(w) <= Phase(w') <= Phase(w) + 1
      && b'.warm == s.board.warm + WarmBit(w') - WarmBit(w)
      && b'.rel == s.board.rel + RelBit(w') - RelBit(w)
  {
  }

  lemma PassStep(cfg: Config, s: State, i: nat, c: Choice)
    requires i < |s.ws| && ControlOK(s.ws[i]) && WorkerEnabled(cfg, s, i, c)
    ensures
      var w := s.ws[i];
      var w' := WorkerAfter(cfg, s.pipes, s.board.stop, w, c);
      && (Phase(w) < 2 <= Phase(w') ==> s.board.warm == cfg.workers + 1)
      && (Phase(w) < 4 <= Phase(w') ==> s.board.rel == cfg.workers + 1)
  {
  }

  lemma ReturnStep(cfg: Config, s: State, i: nat, c: Choice)
    requires i < |s.ws| && WorkerEnabled(cfg, s, i, c)
    ensures
      var w := s.ws[i];
      var w' := WorkerAfter(cfg, s.pipes, s.board.stop, w, c);
      && LiveBit(w) == 1
      && BoardAfter(s.board, w.pc, c.now).active == s.board.active + LiveBit(w') - LiveBit(w)
  {
  }

  /** Counting one worker's move keeps the barrier invariant. */
  lemma CountMove(cfg: Config, ws: seq<Worker>, b: Board, i: nat, w: Worker, b': Board)
    requires |ws| == cfg.workers && Barriers(cfg, ws, b) && i < |ws|
    requires b'.main == b.main && b'.spawned == b.spawned
    requires Phase(ws[i]) <= Phase(w) <= Phase(ws[i]) + 1
    requires b'.warm == b.warm + WarmBit(w) - WarmBit(ws[i])
    requires b'.rel == b.rel + RelBit(w) - RelBit(ws[i])
    requires Phase(ws[i]) < 2 <= Phase(w) ==> b.warm == cfg.workers + 1
    requires Phase(ws[i]) < 4 <= Phase(w) ==> b.rel == cfg.workers + 1
    ensures Barriers(cfg, ws[i := w], b')
  {
    SumUpdate(ws, i, w, WarmBit);
    SumUpdate(ws, i, w, RelBit);
    BitSums(ws);
    BitSums(ws[i := w]);
  }

  lemma WorkerKeepsBarriers(cfg: Config, s: State, i: nat, c: Choice)
    requires PhaseInv(cfg, s) && WorkerEnabled(cfg, s, i, c)
    ensures var s' := WorkerStep(cfg, s, i, c); Barriers(cfg, s'.ws, s'.board)
  {
    ArrivalStep(cfg, s, i, c);
    PassStep(cfg, s, i, c);
    CountMove(cfg, s.ws, s.board, i, WorkerAfter(cfg, s.pipes, s.board.stop, s.ws[i], c),
              WorkerStep(cfg, s, i, c).board);
  }

  lemma WorkerKeepsActivity(cfg: Config, s: State, i: nat, c: Choice)
    requires Spawn(cfg, s.ws, s.board) && Activity(s.ws, s.board) && WorkerEnabled(cfg, s, i, c)
    ensures var s' := WorkerStep(cfg, s, i, c); Activity(s'.ws, s'.board)
  {
    var w' := WorkerAfter(cfg, s.pipes, s.board.stop, s.ws[i], c);
    ReturnStep(cfg, s, i, c);
    SumUpdate(s.ws, i, w', LiveBit);
    BitSums(s.ws);
    BitSums(s.ws[i := w']);
  }

  lemma WorkerKeepsPhase(cfg: Config, s: State, i: nat, c: Choice)
    requires PhaseInv(cfg, s) && WorkerEnabled(cfg, s, i, c)
    ensures PhaseInv(cfg, WorkerStep(cfg, s, i, c))
  {
    WorkerKeepsBarriers(cfg, s, i, c);
    WorkerKeepsActivity(cfg, s, i, c);
    ControlStep(cfg, s.pipes, s.board.stop, s.ws[i], c);
  }

  lemma MainKeepsActivity(cfg: Config, s: State, c: Choice)
    requires PhaseInv(cfg, s) && MainEnabled(cfg, s, c)
    ensures Activity(s.ws, MainStep(cfg, s, c).board)
  {
    BitSums(s.ws);
    if s.board.spawned == 0 { FreshSums(s.ws); }
  }

  lemma MainKeepsBarriers(cfg: Config, s: State, c: Choice)
    requires PhaseInv(cfg, s) && MainEnabled(cfg, s, c)
    ensures Spawn(cfg, s.ws, MainStep(cfg, s, c).board) && Barriers(cfg, s.ws, MainStep(cfg, s, c).board)
  {
    BitSums(s.ws);
  }

  lemma KeepsPhase(cfg: Config, s: State, a: Action)
    requires PhaseInv(cfg, s) && Enabled(cfg, s, a)
    ensures PhaseInv(cfg, Apply(cfg, s, a))
  {
    match a
    case WorkerAct(i, c) => WorkerKeepsPhase(cfg, s, i, c);
    case MainAct(c) =>
      MainKeepsActivity(cfg, s, c);
      MainKeepsBarriers(cfg, s, c);
      if s.board.spawned == 0 { FreshSums(s.ws); }
    case Poll(_) =>
  }
}
