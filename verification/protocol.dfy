/**
  The loop stress harness as a transition system: one main thread and any
  number of workers over shared Pipelines, a reader/writer lock, two one-shot
  barriers, a stop flag and a count of active workers.  Every atomic access
  to shared state is one action; an action carries the outcome of the library
  call, random draw or clock read it makes, so a run is a list of actions.
  */
module Protocol {
  import opened Base

  type Bytes = seq<Byte>
  type Key = nat
  type Handle = nat

  // ---------------------------------------------------------------- shapes

  datatype Shape = Stream | Message | StreamOneShot | Both
  datatype Slot = StreamSlot | MsgSlot

  datatype Config = Config(
    workers: nat, iterations: nat, shape: Shape, payload: nat, rotating: bool,
    parallax: bool, wrapper: bool, rekeyEvery: nat, blobCycleEvery: nat)

  /** What flag validation guarantees before a run starts. */
  predicate ValidConfig(cfg: Config) {
    0 < cfg.workers && 0 < cfg.payload
  }

  /** The surface an iteration exercises: `Both` rotates by iteration number. */
  function Surface(shape: Shape, iter: nat): Shape {
    if shape != Both then shape
    else if iter % 3 == 0 then Stream
    else if iter % 3 == 1 then Message
    else StreamOneShot
  }

  /** stream and stream_one_shot share the streaming Pipeline. */
  function SlotOf(surface: Shape): Slot {
    if surface == Message then MsgSlot else StreamSlot
  }

  predicate Uses(shape: Shape, slot: Slot) {
    match slot
    case StreamSlot => shape != Message
    case MsgSlot => shape == Message || shape == Both
  }

  // -------------------------------------------- Pipelines and retained blobs

  /** The state `pipe_lock` guards, with the library's view of it: `live` maps
      every allocated handle to its current keying. A blob is the keying it
      restores. */
  datatype Pipes = Pipes(
    pipe: map<Slot, Handle>, blob: map<Slot, Key>, live: map<Handle, Key>, next: Handle)

  /** Init, and the Save that hands out its blob. */
  function Built(p: Pipes, slot: Slot, key: Key): Pipes {
    Pipes(p.pipe[slot := p.next], p.blob[slot := key], p.live[p.next := key], p.next + 1)
  }

  /** A successful Rekey of the live handle; the blob is not retained yet. */
  function Rekeyed(p: Pipes, slot: Slot, key: Key): Pipes
    requires slot in p.pipe
  {
    p.(live := p.live[p.pipe[slot] := key])
  }

  function Retained(p: Pipes, slot: Slot, blob: Key): Pipes {
    p.(blob := p.blob[slot := blob])
  }

  /** A successful Load of the retained blob: a fresh handle, `p.next`. */
  function Loaded(p: Pipes, slot: Slot): Pipes
    requires slot in p.blob
  {
    p.(live := p.live[p.next := p.blob[slot]], next := p.next + 1)
  }

  /** Move-assignment of a fresh Pipeline: frees the old handle, takes the new. */
  function Swapped(p: Pipes, slot: Slot, loaded: Handle): Pipes
    requires slot in p.pipe
  {
    p.(live := p.live - {p.pipe[slot]}, pipe := p.pipe[slot := loaded])
  }

  /** The destructors of both Pipelines. */
  function Destroyed(p: Pipes): Pipes {
    p.(live := p.live - p.pipe.Values, pipe := map[])
  }

  // ---------------------------------------------------------------- workers

  /** Library output of an encrypt: sealed under one surface and keying, or
      bytes the library promises nothing about. */
  datatype Wire = Sealed(surface: Shape, key: Key, plain: Bytes) | Junk(bytes: Bytes)

  /** An open stream session or a cipher call in flight, with the keying its
      handle had when it began. */
  datatype Use = Idle | Open(handle: Handle, key: Key)

  datatype PC =
    | NotStarted
      // iterate
    | Refill | ReadLock | EncBegin | EncRun | DecBegin | DecRun | Compare | ReadUnlock(ok: bool)
      // the two barriers
    | WarmupArrive(ok: bool) | WarmupWait(ok: bool) | ReleaseArrive(ok: bool) | ReleaseWait(ok: bool)
      // the main loop
    | LoopTop | CheckStop
      // rekey_pipes
    | MaintRekey | RekeyLock | RekeyCall(slot: Slot) | RekeyStore(slot: Slot, blob: Key)
    | RekeyCount | RekeyUnlock(ok: bool)
      // blob_cycle_pipes
    | MaintCycle | CycleLock | CycleLoad(slot: Slot) | CycleSwap(slot: Slot, loaded: Handle)
    | CycleCount | CycleUnlock(ok: bool)
      // worker_done
    | Finishing | Done

  predicate InIterate(pc: PC) {
    pc.Refill? || pc.ReadLock? || HoldsRead(pc)
  }

  predicate HoldsRead(pc: PC) {
    pc.EncBegin? || pc.EncRun? || pc.DecBegin? || pc.DecRun? || pc.Compare? || pc.ReadUnlock?
  }

  predicate InRekey(pc: PC) {
    pc.RekeyLock? || pc.RekeyCall? || pc.RekeyStore? || pc.RekeyCount? || pc.RekeyUnlock?
  }

  predicate InCycle(pc: PC) {
    pc.CycleLock? || pc.CycleLoad? || pc.CycleSwap? || pc.CycleCount? || pc.CycleUnlock?
  }

  predicate HoldsWrite(pc: PC) {
    (InRekey(pc) && !pc.RekeyLock?) || (InCycle(pc) && !pc.CycleLock?)
  }

  /** Between the end of an iteration and the next one. */
  predicate InMaintenance(pc: PC) {
    pc.MaintRekey? || InRekey(pc) || pc.MaintCycle? || InCycle(pc)
  }

  /** The buffers and the open use of one worker. */
  datatype Data = Data(plain: Bytes, wire: Wire, got: Bytes, use: Use)

  /** The counters the summary reads. `rekeyed` and `cycled` are the worker's own
      share of the run's rekey and blob-cycle counters, kept as history. */
  datatype Tally = Tally(iters: nat, bytesEnc: nat, bytesDec: nat, rekeyed: nat, cycled: nat)

  datatype Worker = Worker(pc: PC, iter: nat, failed: bool, data: Data, tally: Tally)

  datatype MainPC =
    | BuildStream | BuildMsg | FillPlain | Spawning | WarmWait | Baseline | RelArrive | RelWait
    | Waiting | Joining | Summary | Teardown(code: nat) | Exited(code: nat)

  datatype Lock = Lock(readers: set<nat>, writer: Option<nat>)

  /** The run's flags, barriers and clock stamps. `stamps` counts how often a
      worker stamped the finish instant, kept as history. */
  datatype Board = Board(
    main: MainPC, spawned: nat, joined: nat, warm: nat, rel: nat, stop: bool, active: int,
    clock: int, startNs: int, finishNs: int, stamps: nat)

  /** `DataMismatch` is the immediate process exit of the comparison;
      `BadDeref` is a dereference of an empty Pipeline. */
  datatype Halt = Running | DataMismatch | BadDeref

  datatype State = State(
    pipes: Pipes, lock: Lock, ws: seq<Worker>, board: Board, rekeys: nat, cycles: nat, halt: Halt)

  // ---------------------------------------------------------------- actions

  /** What the outside world answers an action: success, a new keying, bytes,
      a wire and a clock reading. */
  datatype Choice = Choice(ok: bool, key: Key, bytes: Bytes, wire: Wire, now: int)

  datatype Action =
    | WorkerAct(i: nat, c: Choice)
    | MainAct(c: Choice)
    | Poll(stop: bool)

  /** The Pipeline slot the worker's current iteration uses. */
  function SlotAt(cfg: Config, w: Worker): Slot {
    SlotOf(Surface(cfg.shape, w.iter))
  }

  predicate Due(every: nat, iter: nat) {
    0 < every && iter % every == 0
  }

  /** The handle of an open use is still allocated under the keying it began with. */
  predicate KeyingHeld(p: Pipes, use: Use) {
    use.Open? && use.handle in p.live && p.live[use.handle] == use.key
  }

  /** The actions that end in worker_fail. */
  predicate Fails(cfg: Config, p: Pipes, w: Worker, c: Choice) {
    match w.pc
    case Refill => cfg.rotating && !c.ok
    case EncBegin => !c.ok
    case EncRun => !c.ok
    case DecBegin => !c.ok
    case DecRun => !c.ok
    case MaintRekey => Due(cfg.rekeyEvery, w.iter) && !c.ok
    case RekeyCall(slot) => slot in p.pipe && !c.ok
    case CycleLoad(slot) => slot in p.pipe && !c.ok
    case _ => false
  }

  /** Where a worker goes when iterate returns `ok`. */
  function AfterIterate(iter: nat, ok: bool): PC {
    if iter == 0 then WarmupArrive(ok) else if ok then MaintRekey else Finishing
  }

  function FailTo(pc: PC, iter: nat): PC {
    match pc
    case Refill => AfterIterate(iter, false)
    case RekeyCall(_) => RekeyUnlock(false)
    case CycleLoad(_) => CycleUnlock(false)
    case MaintRekey => Finishing
    case _ => ReadUnlock(false)
  }

  function AfterRekey(slot: Slot): PC {
    match slot case StreamSlot => RekeyCall(MsgSlot) case MsgSlot => RekeyCount
  }

  function AfterCycle(slot: Slot): PC {
    match slot case StreamSlot => CycleLoad(MsgSlot) case MsgSlot => CycleCount
  }

  /** The control flow of worker_main, iterate and worker_maintenance, for an
      action that does not fail. */
  function Next(cfg: Config, p: Pipes, stop: bool, w: Worker, c: Choice): PC {
    match w.pc
    case NotStarted => Refill
    case Refill => ReadLock
    case ReadLock => EncBegin
    case EncBegin => EncRun
    case EncRun => DecBegin
    case DecBegin => DecRun
    case DecRun => Compare
    case Compare => ReadUnlock(true)
    case ReadUnlock(ok) => AfterIterate(w.iter, ok)
    case WarmupArrive(ok) => WarmupWait(ok)
    case WarmupWait(ok) => ReleaseArrive(ok)
    case ReleaseArrive(ok) => ReleaseWait(ok)
    case ReleaseWait(ok) => if ok then LoopTop else Finishing
    case LoopTop => if 0 < cfg.iterations <= w.iter then Finishing else CheckStop
    case CheckStop => if stop then Finishing else Refill
    case MaintRekey => if Due(cfg.rekeyEvery, w.iter) then RekeyLock else MaintCycle
    case RekeyLock => RekeyCall(StreamSlot)
    case RekeyCall(slot) => if slot in p.pipe then RekeyStore(slot, c.key) else AfterRekey(slot)
    case RekeyStore(slot, _) => AfterRekey(slot)
    case RekeyCount => RekeyUnlock(true)
    case RekeyUnlock(ok) => if ok then MaintCycle else Finishing
    case MaintCycle => if Due(cfg.blobCycleEvery, w.iter) then CycleLock else LoopTop
    case CycleLock => CycleLoad(StreamSlot)
    case CycleLoad(slot) => if slot in p.pipe then CycleSwap(slot, p.next) else AfterCycle(slot)
    case CycleSwap(slot, _) => AfterCycle(slot)
    case CycleCount => CycleUnlock(true)
    case CycleUnlock(ok) => if ok then LoopTop else Finishing
    case Finishing => Done
    case Done => Done
  }

  function IterAfter(cfg: Config, w: Worker): nat {
    match w.pc
    case ReleaseWait(ok) => if ok then 1 else w.iter
    case MaintCycle => if Due(cfg.blobCycleEvery, w.iter) then w.iter else w.iter + 1
    case CycleUnlock(ok) => if ok then w.iter + 1 else w.iter
    case _ => w.iter
  }

  /** What an action does to a worker's buffers and open use.  Sealing is only
      promised when the keying held from begin to completion, and decrypt inverts
      encrypt only on one surface under one keying; otherwise any output is
      possible. */
  function DataAfter(cfg: Config, p: Pipes, w: Worker, c: Choice): Data {
    var d := w.data;
    var surface := Surface(cfg.shape, w.iter);
    if Fails(cfg, p, w, c) then d.(use := Idle)
    else match w.pc
    case Refill => if cfg.rotating then d.(plain := c.bytes) else d
    case EncBegin => d.(use := BeginUse(p, SlotOf(surface)))
    case DecBegin => d.(use := BeginUse(p, SlotOf(surface)))
    case EncRun =>
      d.(use := Idle, wire := if KeyingHeld(p, d.use) then Sealed(surface, d.use.key, d.plain) else c.wire)
    case DecRun =>
      d.(use := Idle,
         got := if KeyingHeld(p, d.use) && d.wire.Sealed? && d.wire.surface == surface && d.wire.key == d.use.key
                then d.wire.plain else c.bytes)
    case _ => d
  }

  /** Opens a session, or starts a whole-buffer call, on a slot's Pipeline. */
  function BeginUse(p: Pipes, slot: Slot): Use {
    if slot in p.pipe
    then Open(p.pipe[slot], if p.pipe[slot] in p.live then p.live[p.pipe[slot]] else 0)
    else Idle
  }

  function TallyAfter(w: Worker): Tally {
    var t := w.tally;
    match w.pc
    case Compare =>
      if w.data.got != w.data.plain then t
      else t.(iters := t.iters + 1, bytesEnc := t.bytesEnc + |w.data.plain|, bytesDec := t.bytesDec + |w.data.got|)
    case RekeyCount => t.(rekeyed := t.rekeyed + 1)
    case CycleCount => t.(cycled := t.cycled + 1)
    case _ => t
  }

  /** What an action does to the state the write lock guards. */
  function PipesAfter(p: Pipes, pc: PC, c: Choice): Pipes {
    match pc
    case RekeyCall(slot) => if slot in p.pipe && c.ok then Rekeyed(p, slot, c.key) else p
    case RekeyStore(slot, blob) => Retained(p, slot, blob)
    case CycleLoad(slot) => if slot in p.pipe && c.ok && slot in p.blob then Loaded(p, slot) else p
    case CycleSwap(slot, loaded) => if slot in p.pipe then Swapped(p, slot, loaded) else p
    case _ => p
  }

  function LockAfter(lock: Lock, i: nat, pc: PC): Lock {
    match pc
    case ReadLock => lock.(readers := lock.readers + {i})
    case ReadUnlock(_) => lock.(readers := lock.readers - {i})
    case RekeyLock => lock.(writer := Some(i))
    case CycleLock => lock.(writer := Some(i))
    case RekeyUnlock(_) => lock.(writer := None)
    case CycleUnlock(_) => lock.(writer := None)
    case _ => lock
  }

  /** Barrier arrivals, and worker_done: the last worker to return stamps the
      finish instant. */
  function BoardAfter(b: Board, pc: PC, now: int): Board {
    match pc
    case WarmupArrive(_) => b.(warm := b.warm + 1)
    case ReleaseArrive(_) => b.(rel := b.rel + 1)
    case Finishing =>
      if b.active == 1 then b.(active := 0, finishNs := now, clock := now, stamps := b.stamps + 1)
      else b.(active := b.active - 1)
    case _ => b
  }

  /** The comparison that does not match, and the dereference of an empty slot. */
  function HaltAfter(cfg: Config, p: Pipes, w: Worker): Halt {
    match w.pc
    case Compare => if w.data.got == w.data.plain then Running else DataMismatch
    case EncBegin => if SlotAt(cfg, w) in p.pipe then Running else BadDeref
    case DecBegin => if SlotAt(cfg, w) in p.pipe then Running else BadDeref
    case CycleSwap(slot, _) => if slot in p.pipe then Running else BadDeref
    case _ => Running
  }

  function WorkerAfter(cfg: Config, p: Pipes, stop: bool, w: Worker, c: Choice): Worker {
    var fails := Fails(cfg, p, w, c);
    Worker(if fails then FailTo(w.pc, w.iter) else Next(cfg, p, stop, w, c),
           IterAfter(cfg, w), w.failed || fails, DataAfter(cfg, p, w, c), TallyAfter(w))
  }

  /** One action of worker `i`.  worker_fail records the error and requests a
      stop of the whole run. */
  function WorkerStep(cfg: Config, s: State, i: nat, c: Choice): State
    requires i < |s.ws|
  {
    var w := s.ws[i];
    var board := BoardAfter(s.board, w.pc, c.now);
    State(
      PipesAfter(s.pipes, w.pc, c),
      LockAfter(s.lock, i, w.pc),
      s.ws[i := WorkerAfter(cfg, s.pipes, s.board.stop, w, c)],
      if Fails(cfg, s.pipes, w, c) then board.(stop := true) else board,
      s.rekeys + (if w.pc.RekeyCount? then 1 else 0),
      s.cycles + (if w.pc.CycleCount? then 1 else 0),
      HaltAfter(cfg, s.pipes, w))
  }

  /** When a worker can take its next action, and which outcomes it can see. */
  predicate WorkerEnabled(cfg: Config, s: State, i: nat, c: Choice) {
    && i < |s.ws|
    && s.board.clock <= c.now
    && match s.ws[i].pc
       case NotStarted => i < s.board.spawned
       case Refill => cfg.rotating && c.ok ==> |c.bytes| == cfg.payload
       case ReadLock => s.lock.writer == None
       case EncBegin => !c.ok ==> Surface(cfg.shape, s.ws[i].iter) == Stream
       case DecBegin => !c.ok ==> Surface(cfg.shape, s.ws[i].iter) == Stream
       case WarmupWait(_) => s.board.warm == cfg.workers + 1
       case ReleaseWait(_) => s.board.rel == cfg.workers + 1
       case MaintRekey => !c.ok ==> cfg.parallax || cfg.wrapper
       case RekeyLock => s.lock.writer == None && s.lock.readers == {}
       case CycleLock => s.lock.writer == None && s.lock.readers == {}
       case Done => false
       case _ => true
  }

  // ------------------------------------------------------------------- main

  function FailureCount(ws: seq<Worker>): nat {
    if ws == [] then 0 else (if ws[0].failed then 1 else 0) + FailureCount(ws[1..])
  }

  /** main after it sent its action: Pipelines are built before any worker
      runs and destroyed after all of them have returned. */
  function MainPipes(cfg: Config, p: Pipes, main: MainPC, c: Choice): Pipes {
    match main
    case BuildStream => if Uses(cfg.shape, StreamSlot) && c.ok then Built(p, StreamSlot, c.key) else p
    case BuildMsg => if Uses(cfg.shape, MsgSlot) && c.ok then Built(p, MsgSlot, c.key) else p
    case Teardown(_) => Destroyed(p)
    case _ => p
  }

  /** The control flow of run. */
  function MainBoard(cfg: Config, b: Board, failures: nat, c: Choice): Board {
    match b.main
    case BuildStream => b.(main := if Uses(cfg.shape, StreamSlot) && !c.ok then Teardown(1) else BuildMsg)
    case BuildMsg => b.(main := if Uses(cfg.shape, MsgSlot) && !c.ok then Teardown(1) else FillPlain)
    case FillPlain =>
      if c.ok then b.(main := Spawning, stop := false, active := cfg.workers) else b.(main := Teardown(1))
    case Spawning =>
      if b.spawned < cfg.workers then b.(spawned := b.spawned + 1)
      else b.(main := WarmWait, warm := b.warm + 1)
    case WarmWait => b.(main := Baseline)
    case Baseline => b.(main := RelArrive, startNs := c.now, finishNs := c.now, clock := c.now)
    case RelArrive => b.(main := RelWait, rel := b.rel + 1)
    case RelWait => b.(main := Waiting)
    case Waiting => b.(main := Joining)
    case Joining => if b.joined < cfg.workers then b.(joined := b.joined + 1) else b.(main := Summary)
    case Summary => b.(main := Teardown(if failures == 0 then 0 else 1))
    case Teardown(code) => b.(main := Exited(code))
    case Exited(_) => b
  }

  function MainStep(cfg: Config, s: State, c: Choice): State {
    s.(pipes := MainPipes(cfg, s.pipes, s.board.main, c),
       board := MainBoard(cfg, s.board, FailureCount(s.ws), c))
  }

  predicate MainEnabled(cfg: Config, s: State, c: Choice) {
    var b := s.board;
    && b.clock <= c.now
    && match b.main
       case WarmWait => b.warm == cfg.workers + 1
       case RelWait => b.rel == cfg.workers + 1
       case Waiting => b.active <= 0
       case Joining => b.joined < cfg.workers ==> b.joined < |s.ws| && s.ws[b.joined].pc == Done
       case Exited(_) => false
       case _ => true
  }

  // ------------------------------------------------------------------- runs

  predicate Enabled(cfg: Config, s: State, a: Action) {
    && s.halt == Running
    && match a
       case WorkerAct(i, c) => WorkerEnabled(cfg, s, i, c)
       case MainAct(c) => MainEnabled(cfg, s, c)
       case Poll(_) => s.board.main == Waiting && 0 < s.board.active
  }

  function Apply(cfg: Config, s: State, a: Action): State
    requires Enabled(cfg, s, a)
  {
    match a
    case WorkerAct(i, c) => WorkerStep(cfg, s, i, c)
    case MainAct(c) => MainStep(cfg, s, c)
    case Poll(stop) => s.(board := s.board.(stop := s.board.stop || stop))
  }

  predicate InitWorker(cfg: Config, w: Worker) {
    && w.pc == NotStarted && w.iter == 0 && !w.failed
    && |w.data.plain| == cfg.payload && w.data.use == Idle
    && w.tally == Tally(0, 0, 0, 0, 0)
  }

  predicate Init(cfg: Config, s: State) {
    && ValidConfig(cfg)
    && s.pipes.pipe == map[] && s.pipes.blob == map[] && s.pipes.live == map[]
    && s.lock == Lock({}, None)
    && |s.ws| == cfg.workers && (forall i :: 0 <= i < |s.ws| ==> InitWorker(cfg, s.ws[i]))
    && s.board.main == BuildStream && !s.board.stop && s.halt == Running
    && s.board.spawned == s.board.joined == s.board.warm == s.board.rel == s.board.stamps == 0
    && s.rekeys == s.cycles == 0
  }

  /** The actions can be taken one after the other from `s`. */
  predicate CanRun(cfg: Config, s: State, acts: seq<Action>)
    decreases |acts|
  {
    acts == [] ||
    (Enabled(cfg, s, acts[0]) && CanRun(cfg, Apply(cfg, s, acts[0]), acts[1..]))
  }

  /** The state a run ends in. */
  function After(cfg: Config, s: State, acts: seq<Action>): State
    requires CanRun(cfg, s, acts)
    decreases |acts|
  {
    if acts == [] then s else After(cfg, Apply(cfg, s, acts[0]), acts[1..])
  }

  ghost predicate Reachable(cfg: Config, s: State) {
    exists s0: State, acts: seq<Action> :: Init(cfg, s0) && CanRun(cfg, s0, acts) && After(cfg, s0, acts) == s
  }
}
