/**
  Keying safety of the harness, over every interleaving: the lock excludes
  mutation while any iteration runs, the retained blobs restore the live
  keying, no handle leaks or is used after it is freed, and a round trip runs
  under one keying from begin to compare.
  */
module ProtocolKeying {
  import opened Base
  import opened Protocol
  import opened ProtocolPhases

  // -------------------------------------------------------------- invariant

  ghost predicate LockInv(ws: seq<Worker>, lock: Lock) {
    && (forall i :: i in lock.readers <==> 0 <= i < |ws| && HoldsRead(ws[i].pc))
    && (forall i :: 0 <= i < |ws| ==> (HoldsWrite(ws[i].pc) <==> lock.writer == Some(i)))
    && (lock.writer.Some? ==> lock.writer.value < |ws| && lock.readers == {})
  }

  /** The program counter of the worker that holds the write lock, if any. */
  function WriterPC(ws: seq<Worker>, lock: Lock): PC {
    if lock.writer.Some? && lock.writer.value < |ws| then ws[lock.writer.value].pc else NotStarted
  }

  /** Handles and blobs, given where the writer stands. Outside a mutation every
      live handle is owned by exactly one slot and every blob restores its slot's
      live keying. */
  ghost predicate PipesOK(p: Pipes, writer: PC) {
    && (forall slot :: slot in p.pipe ==> p.pipe[slot] in p.live && slot in p.blob)
    && (StreamSlot in p.pipe && MsgSlot in p.pipe ==> p.pipe[StreamSlot] != p.pipe[MsgSlot])
    && (forall h :: h in p.live ==> h < p.next && (Owned(p, h) || Loading(writer, h)))
    && (writer.RekeyStore? ==> writer.slot in p.pipe && p.live[p.pipe[writer.slot]] == writer.blob)
    && (writer.CycleSwap? ==>
          && writer.slot in p.pipe && writer.loaded in p.live && !Owned(p, writer.loaded)
          && p.live[writer.loaded] == p.blob[writer.slot])
    && (forall slot :: slot in p.pipe && !(writer.RekeyStore? && writer.slot == slot)
          ==> p.blob[slot] == p.live[p.pipe[slot]])
  }

  predicate Owned(p: Pipes, h: Handle) {
    (StreamSlot in p.pipe && p.pipe[StreamSlot] == h) || (MsgSlot in p.pipe && p.pipe[MsgSlot] == h)
  }

  predicate Loading(writer: PC, h: Handle) {
    writer.CycleSwap? && writer.loaded == h
  }

  /** Which slots are engaged. */
  predicate SlotsOK(cfg: Config, b: Board, p: Pipes) {
    match b.main
    case BuildStream => StreamSlot !in p.pipe && MsgSlot !in p.pipe
    case BuildMsg => (StreamSlot in p.pipe <==> Uses(cfg.shape, StreamSlot)) && MsgSlot !in p.pipe
    case Exited(_) => StreamSlot !in p.pipe && MsgSlot !in p.pipe
    case _ => Aborted(b) || forall slot :: slot in p.pipe <==> Uses(cfg.shape, slot)
  }

  /** A round trip in progress: what it has open, and what it holds so far. */
  predicate TripOK(cfg: Config, p: Pipes, w: Worker) {
    var slot := SlotAt(cfg, w);
    var d := w.data;
    && |d.plain| == cfg.payload
    && (if w.pc.EncRun? || w.pc.DecRun?
        then slot in p.pipe && p.pipe[slot] in p.live && d.use == Open(p.pipe[slot], p.live[p.pipe[slot]])
        else d.use == Idle)
    && (w.pc.DecBegin? || w.pc.DecRun? ==>
          && slot in p.pipe && p.pipe[slot] in p.live
          && d.wire == Sealed(Surface(cfg.shape, w.iter), p.live[p.pipe[slot]], d.plain))
    && (w.pc.Compare? ==> d.got == d.plain)
  }

  ghost predicate KeyingInv(cfg: Config, s: State) {
    && s.halt == Running
    && LockInv(s.ws, s.lock)
    && PipesOK(s.pipes, WriterPC(s.ws, s.lock))
    && SlotsOK(cfg, s.board, s.pipes)
    && forall i :: 0 <= i < |s.ws| ==> TripOK(cfg, s.pipes, s.ws[i])
  }

  ghost predicate Safe(cfg: Config, s: State) {
    PhaseInv(cfg, s) && KeyingInv(cfg, s)
  }

  // ------------------------------------------------------------------- lock

  lemma LockStep(cfg: Config, s: State, i: nat, c: Choice)
    requires WorkerEnabled(cfg, s, i, c) && LockInv(s.ws, s.lock)
    ensures var s' := WorkerStep(cfg, s, i, c); LockInv(s'.ws, s'.lock)
  {
    var w' := WorkerAfter(cfg, s.pipes, s.board.stop, s.ws[i], c);
    HoldsStep(cfg, s, i, c);
  }

  /** How an action changes what its own worker holds. */
  lemma HoldsStep(cfg: Config, s: State, i: nat, c: Choice)
    requires i < |s.ws|
    ensures
      var w := s.ws[i];
      var pc' := WorkerAfter(cfg, s.pipes, s.board.stop, w, c).pc;
      var lock' := LockAfter(s.lock, i, w.pc);
      && (HoldsRead(pc') <==> w.pc.ReadLock? || (HoldsRead(w.pc) && !w.pc.ReadUnlock?))
      && (HoldsWrite(pc') <==>
            (w.pc.RekeyLock? || w.pc.CycleLock? || (HoldsWrite(w.pc) && !w.pc.RekeyUnlock? && !w.pc.CycleUnlock?)))
  {
  }

  // ------------------------------------------------------- handles and blobs

  /** Only a rekey between its two steps, or a load not yet swapped in, makes
      the order of handles and blobs depend on the writer. */
  lemma PipesSettled(p: Pipes, pc: PC, pc': PC)
    requires PipesOK(p, pc)
    requires !pc.RekeyStore? && !pc.CycleSwap? && !pc'.RekeyStore? && !pc'.CycleSwap?
    ensures PipesOK(p, pc')
  {
  }

  lemma RekeyKeepsPipes(p: Pipes, slot: Slot, key: Key)
    requires PipesOK(p, RekeyCall(slot)) && slot in p.pipe
    ensures PipesOK(Rekeyed(p, slot, key), RekeyStore(slot, key))
  {
  }

  lemma RetainKeepsPipes(p: Pipes, slot: Slot, blob: Key)
    requires PipesOK(p, RekeyStore(slot, blob))
    ensures PipesOK(Retained(p, slot, blob), RekeyCount)
  {
  }

  lemma LoadKeepsPipes(p: Pipes, slot: Slot)
    requires PipesOK(p, CycleLoad(slot)) && slot in p.pipe
    ensures PipesOK(Loaded(p, slot), CycleSwap(slot, p.next))
  {
  }

  lemma SwapKeepsPipes(p: Pipes, slot: Slot, loaded: Handle)
    requires PipesOK(p, CycleSwap(slot, loaded))
    ensures PipesOK(Swapped(p, slot, loaded), CycleCount)
  {
    var p' := Swapped(p, slot, loaded);
    forall h | h in p'.live ensures Owned(p', h) {
      assert h in p.live;
    }
    forall other | other in p'.pipe ensures p'.pipe[other] in p'.live {
      if other != slot {
        assert p.pipe[other] != p.pipe[slot] by { match slot case StreamSlot => case MsgSlot => }
      }
    }
  }

  lemma RekeyMutates(cfg: Config, p: Pipes, stop: bool, w: Worker, c: Choice)
    requires InRekey(w.pc) && PipesOK(p, w.pc)
    ensures PipesOK(PipesAfter(p, w.pc, c), WorkerAfter(cfg, p, stop, w, c).pc)
  {
    var pc' := WorkerAfter(cfg, p, stop, w, c).pc;
    match w.pc
    case RekeyCall(slot) =>
      if slot in p.pipe && c.ok { RekeyKeepsPipes(p, slot, c.key); } else { PipesSettled(p, w.pc, pc'); }
    case RekeyStore(slot, blob) =>
      RetainKeepsPipes(p, slot, blob);
      PipesSettled(Retained(p, slot, blob), RekeyCount, pc');
    case _ => PipesSettled(p, w.pc, pc');
  }

  lemma CycleMutates(cfg: Config, p: Pipes, stop: bool, w: Worker, c: Choice)
    requires InCycle(w.pc) && PipesOK(p, w.pc)
    ensures PipesOK(PipesAfter(p, w.pc, c), WorkerAfter(cfg, p, stop, w, c).pc)
  {
    var pc' := WorkerAfter(cfg, p, stop, w, c).pc;
    match w.pc
    case CycleLoad(slot) =>
      if slot in p.pipe && c.ok { LoadKeepsPipes(p, slot); } else { PipesSettled(p, w.pc, pc'); }
    case CycleSwap(slot, loaded) =>
      SwapKeepsPipes(p, slot, loaded);
      PipesSettled(Swapped(p, slot, loaded), CycleCount, pc');
    case _ => PipesSettled(p, w.pc, pc');
  }

  /** Maintenance never engages or empties a slot. */
  lemma SlotsStay(cfg: Config, b: Board, b': Board, p: Pipes, pc: PC, c: Choice)
    requires SlotsOK(cfg, b, p) && b'.main == b.main && b'.spawned == b.spawned
    ensures SlotsOK(cfg, b', PipesAfter(p, pc, c))
  {
    assert forall slot :: slot in PipesAfter(p, pc, c).pipe <==> slot in p.pipe;
  }

  /** An action outside the write lock leaves the pipes alone. */
  lemma IdleStep(cfg: Config, p: Pipes, stop: bool, w: Worker, c: Choice)
    requires !HoldsWrite(w.pc)
    ensures PipesAfter(p, w.pc, c) == p
    ensures var pc' := WorkerAfter(cfg, p, stop, w, c).pc; !pc'.RekeyStore? && !pc'.CycleSwap?
  {
  }

  lemma WorkerKeepsPipes(cfg: Config, s: State, i: nat, c: Choice)
    requires LockInv(s.ws, s.lock) && PipesOK(s.pipes, WriterPC(s.ws, s.lock)) && WorkerEnabled(cfg, s, i, c)
    ensures var s' := WorkerStep(cfg, s, i, c); PipesOK(s'.pipes, WriterPC(s'.ws, s'.lock))
  {
    LockStep(cfg, s, i, c);
    var w := s.ws[i];
    var s' := WorkerStep(cfg, s, i, c);
    var pc' := s'.ws[i].pc;
    if HoldsWrite(w.pc) {
      if InRekey(w.pc) { RekeyMutates(cfg, s.pipes, s.board.stop, w, c); }
      else { CycleMutates(cfg, s.pipes, s.board.stop, w, c); }
      if !HoldsWrite(pc') { PipesSettled(s'.pipes, pc', WriterPC(s'.ws, s'.lock)); }
    } else {
      IdleStep(cfg, s.pipes, s.board.stop, w, c);
      if HoldsWrite(pc') { PipesSettled(s.pipes, WriterPC(s.ws, s.lock), pc'); }
    }
  }

  // ------------------------------------------------------------ round trips

  /** Under the read lock a worker's own action keeps its round trip in order:
      this is where decrypt meets the keying encrypt ran under. */
  lemma ReadTripStep(cfg: Config, p: Pipes, stop: bool, w: Worker, c: Choice)
    requires TripOK(cfg, p, w) && HoldsRead(w.pc)
    requires PipesOK(p, NotStarted) && SlotAt(cfg, w) in p.pipe
    ensures TripOK(cfg, p, WorkerAfter(cfg, p, stop, w, c))
  {
  }

  lemma OtherTripStep(cfg: Config, p: Pipes, p': Pipes, stop: bool, w: Worker, c: Choice)
    requires TripOK(cfg, p, w) && !HoldsRead(w.pc)
    requires w.pc.Refill? && cfg.rotating && c.ok ==> |c.bytes| == cfg.payload
    ensures TripOK(cfg, p', WorkerAfter(cfg, p, stop, w, c))
  {
  }

  /** Neither the mismatch exit nor an empty dereference can be next. */
  lemma NoHalt(cfg: Config, p: Pipes, w: Worker)
    requires TripOK(cfg, p, w)
    requires HoldsRead(w.pc) ==> SlotAt(cfg, w) in p.pipe
    requires HoldsWrite(w.pc) ==> PipesOK(p, w.pc)
    ensures HaltAfter(cfg, p, w) == Running
  {
  }

  /** A mutation by another worker does not disturb a worker that holds no
      read lock. */
  lemma TripFrame(cfg: Config, p: Pipes, p': Pipes, w: Worker)
    requires TripOK(cfg, p, w) && (p' == p || !HoldsRead(w.pc))
    ensures TripOK(cfg, p', w)
  {
  }

  /** Every slot an iteration may use is engaged while workers run. */
  lemma SlotEngaged(cfg: Config, s: State, i: nat)
    requires Safe(cfg, s) && i < |s.ws| && HoldsRead(s.ws[i].pc)
    ensures SlotAt(cfg, s.ws[i]) in s.pipes.pipe
  {
    var w := s.ws[i];
    BitSums(s.ws);
    assert !s.ws[i].pc.NotStarted?;
    assert Uses(cfg.shape, SlotAt(cfg, w));
  }

  lemma WorkerKeepsTrips(cfg: Config, s: State, i: nat, c: Choice)
    requires Safe(cfg, s) && WorkerEnabled(cfg, s, i, c)
    ensures var s' := WorkerStep(cfg, s, i, c);
      s'.halt == Running && forall j :: 0 <= j < |s'.ws| ==> TripOK(cfg, s'.pipes, s'.ws[j])
  {
    var w := s.ws[i];
    var p' := PipesAfter(s.pipes, w.pc, c);
    if HoldsRead(w.pc) {
      SlotEngaged(cfg, s, i);
      ReadTripStep(cfg, s.pipes, s.board.stop, w, c);
    } else {
      OtherTripStep(cfg, s.pipes, p', s.board.stop, w, c);
    }
    NoHalt(cfg, s.pipes, w);
    if !HoldsWrite(w.pc) { IdleStep(cfg, s.pipes, s.board.stop, w, c); }
    forall j | 0 <= j < |s.ws| && j != i ensures TripOK(cfg, p', s.ws[j]) {
      TripFrame(cfg, s.pipes, p', s.ws[j]);
    }
  }

  lemma WorkerKeepsKeying(cfg: Config, s: State, i: nat, c: Choice)
    requires Safe(cfg, s) && WorkerEnabled(cfg, s, i, c)
    ensures KeyingInv(cfg, WorkerStep(cfg, s, i, c))
  {
    LockStep(cfg, s, i, c);
    WorkerKeepsPipes(cfg, s, i, c);
    WorkerKeepsTrips(cfg, s, i, c);
    SlotsStay(cfg, s.board, WorkerStep(cfg, s, i, c).board, s.pipes, s.ws[i].pc, c);
  }

  lemma BuildKeepsPipes(p: Pipes, slot: Slot, key: Key)
    requires PipesOK(p, NotStarted) && slot !in p.pipe
    ensures PipesOK(Built(p, slot, key), NotStarted)
  {
  }

  /** The destructors free every handle there is. */
  lemma DestroyFreesAll(p: Pipes)
    requires PipesOK(p, NotStarted)
    ensures PipesOK(Destroyed(p), NotStarted) && Destroyed(p).live == map[]
  {
    forall h | h in p.live ensures h in p.pipe.Values {
      assert Owned(p, h);
    }
  }

  lemma MainKeepsPipes(cfg: Config, s: State, c: Choice)
    requires SlotsOK(cfg, s.board, s.pipes) && PipesOK(s.pipes, NotStarted)
    requires PreSpawn(s.board.main) || s.board.main.Teardown?
    ensures PipesOK(MainStep(cfg, s, c).pipes, NotStarted)
  {
    match s.board.main
    case BuildStream => BuildKeepsPipes(s.pipes, StreamSlot, c.key);
    case BuildMsg => BuildKeepsPipes(s.pipes, MsgSlot, c.key);
    case Teardown(_) => DestroyFreesAll(s.pipes);
    case _ =>
  }

  lemma MainKeepsSlots(cfg: Config, s: State, c: Choice)
    requires Spawn(cfg, s.ws, s.board) && SlotsOK(cfg, s.board, s.pipes)
    ensures var s' := MainStep(cfg, s, c); SlotsOK(cfg, s'.board, s'.pipes)
  {
  }

  /** While main builds or destroys Pipelines, no worker is inside one. */
  lemma MainKeepsTrips(cfg: Config, s: State, c: Choice)
    requires PhaseInv(cfg, s) && (PreSpawn(s.board.main) || s.board.main.Teardown?)
    requires forall i :: 0 <= i < |s.ws| ==> TripOK(cfg, s.pipes, s.ws[i])
    ensures forall i :: 0 <= i < |s.ws| ==> !HoldsRead(s.ws[i].pc) && !HoldsWrite(s.ws[i].pc)
    ensures forall i :: 0 <= i < |s.ws| ==> TripOK(cfg, MainStep(cfg, s, c).pipes, s.ws[i])
  {
    BitSums(s.ws);
    forall i | 0 <= i < |s.ws| ensures s.ws[i].pc.NotStarted? || s.ws[i].pc.Done? {}
    forall i | 0 <= i < |s.ws| ensures TripOK(cfg, MainStep(cfg, s, c).pipes, s.ws[i]) {
      TripFrame(cfg, s.pipes, MainStep(cfg, s, c).pipes, s.ws[i]);
    }
  }

  lemma MainKeepsKeying(cfg: Config, s: State, c: Choice)
    requires Safe(cfg, s)
    ensures KeyingInv(cfg, MainStep(cfg, s, c))
  {
    MainKeepsSlots(cfg, s, c);
    if PreSpawn(s.board.main) || s.board.main.Teardown? {
      MainKeepsTrips(cfg, s, c);
      MainKeepsPipes(cfg, s, c);
    }
  }

  lemma KeepsSafe(cfg: Config, s: State, a: Action)
    requires Safe(cfg, s) && Enabled(cfg, s, a)
    ensures Safe(cfg, Apply(cfg, s, a))
  {
    KeepsPhase(cfg, s, a);
    match a
    case WorkerAct(i, c) => WorkerKeepsKeying(cfg, s, i, c);
    case MainAct(c) => MainKeepsKeying(cfg, s, c);
    case Poll(_) =>
  }

  lemma InitSafe(cfg: Config, s: State)
    requires Init(cfg, s)
    ensures Safe(cfg, s)
  {
    InitPhase(cfg, s);
  }
}
