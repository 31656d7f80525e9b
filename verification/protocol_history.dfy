/**
  What a worker did on the way to where it stands: the rekeys of its current
  rotation, the handles its current reopen found, and the plaintext of its
  current iteration, read off the actions of the run.
  */
module ProtocolHistory {
  import opened Base
  import opened Protocol
  import opened ProtocolKeying
  import opened ProtocolPhases
  import opened ProtocolProgress
  import opened ProtocolTheorems

  /** `keys` holds the successful Rekey calls since the worker last took the lock to
      rotate, `held` and `next` the engaged handles and the next free one when it last
      took the lock to reopen, `plain` the bytes of its last refill. */
  datatype Past = Past(keys: map<Slot, Key>, held: map<Slot, Handle>, next: Handle, plain: Bytes)

  /** The past of a worker with its own action in it. */
  function Recalled(cfg: Config, p: Pipes, pc: PC, c: Choice, h: Past): Past {
    match pc
    case Refill => if cfg.rotating && c.ok then h.(plain := c.bytes) else h
    case RekeyLock => h.(keys := map[])
    case RekeyCall(slot) => if slot in p.pipe && c.ok then h.(keys := h.keys[slot := c.key]) else h
    case CycleLock => h.(held := p.pipe, next := p.next)
    case _ => h
  }

  /** What worker `i` adds to its past by an action taken in `s`. */
  function Noted(cfg: Config, s: State, i: nat, h: Past, a: Action): Past {
    if a.WorkerAct? && a.i == i < |s.ws| then Recalled(cfg, s.pipes, s.ws[i].pc, a.c, h) else h
  }

  /** The past of worker `i` at the end of a run. */
  function History(cfg: Config, s: State, i: nat, acts: seq<Action>, h: Past): Past
    requires CanRun(cfg, s, acts)
    decreases |acts|
  {
    if acts == [] then h
    else History(cfg, Apply(cfg, s, acts[0]), i, acts[1..], Noted(cfg, s, i, h, acts[0]))
  }

  const NOTHING := Past(map[], map[], 0, [])

  // -------------------------------------------------------------- invariant

  /** The slot runs and is blobbed under the key of a Rekey of this rotation. */
  ghost predicate Rotated(p: Pipes, h: Past, slot: Slot) {
    && slot in h.keys && KeyingOf(p, slot) == Some(h.keys[slot])
    && slot in p.blob && p.blob[slot] == h.keys[slot]
  }

  /** The slot holds a handle opened since the reopen began; its old one is freed. */
  ghost predicate Reopened(p: Pipes, h: Past, slot: Slot) {
    && slot in p.pipe && h.next <= p.pipe[slot] && slot in h.held && h.held[slot] !in p.live
  }

  ghost predicate RotationOK(p: Pipes, pc: PC, h: Past) {
    match pc
    case RekeyCall(MsgSlot) => StreamSlot in p.pipe ==> Rotated(p, h, StreamSlot)
    case RekeyStore(slot, b) =>
      && slot in h.keys && h.keys[slot] == b
      && (slot == MsgSlot && StreamSlot in p.pipe ==> Rotated(p, h, StreamSlot))
    case RekeyCount => forall slot :: slot in p.pipe ==> Rotated(p, h, slot)
    case _ => true
  }

  /** Slots not yet reopened still hold what they held. */
  ghost predicate ReopenOK(p: Pipes, pc: PC, h: Past) {
    pc.CycleLoad? || pc.CycleSwap? || pc.CycleCount? ==>
      && h.next <= p.next && h.held.Keys == p.pipe.Keys && (forall slot :: slot in h.held ==> h.held[slot] < h.next)
      && match pc
         case CycleLoad(StreamSlot) => p.pipe == h.held
         case CycleSwap(StreamSlot, l) => p.pipe == h.held && h.next <= l
         case CycleLoad(MsgSlot) =>
           && (StreamSlot in p.pipe ==> Reopened(p, h, StreamSlot))
           && (MsgSlot in p.pipe ==> p.pipe[MsgSlot] == h.held[MsgSlot])
         case CycleSwap(MsgSlot, l) =>
           && (StreamSlot in p.pipe ==> Reopened(p, h, StreamSlot))
           && (MsgSlot in p.pipe ==> p.pipe[MsgSlot] == h.held[MsgSlot]) && h.next <= l
         case _ => forall slot :: slot in p.pipe ==> Reopened(p, h, slot)
  }

  predicate RefillOK(cfg: Config, w: Worker, h: Past) {
    cfg.rotating && (w.pc.ReadLock? || HoldsRead(w.pc)) ==> w.data.plain == h.plain
  }

  ghost predicate PastOK(cfg: Config, s: State, i: nat, h: Past) {
    i < |s.ws| ==>
      && RotationOK(s.pipes, s.ws[i].pc, h) && ReopenOK(s.pipes, s.ws[i].pc, h) && RefillOK(cfg, s.ws[i], h)
  }

  // ------------------------------------------------------------------ proof

  lemma CallKeepsOther(p: Pipes, h: Past, key: Key)
    requires PipesOK(p, RekeyCall(MsgSlot)) && StreamSlot in p.pipe && MsgSlot in p.pipe && Rotated(p, h, StreamSlot)
    ensures Rotated(Rekeyed(p, MsgSlot, key), h.(keys := h.keys[MsgSlot := key]), StreamSlot)
  {
  }

  lemma StoreRotates(p: Pipes, h: Past, slot: Slot, blob: Key)
    requires PipesOK(p, RekeyStore(slot, blob)) && slot in h.keys && h.keys[slot] == blob
    ensures Rotated(Retained(p, slot, blob), h, slot)
    ensures forall other :: other != slot && Rotated(p, h, other) ==> Rotated(Retained(p, slot, blob), h, other)
  {
  }

  lemma RotationStep(cfg: Config, p: Pipes, stop: bool, w: Worker, c: Choice, h: Past)
    requires PipesOK(p, w.pc) && RotationOK(p, w.pc, h) && InRekey(w.pc)
    ensures RotationOK(PipesAfter(p, w.pc, c), WorkerAfter(cfg, p, stop, w, c).pc, Recalled(cfg, p, w.pc, c, h))
  {
    hide DataAfter, TallyAfter, IterAfter, Due, Rotated, PipesOK;
    match w.pc
    case RekeyCall(slot) =>
      if slot == MsgSlot && slot in p.pipe && StreamSlot in p.pipe && c.ok {
        CallKeepsOther(p, h, c.key);
      } else if slot == MsgSlot && slot !in p.pipe {
        BothSlots(p, h);
      }
    case RekeyStore(slot, blob) =>
      StoreRotates(p, h, slot, blob);
      BothSlots(Retained(p, slot, blob), h);
    case _ =>
  }

  lemma BothSlots(p: Pipes, h: Past)
    ensures (StreamSlot in p.pipe ==> Rotated(p, h, StreamSlot)) && (MsgSlot in p.pipe ==> Rotated(p, h, MsgSlot))
      ==> forall slot :: slot in p.pipe ==> Rotated(p, h, slot)
  {
    hide Rotated;
    forall slot | slot in p.pipe ensures slot == StreamSlot || slot == MsgSlot {
      match slot case StreamSlot => case MsgSlot =>
    }
  }

  lemma LoadKeepsReopened(p: Pipes, h: Past, slot: Slot)
    requires slot in p.blob && h.next <= p.next && (forall s :: s in h.held ==> h.held[s] < h.next)
    ensures forall other :: Reopened(p, h, other) ==> Reopened(Loaded(p, slot), h, other)
  {
  }

  lemma SwapReopens(p: Pipes, h: Past, slot: Slot, loaded: Handle)
    requires slot in p.pipe && slot in h.held && p.pipe[slot] == h.held[slot] && h.next <= loaded
    ensures Reopened(Swapped(p, slot, loaded), h, slot)
    ensures forall other :: other != slot && Reopened(p, h, other) ==> Reopened(Swapped(p, slot, loaded), h, other)
    ensures Swapped(p, slot, loaded).pipe.Keys == p.pipe.Keys
  {
  }

  lemma BothReopened(p: Pipes, h: Past)
    ensures (StreamSlot in p.pipe ==> Reopened(p, h, StreamSlot)) && (MsgSlot in p.pipe ==> Reopened(p, h, MsgSlot))
      ==> forall slot :: slot in p.pipe ==> Reopened(p, h, slot)
  {
    hide Reopened;
    forall slot | slot in p.pipe ensures slot == StreamSlot || slot == MsgSlot {
      match slot case StreamSlot => case MsgSlot =>
    }
  }

  lemma LoadStep(p: Pipes, slot: Slot, h: Past)
    requires PipesOK(p, CycleLoad(slot)) && ReopenOK(p, CycleLoad(slot), h)
    ensures slot in p.pipe ==> slot in p.blob && ReopenOK(Loaded(p, slot), CycleSwap(slot, p.next), h)
    ensures slot !in p.pipe ==> ReopenOK(p, AfterCycle(slot), h)
  {
    assert slot in p.pipe ==> slot in p.blob;
    hide PipesOK, Reopened;
    if slot in p.pipe {
      LoadKeepsReopened(p, h, slot);
    } else {
      BothReopened(p, h);
    }
  }

  lemma SwapStep(p: Pipes, slot: Slot, loaded: Handle, h: Past)
    requires PipesOK(p, CycleSwap(slot, loaded)) && ReopenOK(p, CycleSwap(slot, loaded), h)
    ensures slot in p.pipe && ReopenOK(Swapped(p, slot, loaded), AfterCycle(slot), h)
  {
    assert slot in p.pipe;
    hide Reopened, PipesOK;
    SwapReopens(p, h, slot, loaded);
    BothReopened(Swapped(p, slot, loaded), h);
  }

  lemma LockStarts(p: Pipes, h: Past)
    requires PipesOK(p, CycleLock)
    ensures ReopenOK(p, CycleLoad(StreamSlot), h.(held := p.pipe, next := p.next))
  {
    HeldBelow(p);
    hide PipesOK, Reopened;
  }

  lemma ReopenStep(cfg: Config, p: Pipes, stop: bool, w: Worker, c: Choice, h: Past)
    requires PipesOK(p, w.pc) && ReopenOK(p, w.pc, h) && InCycle(w.pc)
    ensures ReopenOK(PipesAfter(p, w.pc, c), WorkerAfter(cfg, p, stop, w, c).pc, Recalled(cfg, p, w.pc, c, h))
  {
    hide DataAfter, TallyAfter, IterAfter, Due, Reopened, PipesOK, Loaded, Swapped;
    match w.pc
    case CycleLock => LockStarts(p, h);
    case CycleLoad(slot) => LoadStep(p, slot, h);
    case CycleSwap(slot, loaded) => SwapStep(p, slot, loaded, h);
    case CycleCount =>
    case CycleUnlock(_) =>
  }

  lemma HeldBelow(p: Pipes)
    requires PipesOK(p, CycleLock)
    ensures forall slot :: slot in p.pipe ==> p.pipe[slot] < p.next
  {
  }

  lemma RefillStep(cfg: Config, p: Pipes, stop: bool, w: Worker, c: Choice, h: Past)
    requires RefillOK(cfg, w, h)
    ensures RefillOK(cfg, WorkerAfter(cfg, p, stop, w, c), Recalled(cfg, p, w.pc, c, h))
  {
    hide TallyAfter, IterAfter, Due, BeginUse;
  }

  /** Outside a rotation and a reopen there is nothing to remember of them. */
  lemma Elsewhere(cfg: Config, p: Pipes, stop: bool, w: Worker, c: Choice, h: Past)
    ensures !InRekey(w.pc) ==>
      RotationOK(PipesAfter(p, w.pc, c), WorkerAfter(cfg, p, stop, w, c).pc, Recalled(cfg, p, w.pc, c, h))
    ensures !InCycle(w.pc) ==>
      ReopenOK(PipesAfter(p, w.pc, c), WorkerAfter(cfg, p, stop, w, c).pc, Recalled(cfg, p, w.pc, c, h))
  {
    hide DataAfter, TallyAfter, IterAfter, Due, Rotated, Reopened;
  }

  /** A worker that rotates or reopens finds no mutation half done but its own. */
  lemma WriterIs(cfg: Config, s: State, i: nat, c: Choice)
    requires Safe(cfg, s) && WorkerEnabled(cfg, s, i, c)
    ensures InRekey(s.ws[i].pc) || InCycle(s.ws[i].pc) ==> PipesOK(s.pipes, s.ws[i].pc)
  {
  }

  lemma OwnStep(cfg: Config, s: State, i: nat, c: Choice, h: Past)
    requires Safe(cfg, s) && WorkerEnabled(cfg, s, i, c) && PastOK(cfg, s, i, h)
    ensures PastOK(cfg, WorkerStep(cfg, s, i, c), i, Recalled(cfg, s.pipes, s.ws[i].pc, c, h))
  {
    hide RotationOK, ReopenOK, RefillOK, PipesOK, Safe, Recalled;
    hide PipesAfter, WorkerAfter, LockAfter, BoardAfter, HaltAfter;
    var (p, w) := (s.pipes, s.ws[i]);
    WriterIs(cfg, s, i, c);
    RefillStep(cfg, p, s.board.stop, w, c, h);
    Elsewhere(cfg, p, s.board.stop, w, c, h);
    if InRekey(w.pc) {
      RotationStep(cfg, p, s.board.stop, w, c, h);
    } else if InCycle(w.pc) {
      ReopenStep(cfg, p, s.board.stop, w, c, h);
    }
  }

  lemma PastFrame(cfg: Config, s: State, s': State, i: nat, h: Past)
    requires PastOK(cfg, s, i, h) && |s'.ws| == |s.ws| && (i < |s.ws| ==> s'.ws[i] == s.ws[i])
    requires i < |s.ws| && HoldsWrite(s.ws[i].pc) ==> s'.pipes == s.pipes
    ensures PastOK(cfg, s', i, h)
  {
    hide Rotated, Reopened, Safe, LockAfter;
  }

  /** While one worker holds the write lock nobody else touches the Pipelines. */
  lemma OthersWait(cfg: Config, s: State, i: nat, j: nat, c: Choice)
    requires Safe(cfg, s) && WorkerEnabled(cfg, s, j, c) && i < |s.ws| && i != j && HoldsWrite(s.ws[i].pc)
    ensures PipesAfter(s.pipes, s.ws[j].pc, c) == s.pipes
  {
    assert !HoldsWrite(s.ws[j].pc);
    if PipesAfter(s.pipes, s.ws[j].pc, c) != s.pipes {
      MutatorHoldsWrite(s.pipes, s.ws[j].pc, c);
    }
  }

  lemma MainWaits(cfg: Config, s: State, i: nat, c: Choice)
    requires Safe(cfg, s) && i < |s.ws| && HoldsWrite(s.ws[i].pc)
    ensures MainStep(cfg, s, c).pipes == s.pipes
  {
    BitSums(s.ws);
  }

  lemma KeepsPast(cfg: Config, s: State, i: nat, h: Past, a: Action)
    requires Safe(cfg, s) && Enabled(cfg, s, a) && PastOK(cfg, s, i, h)
    ensures PastOK(cfg, Apply(cfg, s, a), i, Noted(cfg, s, i, h, a))
  {
    hide PastOK, Safe, PipesAfter, WorkerAfter, LockAfter, BoardAfter, HaltAfter, Recalled, MainPipes, MainBoard;
    match a
    case WorkerAct(j, c) =>
      if j == i {
        OwnStep(cfg, s, i, c, h);
      } else {
        if i < |s.ws| && HoldsWrite(s.ws[i].pc) { OthersWait(cfg, s, i, j, c); }
        PastFrame(cfg, s, Apply(cfg, s, a), i, h);
      }
    case MainAct(c) =>
      if i < |s.ws| && HoldsWrite(s.ws[i].pc) { MainWaits(cfg, s, i, c); }
      PastFrame(cfg, s, Apply(cfg, s, a), i, h);
    case Poll(_) => PastFrame(cfg, s, Apply(cfg, s, a), i, h);
  }

  lemma {:induction false} RunKeepsPast(cfg: Config, s: State, i: nat, acts: seq<Action>, h: Past)
    requires Good(cfg, s) && PastOK(cfg, s, i, h) && CanRun(cfg, s, acts)
    ensures PastOK(cfg, After(cfg, s, acts), i, History(cfg, s, i, acts, h))
    decreases |acts|
  {
    hide PastOK, Noted, Apply, Enabled, Safe;
    if acts == [] {
    } else {
      KeepsGood(cfg, s, acts[0]);
      KeepsPast(cfg, s, i, h, acts[0]);
      RunKeepsPast(cfg, Apply(cfg, s, acts[0]), i, acts[1..], Noted(cfg, s, i, h, acts[0]));
    }
  }

  // ------------------------------------------------------------------- theorems

  lemma PastAtEnd(cfg: Config, s: State, i: nat, acts: seq<Action>)
    requires Init(cfg, s) && CanRun(cfg, s, acts)
    ensures PastOK(cfg, After(cfg, s, acts), i, History(cfg, s, i, acts, NOTHING))
  {
    InitGood(cfg, s);
    assert PastOK(cfg, s, i, NOTHING);
    hide PastOK, History, Good;
    RunKeepsPast(cfg, s, i, acts, NOTHING);
  }

  /** A rotation that is counted has been carried out: in any run, when a worker
      stands at the counter, every engaged slot has had a successful Rekey of that
      worker since it took the lock, and both its keying and its blob are that
      Rekey's. */
  lemma RotationsAreReal(cfg: Config, s: State, acts: seq<Action>, i: nat, slot: Slot)
    requires Init(cfg, s) && CanRun(cfg, s, acts)
    requires var s' := After(cfg, s, acts); i < |s'.ws| && s'.ws[i].pc.RekeyCount? && slot in s'.pipes.pipe
    ensures var (p, keys) := (After(cfg, s, acts).pipes, History(cfg, s, i, acts, NOTHING).keys);
      && slot in keys && KeyingOf(p, slot) == Some(keys[slot]) && slot in p.blob && p.blob[slot] == keys[slot]
  {
    PastAtEnd(cfg, s, i, acts);
    hide History, CanRun, After;
  }

  /** A reopen that is counted has been carried out: every engaged slot holds a handle
      that did not exist when the worker took the lock, and the one it held then is
      no longer allocated. */
  lemma ReopensAreReal(cfg: Config, s: State, acts: seq<Action>, i: nat, slot: Slot)
    requires Init(cfg, s) && CanRun(cfg, s, acts)
    requires var s' := After(cfg, s, acts); i < |s'.ws| && s'.ws[i].pc.CycleCount? && slot in s'.pipes.pipe
    ensures var (p, h) := (After(cfg, s, acts).pipes, History(cfg, s, i, acts, NOTHING));
      && h.held.Keys == p.pipe.Keys && h.held[slot] < h.next <= p.pipe[slot] && h.held[slot] !in p.live
  {
    PastAtEnd(cfg, s, i, acts);
    hide History, CanRun, After;
  }

  /** Under the rotating mode an iteration encrypts, and compares with, the bytes of
      its own refill. */
  lemma EncryptsItsRefill(cfg: Config, s: State, acts: seq<Action>, i: nat)
    requires Init(cfg, s) && CanRun(cfg, s, acts) && cfg.rotating
    requires var s' := After(cfg, s, acts);
      i < |s'.ws| && HoldsRead(s'.ws[i].pc)
    ensures After(cfg, s, acts).ws[i].data.plain == History(cfg, s, i, acts, NOTHING).plain
  {
    PastAtEnd(cfg, s, i, acts);
    hide History, CanRun, After;
  }

  /** Otherwise a worker keeps its plaintext for the whole run. */
  lemma {:induction false} KeepsItsPlaintext(cfg: Config, s: State, acts: seq<Action>, i: nat)
    requires CanRun(cfg, s, acts) && !cfg.rotating && i < |s.ws|
    ensures var s' := After(cfg, s, acts); |s'.ws| == |s.ws| && s'.ws[i].data.plain == s.ws[i].data.plain
    decreases |acts|
  {
    hide PipesAfter, LockAfter, BoardAfter, HaltAfter, TallyAfter, IterAfter, Next, BeginUse, MainPipes, MainBoard;
    if acts == [] {
    } else {
      KeepsItsPlaintext(cfg, Apply(cfg, s, acts[0]), acts[1..], i);
    }
  }
}
