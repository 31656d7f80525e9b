/**
  The maintenance operations on the shared Pipelines: what a rotation and a
  reopen do as a whole, that a worker taking the harness's single steps under
  the write lock does the same, and the methods that carry them out on the
  run state.
  */
module Ops {
  import opened Base
  import P = Protocol
  import K = ProtocolKeying
  import T = ProtocolTheorems
  import H = Handles

  type Pipes = P.Pipes
  type Slot = P.Slot

  /** The library's answer to one Rekey or Load: success, and the new keying. */
  datatype Answer = Answer(ok: bool, key: P.Key)

  // ---------------------------------------------------------- specification

  function RekeyOne(p: Pipes, slot: Slot, a: Answer): (Pipes, bool) {
    if slot !in p.pipe then (p, true)
    else if a.ok then (P.Retained(P.Rekeyed(p, slot, a.key), slot, a.key), true)
    else (p, false)
  }

  /** rekey_pipes: the streaming Pipeline first, the message one only after it. */
  function RekeyAll(p: Pipes, stream: Answer, msg: Answer): (Pipes, bool) {
    var (q, ok) := RekeyOne(p, P.StreamSlot, stream);
    if ok then RekeyOne(q, P.MsgSlot, msg) else (q, false)
  }

  function CycleOne(p: Pipes, slot: Slot, ok: bool): (Pipes, bool) {
    if slot !in p.pipe then (p, true)
    else if ok && slot in p.blob then (P.Swapped(P.Loaded(p, slot), slot, p.next), true)
    else (p, false)
  }

  /** blob_cycle_pipes. */
  function CycleAll(p: Pipes, stream: bool, msg: bool): (Pipes, bool) {
    var (q, ok) := CycleOne(p, P.StreamSlot, stream);
    if ok then CycleOne(q, P.MsgSlot, msg) else (q, false)
  }

  /** No mutation is half done: every live handle has its slot, every blob
      restores its slot's keying. */
  ghost predicate Settled(p: Pipes) {
    K.PipesOK(p, P.NotStarted)
  }

  lemma RekeyOneSettled(p: Pipes, slot: Slot, a: Answer)
    requires Settled(p)
    ensures Settled(RekeyOne(p, slot, a).0)
  {
    if slot in p.pipe && a.ok {
      K.RekeyKeepsPipes(p, slot, a.key);
      K.RetainKeepsPipes(P.Rekeyed(p, slot, a.key), slot, a.key);
    }
  }

  /** A rotation that succeeds leaves every engaged slot keyed and blobbed by its
      fresh masters; one that fails has rotated a prefix of the slots and left the
      rest alone. Either way the blobs restore the live keying and no handle
      changes hands. */
  lemma RekeyAllMeaning(p: Pipes, stream: Answer, msg: Answer)
    requires Settled(p)
    ensures var (q, ok) := RekeyAll(p, stream, msg);
      && Settled(q) && q.pipe == p.pipe && q.live.Keys == p.live.Keys && q.next == p.next
      && (ok <==> (P.StreamSlot in p.pipe ==> stream.ok) && (P.MsgSlot in p.pipe ==> msg.ok))
      && (P.StreamSlot in p.pipe ==>
            T.KeyingOf(q, P.StreamSlot) == if stream.ok then Some(stream.key) else T.KeyingOf(p, P.StreamSlot))
      && (P.MsgSlot in p.pipe ==>
            T.KeyingOf(q, P.MsgSlot) == if ok then Some(msg.key) else T.KeyingOf(p, P.MsgSlot))
  {
    RekeyOneSettled(p, P.StreamSlot, stream);
    var (q, ok) := RekeyOne(p, P.StreamSlot, stream);
    if ok { RekeyOneSettled(q, P.MsgSlot, msg); }
  }

  lemma CycleOneSettled(p: Pipes, slot: Slot, ok: bool)
    requires Settled(p)
    ensures var (q, _) := CycleOne(p, slot, ok);
      && Settled(q) && q.pipe.Keys == p.pipe.Keys && q.blob == p.blob && p.next <= q.next
      && (slot in p.pipe && ok ==> q.pipe == p.pipe[slot := p.next] && p.pipe[slot] !in q.live && p.next < q.next)
      && (!(slot in p.pipe && ok) ==> q == p)
  {
    if slot in p.pipe && ok {
      K.LoadKeepsPipes(p, slot);
      K.SwapKeepsPipes(P.Loaded(p, slot), slot, p.next);
    }
  }

  /** A reopen never changes a keying or a blob. When it succeeds every engaged
      slot holds a handle that did not exist before, and the old ones are freed;
      when it fails the slots from the failing one on keep their handles. */
  lemma CycleAllMeaning(p: Pipes, stream: bool, msg: bool)
    requires Settled(p)
    ensures var (q, ok) := CycleAll(p, stream, msg);
      && Settled(q) && q.blob == p.blob && q.pipe.Keys == p.pipe.Keys
      && (ok <==> (P.StreamSlot in p.pipe ==> stream) && (P.MsgSlot in p.pipe ==> msg))
      && (forall slot :: slot in p.pipe ==> T.KeyingOf(q, slot) == T.KeyingOf(p, slot))
      && (forall slot :: slot in p.pipe && ok ==> q.pipe[slot] >= p.next && p.pipe[slot] !in q.live)
      && (P.MsgSlot in p.pipe && !ok ==> q.pipe[P.MsgSlot] == p.pipe[P.MsgSlot])
      && (P.StreamSlot in p.pipe && !stream ==> q == p)
  {
    CycleOneSettled(p, P.StreamSlot, stream);
    var (r, ok) := CycleOne(p, P.StreamSlot, stream);
    if ok { CycleOneSettled(r, P.MsgSlot, msg); }
  }

  /** The rotation of a maintenance step, when it is due. */
  function Rotation(cfg: P.Config, p: Pipes, iter: nat, draws: bool, answers: (Answer, Answer)): (Pipes, bool) {
    if !P.Due(cfg.rekeyEvery, iter) then (p, true)
    else if draws then RekeyAll(p, answers.0, answers.1)
    else (p, false)
  }

  /** The reopen of a maintenance step, when it is due. */
  function Reopening(cfg: P.Config, p: Pipes, iter: nat, loads: (bool, bool)): (Pipes, bool) {
    if P.Due(cfg.blobCycleEvery, iter) then CycleAll(p, loads.0, loads.1) else (p, true)
  }

  /** worker_maintenance: rotate when due, then reopen when due; a failure ends it. */
  function Maintained(cfg: P.Config, p: Pipes, iter: nat, draws: bool, answers: (Answer, Answer), loads: (bool, bool))
    : (Pipes, bool)
  {
    var (q, ok) := Rotation(cfg, p, iter, draws, answers);
    if ok then Reopening(cfg, q, iter, loads) else (q, false)
  }

  /** Whatever fails in a maintenance step, the blobs restore the live keying
      afterwards; and once the rotation has succeeded, every engaged slot keeps its
      new masters through the reopen, also when a load fails half way. */
  lemma MaintenanceKeepsMasters(cfg: P.Config, p: Pipes, iter: nat, draws: bool,
                                answers: (Answer, Answer), loads: (bool, bool))
    requires Settled(p)
    ensures
      var (q, _) := Maintained(cfg, p, iter, draws, answers, loads);
      && Settled(q) && q.pipe.Keys == p.pipe.Keys
      && (P.Due(cfg.rekeyEvery, iter) && draws && RekeyAll(p, answers.0, answers.1).1 ==>
            && (P.StreamSlot in p.pipe ==> T.KeyingOf(q, P.StreamSlot) == Some(answers.0.key))
            && (P.MsgSlot in p.pipe ==> T.KeyingOf(q, P.MsgSlot) == Some(answers.1.key)))
      && (!P.Due(cfg.rekeyEvery, iter) || !draws ==>
            forall slot :: slot in p.pipe ==> T.KeyingOf(q, slot) == T.KeyingOf(p, slot))
  {
    RotationMeaning(cfg, p, iter, draws, answers);
    CycleAllMeaning(Rotation(cfg, p, iter, draws, answers).0, loads.0, loads.1);
    hide Rotation, RekeyAll, CycleAll, T.KeyingOf, Settled, P.Due;
  }

  lemma RotationMeaning(cfg: P.Config, p: Pipes, iter: nat, draws: bool, answers: (Answer, Answer))
    requires Settled(p)
    ensures var (q, ok) := Rotation(cfg, p, iter, draws, answers);
      && Settled(q) && q.pipe == p.pipe
      && (P.Due(cfg.rekeyEvery, iter) && draws ==> ok == RekeyAll(p, answers.0, answers.1).1)
      && (P.Due(cfg.rekeyEvery, iter) && draws && ok ==>
            && (P.StreamSlot in p.pipe ==> T.KeyingOf(q, P.StreamSlot) == Some(answers.0.key))
            && (P.MsgSlot in p.pipe ==> T.KeyingOf(q, P.MsgSlot) == Some(answers.1.key)))
      && (!P.Due(cfg.rekeyEvery, iter) || !draws ==>
            forall slot :: slot in p.pipe ==> T.KeyingOf(q, slot) == T.KeyingOf(p, slot))
  {
    RekeyAllMeaning(p, answers.0, answers.1);
    hide RekeyAll, T.KeyingOf, Settled, P.Due;
  }

  // ------------------------------------------------------------ single steps

  /** Worker `i` takes one action after the other. */
  function Solo(cfg: P.Config, s: P.State, i: nat, cs: seq<P.Choice>): P.State
    requires i < |s.ws|
    decreases |cs|
  {
    if cs == [] then s else Solo(cfg, P.WorkerStep(cfg, s, i, cs[0]), i, cs[1..])
  }

  function AsChoice(s: P.State, a: Answer): P.Choice {
    P.Choice(a.ok, a.key, [], P.Junk([]), s.board.clock)
  }

  lemma {:induction false} SoloTwice(cfg: P.Config, s: P.State, i: nat, cs: seq<P.Choice>, ds: seq<P.Choice>)
    requires i < |s.ws|
    ensures |Solo(cfg, s, i, cs).ws| == |s.ws|
    ensures Solo(cfg, s, i, cs + ds) == Solo(cfg, Solo(cfg, s, i, cs), i, ds)
    decreases |cs|
  {
    if cs == [] {
      assert cs + ds == ds;
    } else {
      assert (cs + ds)[1..] == cs[1..] + ds;
      SoloTwice(cfg, P.WorkerStep(cfg, s, i, cs[0]), i, cs[1..], ds);
    }
  }

  lemma SoloOnce(cfg: P.Config, s: P.State, i: nat, c: P.Choice)
    requires i < |s.ws|
    ensures Solo(cfg, s, i, [c]) == P.WorkerStep(cfg, s, i, c)
  {
    assert [c][1..] == [];
  }

  /** Neither the run's nor the worker's counters moved, nor the iteration. */
  predicate SameTally(s: P.State, s': P.State, i: nat)
    requires i < |s.ws|
  {
    && |s'.ws| == |s.ws| && s'.rekeys == s.rekeys && s'.cycles == s.cycles
    && s'.ws[i].tally == s.ws[i].tally && s'.ws[i].iter == s.ws[i].iter
  }

  lemma RekeySlotBySteps(cfg: P.Config, s: P.State, i: nat, slot: Slot, a: Answer) returns (cs: seq<P.Choice>)
    requires i < |s.ws| && s.ws[i].pc == P.RekeyCall(slot)
    ensures |cs| <= 2
    ensures var s' := Solo(cfg, s, i, cs); var (q, ok) := RekeyOne(s.pipes, slot, a);
      && |s'.ws| == |s.ws| && s'.pipes == q && SameTally(s, s', i)
      && s'.ws[i].pc == if ok then P.AfterRekey(slot) else P.RekeyUnlock(false)
  {
    var c := AsChoice(s, a);
    cs := if slot in s.pipes.pipe && a.ok then [c, c] else [c];
    SoloOnce(cfg, s, i, c);
    SoloOnce(cfg, P.WorkerStep(cfg, s, i, c), i, c);
    assert [c, c][1..] == [c];
  }

  lemma RekeySlotsBySteps(cfg: P.Config, s: P.State, i: nat, stream: Answer, msg: Answer)
    returns (cs: seq<P.Choice>)
    requires i < |s.ws| && s.ws[i].pc == P.RekeyCall(P.StreamSlot)
    ensures |cs| <= 4
    ensures var s' := Solo(cfg, s, i, cs); var (q, ok) := RekeyAll(s.pipes, stream, msg);
      && |s'.ws| == |s.ws| && s'.pipes == q && SameTally(s, s', i)
      && s'.ws[i].pc == if ok then P.RekeyCount else P.RekeyUnlock(false)
  {
    cs := RekeySlotBySteps(cfg, s, i, P.StreamSlot, stream);
    if RekeyOne(s.pipes, P.StreamSlot, stream).1 {
      var ds := RekeySlotBySteps(cfg, Solo(cfg, s, i, cs), i, P.MsgSlot, msg);
      SoloTwice(cfg, s, i, cs, ds);
      cs := cs + ds;
    }
  }

  /** A worker that starts a due rotation and runs on alone, through the draws, the
      lock, every single call and the counter, does what the whole rotation does. */
  lemma RekeyBySteps(cfg: P.Config, s: P.State, i: nat, draws: bool, stream: Answer, msg: Answer)
    returns (cs: seq<P.Choice>)
    requires i < |s.ws| && s.ws[i].pc == P.MaintRekey && P.Due(cfg.rekeyEvery, s.ws[i].iter)
    ensures |cs| <= 8
    ensures
      var s' := Solo(cfg, s, i, cs);
      var (q, ok) := if draws then RekeyAll(s.pipes, stream, msg) else (s.pipes, false);
      && |s'.ws| == |s.ws| && s'.pipes == q && s'.cycles == s.cycles && s'.ws[i].iter == s.ws[i].iter
      && s'.rekeys == s.rekeys + (if ok then 1 else 0)
      && s'.ws[i].tally == s.ws[i].tally.(rekeyed := s.ws[i].tally.rekeyed + if ok then 1 else 0)
      && s'.ws[i].pc == if ok then P.MaintCycle else P.Finishing
  {
    hide P.WorkerStep, Solo, RekeyAll;
    cs := RekeyStarts(cfg, s, i, draws);
    if draws {
      var t := Solo(cfg, s, i, cs);
      var ds := RekeySlotsBySteps(cfg, t, i, stream, msg);
      var es := RekeyEnds(cfg, Solo(cfg, t, i, ds), i);
      SoloThrice(cfg, s, i, cs, ds, es);
      cs := cs + ds + es;
    }
  }

  lemma SoloThrice(cfg: P.Config, s: P.State, i: nat, cs: seq<P.Choice>, ds: seq<P.Choice>, es: seq<P.Choice>)
    requires i < |s.ws|
    ensures |Solo(cfg, s, i, cs).ws| == |s.ws| && |Solo(cfg, Solo(cfg, s, i, cs), i, ds).ws| == |s.ws|
    ensures Solo(cfg, s, i, cs + ds + es) == Solo(cfg, Solo(cfg, Solo(cfg, s, i, cs), i, ds), i, es)
  {
    hide Solo;
    SoloTwice(cfg, s, i, cs, ds);
    SoloTwice(cfg, s, i, cs + ds, es);
    SoloTwice(cfg, Solo(cfg, s, i, cs), i, ds, es);
  }

  /** The draws of the masters, and the lock. */
  lemma RekeyStarts(cfg: P.Config, s: P.State, i: nat, draws: bool) returns (cs: seq<P.Choice>)
    requires i < |s.ws| && s.ws[i].pc == P.MaintRekey && P.Due(cfg.rekeyEvery, s.ws[i].iter)
    ensures |cs| <= 2
    ensures var s' := Solo(cfg, s, i, cs);
      && |s'.ws| == |s.ws| && s'.pipes == s.pipes && SameTally(s, s', i)
      && s'.ws[i].pc == if draws then P.RekeyCall(P.StreamSlot) else P.Finishing
  {
    var c := AsChoice(s, Answer(draws, 0));
    SoloOnce(cfg, s, i, c);
    cs := [c];
    if draws {
      SoloOnce(cfg, P.WorkerStep(cfg, s, i, c), i, c);
      assert [c, c][1..] == [c];
      cs := [c, c];
    }
  }

  /** The counter and the unlock. */
  lemma RekeyEnds(cfg: P.Config, s: P.State, i: nat) returns (cs: seq<P.Choice>)
    requires i < |s.ws| && (s.ws[i].pc == P.RekeyCount || s.ws[i].pc == P.RekeyUnlock(false))
    ensures |cs| <= 2
    ensures var s' := Solo(cfg, s, i, cs); var ok := s.ws[i].pc == P.RekeyCount;
      && |s'.ws| == |s.ws| && s'.pipes == s.pipes && s'.cycles == s.cycles && s'.ws[i].iter == s.ws[i].iter
      && s'.rekeys == s.rekeys + (if ok then 1 else 0)
      && s'.ws[i].tally == s.ws[i].tally.(rekeyed := s.ws[i].tally.rekeyed + if ok then 1 else 0)
      && s'.ws[i].pc == if ok then P.MaintCycle else P.Finishing
  {
    var c := AsChoice(s, Answer(true, 0));
    SoloOnce(cfg, s, i, c);
    SoloOnce(cfg, P.WorkerStep(cfg, s, i, c), i, c);
    assert [c, c][1..] == [c];
    cs := if s.ws[i].pc == P.RekeyCount then [c, c] else [c];
  }

  lemma CycleSlotBySteps(cfg: P.Config, s: P.State, i: nat, slot: Slot, ok: bool) returns (cs: seq<P.Choice>)
    requires i < |s.ws| && s.ws[i].pc == P.CycleLoad(slot)
    requires slot in s.pipes.pipe ==> slot in s.pipes.blob
    ensures |cs| <= 2
    ensures var s' := Solo(cfg, s, i, cs); var (q, done) := CycleOne(s.pipes, slot, ok);
      && |s'.ws| == |s.ws| && s'.pipes == q && SameTally(s, s', i)
      && s'.ws[i].pc == if done then P.AfterCycle(slot) else P.CycleUnlock(false)
  {
    var c := AsChoice(s, Answer(ok, 0));
    SoloOnce(cfg, s, i, c);
    cs := [c];
    if slot in s.pipes.pipe && ok {
      SoloOnce(cfg, P.WorkerStep(cfg, s, i, c), i, c);
      assert [c, c][1..] == [c];
      cs := [c, c];
    }
  }

  lemma CycleSlotsBySteps(cfg: P.Config, s: P.State, i: nat, stream: bool, msg: bool)
    returns (cs: seq<P.Choice>)
    requires i < |s.ws| && s.ws[i].pc == P.CycleLoad(P.StreamSlot)
    requires forall slot :: slot in s.pipes.pipe ==> slot in s.pipes.blob
    ensures |cs| <= 4
    ensures var s' := Solo(cfg, s, i, cs); var (q, ok) := CycleAll(s.pipes, stream, msg);
      && |s'.ws| == |s.ws| && s'.pipes == q && SameTally(s, s', i)
      && s'.ws[i].pc == if ok then P.CycleCount else P.CycleUnlock(false)
  {
    cs := CycleSlotBySteps(cfg, s, i, P.StreamSlot, stream);
    if CycleOne(s.pipes, P.StreamSlot, stream).1 {
      var ds := CycleSlotBySteps(cfg, Solo(cfg, s, i, cs), i, P.MsgSlot, msg);
      SoloTwice(cfg, s, i, cs, ds);
      cs := cs + ds;
    }
  }

  /** Likewise for a due reopen, up to the next iteration. */
  lemma CycleBySteps(cfg: P.Config, s: P.State, i: nat, stream: bool, msg: bool) returns (cs: seq<P.Choice>)
    requires i < |s.ws| && s.ws[i].pc == P.MaintCycle && P.Due(cfg.blobCycleEvery, s.ws[i].iter)
    requires forall slot :: slot in s.pipes.pipe ==> slot in s.pipes.blob
    ensures |cs| <= 8
    ensures
      var s' := Solo(cfg, s, i, cs); var (q, ok) := CycleAll(s.pipes, stream, msg);
      && |s'.ws| == |s.ws| && s'.pipes == q && s'.rekeys == s.rekeys
      && s'.ws[i].iter == s.ws[i].iter + (if ok then 1 else 0)
      && s'.cycles == s.cycles + (if ok then 1 else 0)
      && s'.ws[i].tally == s.ws[i].tally.(cycled := s.ws[i].tally.cycled + if ok then 1 else 0)
      && s'.ws[i].pc == if ok then P.LoopTop else P.Finishing
  {
    hide P.WorkerStep, Solo, CycleAll;
    cs := CycleStarts(cfg, s, i);
    var t := Solo(cfg, s, i, cs);
    var ds := CycleSlotsBySteps(cfg, t, i, stream, msg);
    var es := CycleEnds(cfg, Solo(cfg, t, i, ds), i);
    SoloThrice(cfg, s, i, cs, ds, es);
    cs := cs + ds + es;
  }

  lemma CycleStarts(cfg: P.Config, s: P.State, i: nat) returns (cs: seq<P.Choice>)
    requires i < |s.ws| && s.ws[i].pc == P.MaintCycle && P.Due(cfg.blobCycleEvery, s.ws[i].iter)
    ensures |cs| <= 2
    ensures var s' := Solo(cfg, s, i, cs);
      |s'.ws| == |s.ws| && s'.pipes == s.pipes && SameTally(s, s', i) && s'.ws[i].pc == P.CycleLoad(P.StreamSlot)
  {
    var c := AsChoice(s, Answer(true, 0));
    SoloOnce(cfg, s, i, c);
    SoloOnce(cfg, P.WorkerStep(cfg, s, i, c), i, c);
    assert [c, c][1..] == [c];
    cs := [c, c];
  }

  lemma CycleEnds(cfg: P.Config, s: P.State, i: nat) returns (cs: seq<P.Choice>)
    requires i < |s.ws| && (s.ws[i].pc == P.CycleCount || s.ws[i].pc == P.CycleUnlock(false))
    ensures |cs| <= 2
    ensures var s' := Solo(cfg, s, i, cs); var ok := s.ws[i].pc == P.CycleCount;
      && |s'.ws| == |s.ws| && s'.pipes == s.pipes && s'.rekeys == s.rekeys
      && s'.ws[i].iter == s.ws[i].iter + (if ok then 1 else 0)
      && s'.cycles == s.cycles + (if ok then 1 else 0)
      && s'.ws[i].tally == s.ws[i].tally.(cycled := s.ws[i].tally.cycled + if ok then 1 else 0)
      && s'.ws[i].pc == if ok then P.LoopTop else P.Finishing
  {
    var c := AsChoice(s, Answer(true, 0));
    SoloOnce(cfg, s, i, c);
    SoloOnce(cfg, P.WorkerStep(cfg, s, i, c), i, c);
    assert [c, c][1..] == [c];
    cs := if s.ws[i].pc == P.CycleCount then [c, c] else [c];
  }

  lemma SkipStep(cfg: P.Config, s: P.State, i: nat) returns (cs: seq<P.Choice>)
    requires i < |s.ws|
    requires
      || (s.ws[i].pc == P.MaintRekey && !P.Due(cfg.rekeyEvery, s.ws[i].iter))
      || (s.ws[i].pc == P.MaintCycle && !P.Due(cfg.blobCycleEvery, s.ws[i].iter))
    ensures |cs| <= 1
    ensures var s' := Solo(cfg, s, i, cs);
      && |s'.ws| == |s.ws| && s'.pipes == s.pipes && s'.rekeys == s.rekeys && s'.cycles == s.cycles
      && s'.ws[i].tally == s.ws[i].tally
      && s'.ws[i].pc == (if s.ws[i].pc.MaintRekey? then P.MaintCycle else P.LoopTop)
      && s'.ws[i].iter == s.ws[i].iter + (if s.ws[i].pc.MaintRekey? then 0 else 1)
  {
    var c := AsChoice(s, Answer(true, 0));
    SoloOnce(cfg, s, i, c);
    cs := [c];
  }

  /** The whole maintenance step of a worker running on alone, from the end of its
      iteration to the next one or to its return: the state, the counters and the
      way out are those of the specification. */
  lemma MaintenanceBySteps(cfg: P.Config, s: P.State, i: nat, draws: bool, answers: (Answer, Answer),
                           loads: (bool, bool))
    returns (cs: seq<P.Choice>)
    requires i < |s.ws| && s.ws[i].pc == P.MaintRekey
    requires forall slot :: slot in s.pipes.pipe ==> slot in s.pipes.blob
    ensures |cs| <= 16
    ensures
      var (s', iter) := (Solo(cfg, s, i, cs), s.ws[i].iter);
      var (q, ok) := Maintained(cfg, s.pipes, iter, draws, answers, loads);
      && |s'.ws| == |s.ws| && s'.pipes == q
      && s'.ws[i].pc == (if ok then P.LoopTop else P.Finishing)
      && s'.ws[i].iter == iter + (if ok then 1 else 0)
      && s'.cycles == s.cycles + (if ok && P.Due(cfg.blobCycleEvery, iter) then 1 else 0)
      && s'.rekeys == s.rekeys +
           (if P.Due(cfg.rekeyEvery, iter) && Rotation(cfg, s.pipes, iter, draws, answers).1 then 1 else 0)
  {
    RotationKeepsBlobs(cfg, s.pipes, s.ws[i].iter, draws, answers);
    hide P.WorkerStep, Solo, Rotation, Reopening, P.Due, RekeyAll;
    cs := RotationBySteps(cfg, s, i, draws, answers);
    if Rotation(cfg, s.pipes, s.ws[i].iter, draws, answers).1 {
      var ds := ReopeningBySteps(cfg, Solo(cfg, s, i, cs), i, loads);
      SoloTwice(cfg, s, i, cs, ds);
      cs := cs + ds;
    }
  }

  lemma RotationBySteps(cfg: P.Config, s: P.State, i: nat, draws: bool, answers: (Answer, Answer))
    returns (cs: seq<P.Choice>)
    requires i < |s.ws| && s.ws[i].pc == P.MaintRekey
    ensures |cs| <= 8
    ensures
      var (s', iter) := (Solo(cfg, s, i, cs), s.ws[i].iter);
      var (q, ok) := Rotation(cfg, s.pipes, iter, draws, answers);
      && |s'.ws| == |s.ws| && s'.pipes == q && s'.ws[i].iter == iter && s'.cycles == s.cycles
      && s'.ws[i].pc == (if ok then P.MaintCycle else P.Finishing)
      && s'.rekeys == s.rekeys + (if P.Due(cfg.rekeyEvery, iter) && ok then 1 else 0)
  {
    hide P.WorkerStep, Solo, RekeyAll, P.Due;
    if P.Due(cfg.rekeyEvery, s.ws[i].iter) {
      cs := RekeyBySteps(cfg, s, i, draws, answers.0, answers.1);
    } else {
      cs := SkipStep(cfg, s, i);
    }
  }

  lemma ReopeningBySteps(cfg: P.Config, s: P.State, i: nat, loads: (bool, bool)) returns (cs: seq<P.Choice>)
    requires i < |s.ws| && s.ws[i].pc == P.MaintCycle
    requires forall slot :: slot in s.pipes.pipe ==> slot in s.pipes.blob
    ensures |cs| <= 8
    ensures
      var (s', iter) := (Solo(cfg, s, i, cs), s.ws[i].iter); var (q, ok) := Reopening(cfg, s.pipes, iter, loads);
      && |s'.ws| == |s.ws| && s'.pipes == q && s'.rekeys == s.rekeys
      && s'.ws[i].pc == (if ok then P.LoopTop else P.Finishing)
      && s'.ws[i].iter == iter + (if ok then 1 else 0)
      && s'.cycles == s.cycles + (if P.Due(cfg.blobCycleEvery, iter) && ok then 1 else 0)
  {
    hide P.WorkerStep, Solo, CycleAll, P.Due;
    if P.Due(cfg.blobCycleEvery, s.ws[i].iter) {
      cs := CycleBySteps(cfg, s, i, loads.0, loads.1);
    } else {
      cs := SkipStep(cfg, s, i);
    }
  }

  lemma RotationKeepsBlobs(cfg: P.Config, p: Pipes, iter: nat, draws: bool, answers: (Answer, Answer))
    requires forall slot :: slot in p.pipe ==> slot in p.blob
    ensures var q := Rotation(cfg, p, iter, draws, answers).0;
      q.pipe == p.pipe && forall slot :: slot in q.pipe ==> slot in q.blob
  {
    RekeyKeepsBlobs(p, answers.0, answers.1);
    hide RekeyAll;
  }

  lemma RekeyKeepsBlobs(p: Pipes, stream: Answer, msg: Answer)
    requires forall slot :: slot in p.pipe ==> slot in p.blob
    ensures var q := RekeyAll(p, stream, msg).0; q.pipe == p.pipe && forall slot :: slot in q.pipe ==> slot in q.blob
  {
  }

  // -------------------------------------------------------- what a step has done

  /** Engaged slots hold distinct allocated handles and have a blob. */
  predicate Engaged(p: Pipes) {
    && (forall slot :: slot in p.pipe ==> p.pipe[slot] in p.live && p.pipe[slot] < p.next && slot in p.blob)
    && (P.StreamSlot in p.pipe && P.MsgSlot in p.pipe ==> p.pipe[P.StreamSlot] != p.pipe[P.MsgSlot])
  }

  predicate AllRekey(p: Pipes, answers: (Answer, Answer)) {
    (P.StreamSlot in p.pipe ==> answers.0.ok) && (P.MsgSlot in p.pipe ==> answers.1.ok)
  }

  predicate AllLoad(p: Pipes, loads: (bool, bool)) {
    (P.StreamSlot in p.pipe ==> loads.0) && (P.MsgSlot in p.pipe ==> loads.1)
  }

  function KeyFor(answers: (Answer, Answer), slot: Slot): P.Key {
    if slot == P.StreamSlot then answers.0.key else answers.1.key
  }

  /** What a maintenance step comes to, said of the handles, the keyings and the blobs
      before and after it. */
  ghost predicate StepDone(cfg: P.Config, p: Pipes, q: Pipes, ok: bool, iter: nat, draws: bool,
                           answers: (Answer, Answer), loads: (bool, bool))
  {
    var (rotate, reopen) := (P.Due(cfg.rekeyEvery, iter), P.Due(cfg.blobCycleEvery, iter));
    && (ok <==> (rotate ==> draws && AllRekey(p, answers)) && (reopen ==> AllLoad(p, loads)))
    && q.pipe.Keys == p.pipe.Keys
    && (reopen && ok ==> forall slot :: slot in p.pipe ==> q.pipe[slot] >= p.next && p.pipe[slot] !in q.live)
    && (!reopen || (rotate && !(draws && AllRekey(p, answers))) ==>
          q.pipe == p.pipe && q.live.Keys == p.live.Keys && q.next == p.next)
    && (rotate && !draws ==> q == p)
    && (rotate && ok ==> forall slot :: slot in p.pipe ==>
          T.KeyingOf(q, slot) == Some(KeyFor(answers, slot)) && slot in q.blob && q.blob[slot] == KeyFor(answers, slot))
    && (!rotate ==> q.blob == p.blob)
    && (!rotate && !reopen ==> q == p)
  }

  lemma RekeyDone(p: Pipes, answers: (Answer, Answer))
    requires Engaged(p)
    ensures var (q, ok) := RekeyAll(p, answers.0, answers.1);
      && Engaged(q) && (ok <==> AllRekey(p, answers))
      && q.pipe == p.pipe && q.live.Keys == p.live.Keys && q.next == p.next
      && (ok ==> forall slot :: slot in p.pipe ==>
            T.KeyingOf(q, slot) == Some(KeyFor(answers, slot)) && q.blob[slot] == KeyFor(answers, slot))
  {
    forall slot | slot in p.pipe ensures slot == P.StreamSlot || slot == P.MsgSlot {
      match slot case StreamSlot => case MsgSlot =>
    }
  }

  /** One slot's reopen: a fresh handle under the blob's key. */
  lemma CycleOneDone(p: Pipes, slot: Slot, ok: bool)
    requires Engaged(p)
    ensures var (q, done) := CycleOne(p, slot, ok);
      && Engaged(q) && q.blob == p.blob && q.pipe.Keys == p.pipe.Keys && p.next <= q.next
      && (done <==> slot in p.pipe ==> ok) && (!done ==> q == p)
      && (forall other :: other in p.pipe && other != slot ==>
            q.pipe[other] == p.pipe[other] && T.KeyingOf(q, other) == T.KeyingOf(p, other))
      && (slot in p.pipe && done ==>
            p.next <= q.pipe[slot] && p.pipe[slot] !in q.live && T.KeyingOf(q, slot) == Some(p.blob[slot]))
      && (forall h :: h < p.next && h !in p.live ==> h !in q.live)
  {
    if slot in p.pipe && ok { OtherHandle(p, slot); }
  }

  lemma OtherHandle(p: Pipes, slot: Slot)
    requires Engaged(p) && slot in p.pipe
    ensures forall other :: other in p.pipe && other != slot ==> p.pipe[other] != p.pipe[slot]
  {
    forall other | other in p.pipe && other != slot ensures p.pipe[other] != p.pipe[slot] {
      match slot case StreamSlot => case MsgSlot =>
    }
  }

  lemma CycleDone(p: Pipes, loads: (bool, bool))
    requires Engaged(p)
    ensures var (q, ok) := CycleAll(p, loads.0, loads.1);
      && (ok <==> AllLoad(p, loads)) && q.pipe.Keys == p.pipe.Keys && q.blob == p.blob
      && (ok ==> forall slot :: slot in p.pipe ==>
            && q.pipe[slot] >= p.next && p.pipe[slot] !in q.live && T.KeyingOf(q, slot) == Some(p.blob[slot]))
  {
    CycleOneDone(p, P.StreamSlot, loads.0);
    var (r, ok) := CycleOne(p, P.StreamSlot, loads.0);
    CycleOneDone(r, P.MsgSlot, loads.1);
    hide CycleOne, T.KeyingOf;
    forall slot | slot in p.pipe ensures slot == P.StreamSlot || slot == P.MsgSlot {
      match slot case StreamSlot => case MsgSlot =>
    }
  }

  lemma MaintainedDone(cfg: P.Config, p: Pipes, iter: nat, draws: bool, answers: (Answer, Answer), loads: (bool, bool))
    requires Engaged(p)
    ensures var (q, ok) := Maintained(cfg, p, iter, draws, answers, loads);
      StepDone(cfg, p, q, ok, iter, draws, answers, loads)
  {
    RotationDone(cfg, p, iter, draws, answers);
    var (q, ok) := Rotation(cfg, p, iter, draws, answers);
    ReopeningDone(cfg, q, iter, loads);
    hide Rotation, Reopening, Engaged, T.KeyingOf, P.Due, AllRekey;
  }

  lemma RotationDone(cfg: P.Config, p: Pipes, iter: nat, draws: bool, answers: (Answer, Answer))
    requires Engaged(p)
    ensures var (q, ok) := Rotation(cfg, p, iter, draws, answers);
      && Engaged(q) && q.pipe == p.pipe && q.live.Keys == p.live.Keys && q.next == p.next
      && (ok <==> P.Due(cfg.rekeyEvery, iter) ==> draws && AllRekey(p, answers))
      && (!P.Due(cfg.rekeyEvery, iter) || !draws ==> q == p)
      && (P.Due(cfg.rekeyEvery, iter) && ok ==> forall slot :: slot in p.pipe ==>
            T.KeyingOf(q, slot) == Some(KeyFor(answers, slot)) && q.blob[slot] == KeyFor(answers, slot))
  {
    RekeyDone(p, answers);
    hide RekeyAll, Engaged, T.KeyingOf, P.Due, AllRekey, KeyFor;
  }

  lemma ReopeningDone(cfg: P.Config, p: Pipes, iter: nat, loads: (bool, bool))
    requires Engaged(p)
    ensures var (q, ok) := Reopening(cfg, p, iter, loads);
      && (ok <==> P.Due(cfg.blobCycleEvery, iter) ==> AllLoad(p, loads))
      && q.pipe.Keys == p.pipe.Keys && q.blob == p.blob && (!P.Due(cfg.blobCycleEvery, iter) ==> q == p)
      && (P.Due(cfg.blobCycleEvery, iter) && ok ==> forall slot :: slot in p.pipe ==>
            && q.pipe[slot] >= p.next && p.pipe[slot] !in q.live && T.KeyingOf(q, slot) == Some(p.blob[slot]))
  {
    CycleDone(p, loads);
    hide CycleAll, Engaged, T.KeyingOf, P.Due, AllLoad;
  }

  // ----------------------------------------------------------------- methods

  /** The lock-guarded part of the run state: the engaged Pipelines, the retained
      blobs, and the counters and flag the operations touch. */
  class RunState {
    const cfg: P.Config
    const lib: H.Library
    var pipes: map<Slot, H.Owner>
    var blobs: map<Slot, P.Key>
    var rekeys: nat
    var blobCycles: nat
    var stop: bool

    constructor (cfg: P.Config, lib: H.Library)
      requires 0 < lib.next && forall h :: h in lib.live ==> 0 < h < lib.next
      ensures Valid()
      ensures this.cfg == cfg && this.lib == lib && pipes == map[] && blobs == map[]
      ensures rekeys == blobCycles == 0 && !stop
    {
      this.cfg, this.lib := cfg, lib;
      pipes, blobs, rekeys, blobCycles, stop := map[], map[], 0, 0, false;
    }

    ghost function Held(): map<Slot, H.Handle>
      reads this`pipes, pipes.Values
    {
      map slot | slot in pipes :: pipes[slot].handle
    }

    /** The abstract state the specification speaks about. */
    ghost function Abs(): Pipes
      reads this`pipes, this`blobs, lib, pipes.Values
    {
      P.Pipes(Held(), blobs, lib.live, lib.next)
    }

    ghost predicate SlotOK(slot: Slot)
      reads this`pipes, this`blobs, lib, pipes.Values
    {
      slot in pipes ==>
        && pipes[slot].lib == lib && slot in blobs
        && pipes[slot].handle in lib.live && 0 < pipes[slot].handle < lib.next
    }

    /** The two Pipelines are distinct owners of distinct live handles. */
    ghost predicate Valid()
      reads this`pipes, this`blobs, lib, pipes.Values
    {
      && 0 < lib.next && (forall h :: h in lib.live ==> 0 < h < lib.next)
      && SlotOK(P.StreamSlot) && SlotOK(P.MsgSlot)
      && (P.StreamSlot in pipes && P.MsgSlot in pipes ==>
            && pipes[P.StreamSlot] != pipes[P.MsgSlot]
            && pipes[P.StreamSlot].handle != pipes[P.MsgSlot].handle)
    }

    lemma StepIsDone(iter: nat, draws: bool, answers: (Answer, Answer), loads: (bool, bool))
      requires Valid()
      ensures var (q, ok) := Maintained(cfg, Abs(), iter, draws, answers, loads);
        StepDone(cfg, Abs(), q, ok, iter, draws, answers, loads)
    {
      AbsEngaged();
      MaintainedDone(cfg, Abs(), iter, draws, answers, loads);
    }

    lemma AbsEngaged()
      requires Valid()
      ensures Engaged(Abs())
    {
      forall slot | slot in pipes ensures SlotOK(slot) {
        match slot case StreamSlot => case MsgSlot =>
      }
    }

    /** build_pipeline: Init, then the Save that hands out the blob to retain; when
        the Save fails the fresh Pipeline is freed again. */
    method Build(slot: Slot, init: Answer, saves: bool) returns (ok: bool)
      requires Valid() && slot !in pipes
      modifies this`pipes, this`blobs, lib
      ensures Valid() && ok == (init.ok && saves)
      ensures ok ==> Abs() == P.Built(old(Abs()), slot, init.key)
      ensures ok ==>
        && pipes.Keys == old(pipes).Keys + {slot} && pipes[slot].handle == old(lib.next)
        && old(lib.next) in lib.live && lib.live[old(lib.next)] == init.key && blobs == old(blobs)[slot := init.key]
      ensures !ok ==>
        pipes == old(pipes) && blobs == old(blobs) && lib.live == old(lib.live) && old(lib.next) <= lib.next
    {
      if !init.ok {
        return false;
      }
      var h := lib.Open(init.key);
      var pipe := new H.Owner(lib, h);
      if !saves {
        ghost var objs := {pipe};
        pipe.Release(objs);
        return false;
      }
      pipes, blobs := pipes[slot := pipe], blobs[slot := init.key];
      assert Held() == old(Held())[slot := h];
      return true;
    }

    /** One Pipeline's rotation: Rekey rewrites the live handle's keying and hands
        out the blob to retain, or changes nothing. */
    method RekeySlot(slot: Slot, a: Answer) returns (ok: bool)
      requires Valid()
      modifies this`blobs, this`stop, lib`live
      ensures Valid()
      ensures (Abs(), ok) == RekeyOne(old(Abs()), slot, a)
      ensures stop == (old(stop) || !ok)
    {
      if slot in pipes {
        assert slot in Abs().pipe;
        if !a.ok {
          stop := true;
          return false;
        }
        lib.live := lib.live[pipes[slot].handle := a.key];
        blobs := blobs[slot := a.key];
      }
      return true;
    }

    /** rekey_pipes, with the write lock held. `perm` and `wrap` tell whether the
        random draws of the two masters succeed. */
    method RekeyPipes(perm: bool, wrap: bool, stream: Answer, msg: Answer) returns (ok: bool)
      requires Valid()
      modifies this`blobs, this`rekeys, this`stop, lib`live
      ensures Valid()
      ensures
        var drawn := (cfg.parallax ==> perm) && (cfg.wrapper ==> wrap);
        (Abs(), ok) == if drawn then RekeyAll(old(Abs()), stream, msg) else (old(Abs()), false)
      ensures rekeys == old(rekeys) + if ok then 1 else 0
      ensures stop == (old(stop) || !ok)
    {
      hide RekeyOne, Valid, Abs, Held, SlotOK;
      if (cfg.parallax && !perm) || (cfg.wrapper && !wrap) {
        stop := true;
        return false;
      }
      ok := RekeySlot(P.StreamSlot, stream);
      if ok {
        ok := RekeySlot(P.MsgSlot, msg);
      }
      if ok {
        rekeys := rekeys + 1;
      }
    }

    /** The swap of a reopen: a fresh Pipeline is loaded from the retained blob and
        move-assigned over the running one, which frees the old handle. */
    method Reopen(slot: Slot)
      requires Valid() && slot in pipes
      modifies lib, pipes[slot]
      ensures pipes[slot].handle == old(lib.next) && lib.next == old(lib.next) + 1
      ensures lib.live == old(lib.live)[old(lib.next) := blobs[slot]] - {old(pipes[slot].handle)}
    {
      assert SlotOK(slot);
      var h := lib.Open(blobs[slot]);
      var loaded := new H.Owner(lib, h);
      ghost var objs := {pipes[slot], loaded};
      pipes[slot].MoveAssign(loaded, objs);
      assert loaded.HandleOK();
      loaded.Release(objs);
    }

    /** One Pipeline's reopen; a failing Load leaves the running one in place. */
    method CycleSlot(slot: Slot, loads: bool) returns (ok: bool)
      requires Valid()
      modifies this`stop, lib, pipes.Values
      ensures Valid()
      ensures (Abs(), ok) == CycleOne(old(Abs()), slot, loads)
      ensures stop == (old(stop) || !ok)
    {
      if slot in pipes {
        if !loads {
          stop := true;
          return false;
        }
        Reopen(slot);
        forall other | other in pipes && other != slot ensures pipes[other] != pipes[slot] {
          match slot case StreamSlot => case MsgSlot =>
        }
        assert Held() == old(Held())[slot := old(lib.next)];
      }
      return true;
    }

    /** blob_cycle_pipes, with the write lock held. */
    method BlobCyclePipes(stream: bool, msg: bool) returns (ok: bool)
      requires Valid()
      modifies this`blobCycles, this`stop, lib, pipes.Values
      ensures Valid()
      ensures (Abs(), ok) == CycleAll(old(Abs()), stream, msg)
      ensures blobCycles == old(blobCycles) + if ok then 1 else 0
      ensures stop == (old(stop) || !ok)
    {
      hide CycleOne, Valid, Abs, Held, SlotOK;
      ok := CycleSlot(P.StreamSlot, stream);
      if ok {
        ok := CycleSlot(P.MsgSlot, msg);
      }
      if ok {
        blobCycles := blobCycles + 1;
      }
    }

    /** The rotation of iteration `iter`, when it is due. */
    method RotateIfDue(iter: nat, perm: bool, wrap: bool, answers: (Answer, Answer)) returns (ok: bool)
      requires Valid()
      modifies this`blobs, this`rekeys, this`stop, lib`live
      ensures Valid()
      ensures (Abs(), ok) == Rotation(cfg, old(Abs()), iter, (cfg.parallax ==> perm) && (cfg.wrapper ==> wrap), answers)
      ensures rekeys == old(rekeys) + if ok && P.Due(cfg.rekeyEvery, iter) then 1 else 0
      ensures stop == (old(stop) || !ok)
    {
      hide RekeyAll, Valid, Abs, Held, SlotOK;
      ok := true;
      if 0 < cfg.rekeyEvery && iter % cfg.rekeyEvery == 0 {
        ok := RekeyPipes(perm, wrap, answers.0, answers.1);
      }
    }

    /** The reopen of iteration `iter`, when it is due. */
    method ReopenIfDue(iter: nat, loads: (bool, bool)) returns (ok: bool)
      requires Valid()
      modifies this`blobCycles, this`stop, lib, pipes.Values
      ensures Valid()
      ensures (Abs(), ok) == Reopening(cfg, old(Abs()), iter, loads)
      ensures blobCycles == old(blobCycles) + if ok && P.Due(cfg.blobCycleEvery, iter) then 1 else 0
      ensures stop == (old(stop) || !ok)
    {
      hide CycleAll, Valid, Abs, Held, SlotOK;
      ok := true;
      if 0 < cfg.blobCycleEvery && iter % cfg.blobCycleEvery == 0 {
        ok := BlobCyclePipes(loads.0, loads.1);
      }
    }

    /** worker_maintenance for iteration `iter`. */
    method WorkerMaintenance(iter: nat, perm: bool, wrap: bool, answers: (Answer, Answer), loads: (bool, bool))
      returns (ok: bool)
      requires Valid()
      modifies this, lib, pipes.Values
      ensures Valid() && pipes == old(pipes)
      ensures
        var drawn := (cfg.parallax ==> perm) && (cfg.wrapper ==> wrap);
        (Abs(), ok) == Maintained(cfg, old(Abs()), iter, drawn, answers, loads)
      ensures stop == (old(stop) || !ok)
      ensures var rotated := P.Due(cfg.rekeyEvery, iter)
                && Rotation(cfg, old(Abs()), iter, (cfg.parallax ==> perm) && (cfg.wrapper ==> wrap), answers).1;
        rekeys == old(rekeys) + if rotated then 1 else 0
      ensures blobCycles == old(blobCycles) + if ok && P.Due(cfg.blobCycleEvery, iter) then 1 else 0
      ensures
        var drawn := (cfg.parallax ==> perm) && (cfg.wrapper ==> wrap);
        StepDone(cfg, old(Abs()), Abs(), ok, iter, drawn, answers, loads)
    {
      StepIsDone(iter, (cfg.parallax ==> perm) && (cfg.wrapper ==> wrap), answers, loads);
      hide P.Due, Rotation, Reopening, Valid, Abs, Held, SlotOK, StepDone;
      ok := RotateIfDue(iter, perm, wrap, answers);
      if ok {
        ok := ReopenIfDue(iter, loads);
      }
    }
  }
}
