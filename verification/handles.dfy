/**
  Ownership of library handles by move-only objects (Pipeline and Stream): the
  ledger of who holds what, every sequence of operations on it, and the class
  whose methods carry those operations out.
  */
module Handles {
  import opened Base

  type Handle = nat

  // ----------------------------------------------------------------- ledger

  /** `held` gives each existing object its handle, 0 for none; `freed` counts
      the releases of every handle. */
  datatype Ledger<!O(==)> = Ledger(
    held: map<O, Handle>, live: set<Handle>, freed: multiset<Handle>, next: Handle)

  /** Each live handle has exactly one owner; every handle handed out so far is
      either live and never freed, or freed once. */
  ghost predicate Sound<O>(s: Ledger<O>) {
    && 0 < s.next
    && (forall o :: o in s.held && s.held[o] != 0 ==> s.held[o] in s.live)
    && (forall o, o' :: o in s.held && o' in s.held && o != o' && s.held[o] == s.held[o'] ==> s.held[o] == 0)
    && (forall h :: h in s.live ==> 0 < h < s.next && exists o :: o in s.held && s.held[o] == h)
    && (forall h :: s.freed[h] == if 0 < h < s.next && h !in s.live then 1 else 0)
  }

  /** The operations of the two classes. `Release` is Stream::close; `Use` is any
      library call on the object's handle. */
  datatype Op<O> =
    | Acquire(o: O) | MoveConstruct(o: O, from: O) | MoveAssign(o: O, from: O)
    | Release(o: O) | Use(o: O) | Destroy(o: O)

  predicate Legal<O(==)>(s: Ledger<O>, op: Op<O>) {
    match op
    case Acquire(o) => o !in s.held
    case MoveConstruct(o, from) => o !in s.held && from in s.held
    case MoveAssign(o, from) => o in s.held && from in s.held
    case Release(o) => o in s.held
    case Use(o) => o in s.held
    case Destroy(o) => o in s.held
  }

  function Freed<O(==)>(s: Ledger<O>, h: Handle): Ledger<O> {
    if h == 0 then s else s.(live := s.live - {h}, freed := s.freed + multiset{h})
  }

  function Step<O(==)>(s: Ledger<O>, op: Op<O>): Ledger<O>
    requires Legal(s, op)
  {
    match op
    case Acquire(o) => s.(held := s.held[o := s.next], live := s.live + {s.next}, next := s.next + 1)
    case MoveConstruct(o, from) => s.(held := s.held[o := s.held[from]][from := 0])
    case MoveAssign(o, from) =>
      if o == from then s else Freed(s, s.held[o]).(held := s.held[o := s.held[from]][from := 0])
    case Release(o) => Freed(s, s.held[o]).(held := s.held[o := 0])
    case Use(o) => s
    case Destroy(o) => Freed(s, s.held[o]).(held := s.held - {o})
  }

  /** The handle an operation hands to the library, 0 when it makes no call. */
  function Called<O(==)>(s: Ledger<O>, op: Op<O>): Handle
    requires Legal(s, op)
  {
    match op
    case Acquire(_) => 0
    case MoveConstruct(_, _) => 0
    case MoveAssign(o, from) => if o == from then 0 else s.held[o]
    case Release(o) => s.held[o]
    case Use(o) => s.held[o]
    case Destroy(o) => s.held[o]
  }

  lemma AcquireSound<O>(s: Ledger<O>, o: O)
    requires Sound(s) && o !in s.held
    ensures Sound(Step(s, Acquire(o)))
  {
    var s' := Step(s, Acquire(o));
    forall h | h in s'.live ensures exists q :: q in s'.held && s'.held[q] == h {
      if h == s.next {
        assert s'.held[o] == h;
      } else {
        var q :| q in s.held && s.held[q] == h;
        assert s'.held[q] == h;
      }
    }
  }

  /** Handing a handle over to an object that has none. */
  lemma MoveSound<O>(s: Ledger<O>, o: O, from: O)
    requires Sound(s) && from in s.held && o != from && (o in s.held ==> s.held[o] == 0)
    ensures Sound(s.(held := s.held[o := s.held[from]][from := 0]))
  {
    var s' := s.(held := s.held[o := s.held[from]][from := 0]);
    forall h | h in s'.live ensures exists q :: q in s'.held && s'.held[q] == h {
      var q :| q in s.held && s.held[q] == h;
      assert s'.held[if q == from then o else q] == h;
    }
  }

  lemma ReleaseSound<O>(s: Ledger<O>, o: O)
    requires Sound(s) && o in s.held
    ensures Sound(Step(s, Release(o)))
  {
    var s' := Step(s, Release(o));
    forall h | h in s'.live ensures exists q :: q in s'.held && s'.held[q] == h {
      var q :| q in s.held && s.held[q] == h;
      assert s'.held[q] == h;
    }
  }

  lemma DropSound<O>(s: Ledger<O>, o: O)
    requires Sound(s) && o in s.held && s.held[o] == 0
    ensures Sound(s.(held := s.held - {o}))
  {
    var s' := s.(held := s.held - {o});
    forall h | h in s'.live ensures exists q :: q in s'.held && s'.held[q] == h {
      var q :| q in s.held && s.held[q] == h;
      assert q in s'.held;
    }
  }

  lemma StepSound<O>(s: Ledger<O>, op: Op<O>)
    requires Sound(s) && Legal(s, op)
    ensures Sound(Step(s, op))
    ensures Called(s, op) == 0 || Called(s, op) in s.live
  {
    match op
    case Acquire(o) => AcquireSound(s, o);
    case MoveConstruct(o, from) => MoveSound(s, o, from);
    case MoveAssign(o, from) =>
      if o != from {
        ReleaseSound(s, o);
        var r := Step(s, Release(o));
        MoveSound(r, o, from);
        assert r.held[o := r.held[from]] == s.held[o := s.held[from]];
      }
    case Release(o) => ReleaseSound(s, o);
    case Use(_) =>
    case Destroy(o) =>
      ReleaseSound(s, o);
      var r := Step(s, Release(o));
      DropSound(r, o);
      assert r.held - {o} == s.held - {o};
  }

  predicate AllLegal<O(==)>(s: Ledger<O>, ops: seq<Op<O>>)
    decreases |ops|
  {
    ops == [] || (Legal(s, ops[0]) && AllLegal(Step(s, ops[0]), ops[1..]))
  }

  function Steps<O(==)>(s: Ledger<O>, ops: seq<Op<O>>): Ledger<O>
    requires AllLegal(s, ops)
    decreases |ops|
  {
    if ops == [] then s else Steps(Step(s, ops[0]), ops[1..])
  }

  /** Along any sequence of operations no handle has two owners, none is freed
      twice, and every handle passed to the library is live at that moment. */
  lemma {:induction false} AnySequenceSound<O>(s: Ledger<O>, ops: seq<Op<O>>, k: nat)
    requires Sound(s) && AllLegal(s, ops)
    ensures Sound(Steps(s, ops))
    ensures k < |ops| ==>
      && AllLegal(s, ops[..k]) && Legal(Steps(s, ops[..k]), ops[k])
      && var now := Steps(s, ops[..k]);
      Called(now, ops[k]) == 0 || Called(now, ops[k]) in now.live
    decreases |ops|
  {
    if ops == [] {
    } else {
      StepSound(s, ops[0]);
      AnySequenceSound(Step(s, ops[0]), ops[1..], if k == 0 then 0 else k - 1);
      if 0 < k < |ops| {
        assert ops[..k][1..] == ops[1..][..k - 1];
      }
    }
  }

  /** Once every object is gone, each handle handed out was freed exactly once. */
  lemma AllFreedOnce<O>(s: Ledger<O>, ops: seq<Op<O>>, h: Handle)
    requires Sound(s) && AllLegal(s, ops) && Steps(s, ops).held == map[]
    requires 0 < h < Steps(s, ops).next
    ensures Steps(s, ops).live == {} && Steps(s, ops).freed[h] == 1
  {
    AnySequenceSound(s, ops, 0);
  }

  // ---------------------------------------------------------------- objects

  /** The library's table of handles, each with its current keying. `freed` is
      its history of releases. */
  class Library {
    var live: map<Handle, nat>
    var next: Handle
    ghost var freed: multiset<Handle>

    constructor ()
      ensures live == map[] && next == 1 && freed == multiset{}
    {
      live, next, freed := map[], 1, multiset{};
    }

    /** A fresh handle under `keying`. */
    method Open(keying: nat) returns (h: Handle)
      modifies this
      ensures h == old(next) && next == old(next) + 1 && live == old(live)[h := keying] && freed == old(freed)
    {
      h := next;
      live, next := live[h := keying], next + 1;
    }

    /** A release: only a live handle may be handed in. */
    method Free(h: Handle)
      requires h in live
      modifies this`live, this`freed
      ensures live == old(live) - {h} && freed == old(freed) + multiset{h}
    {
      live := live - {h};
      freed := freed + multiset{h};
    }
  }

  /** What a set of owners and their library come to on the ledger. */
  ghost function Snapshot(lib: Library, objs: set<Owner>): Ledger<Owner>
    reads lib, objs
  {
    Ledger(map o | o in objs :: o.handle, lib.live.Keys, lib.freed, lib.next)
  }

  lemma SoundHandleOK(lib: Library, objs: set<Owner>, o: Owner)
    requires Sound(Snapshot(lib, objs)) && o in objs && o.lib == lib
    ensures o.HandleOK()
  {
    var s := Snapshot(lib, objs);
    assert o in s.held && s.held[o] == o.handle;
  }

  /** A move-only owner of one library handle: Pipeline, and Stream. `objs` is the
      set of owners in existence. */
  class Owner {
    const lib: Library
    var handle: Handle

    /** No handle, or a live one: what a sound ledger says of every owner. */
    ghost predicate HandleOK()
      reads this, lib
    {
      0 !in lib.live && (handle == 0 || handle in lib.live)
    }

    constructor (lib: Library, h: Handle)
      ensures this.lib == lib && handle == h
    {
      this.lib, this.handle := lib, h;
    }

    constructor MoveFrom(other: Owner, ghost objs: set<Owner>)
      requires other in objs
      modifies other`handle
      ensures lib == other.lib && handle == old(other.handle) && other.handle == 0
      ensures this !in objs
      ensures Snapshot(lib, objs + {this}) == Step(old(Snapshot(other.lib, objs)), MoveConstruct(this, other))
    {
      lib, handle := other.lib, other.handle;
      new;
      other.handle := 0;
    }

    /** The destructor of both classes, and Stream::close. */
    method Release(ghost objs: set<Owner>)
      requires this in objs && HandleOK()
      modifies this`handle, lib`live, lib`freed
      ensures Snapshot(lib, objs) == Step(old(Snapshot(lib, objs)), Op.Release(this))
      ensures handle == 0 && lib.live == old(lib.live) - {old(handle)}
    {
      if handle != 0 {
        lib.Free(handle);
        handle := 0;
      }
    }

    method MoveAssign(other: Owner, ghost objs: set<Owner>)
      requires this in objs && other in objs && other.lib == lib && HandleOK()
      modifies this`handle, other`handle, lib`live, lib`freed
      ensures Snapshot(lib, objs) == Step(old(Snapshot(lib, objs)), Op.MoveAssign(this, other))
      ensures this != other ==> handle == old(other.handle) && other.handle == 0
      ensures lib.live == if this == other then old(lib.live) else old(lib.live) - {old(handle)}
    {
      if this != other {
        ghost var s := Snapshot(lib, objs);
        Release(objs);
        handle := other.handle;
        other.handle := 0;
        assert Snapshot(lib, objs).held == s.held[this := s.held[other]][other := 0];
      }
    }
  }

  /** The destructors at the end of a scope: whatever moves went before, no handle is
      left live and each one handed out has been freed exactly once. */
  method DestroyAll(lib: Library, owners: seq<Owner>, ghost objs: set<Owner>)
    requires objs == (set o | o in owners) && (forall o :: o in objs ==> o.lib == lib)
    requires Sound(Snapshot(lib, objs))
    modifies objs, lib`live, lib`freed
    ensures Sound(Snapshot(lib, objs)) && lib.live == map[] && lib.next == old(lib.next)
    ensures forall o :: o in objs ==> o.handle == 0
    ensures forall h :: 0 < h < lib.next ==> lib.freed[h] == 1
  {
    hide Sound, Step, Snapshot;
    for i := 0 to |owners|
      invariant Sound(Snapshot(lib, objs)) && lib.next == old(lib.next)
      invariant forall j :: 0 <= j < i ==> owners[j].handle == 0
    {
      var o := owners[i];
      ghost var s := Snapshot(lib, objs);
      SoundHandleOK(lib, objs, o);
      LegalRelease(lib, objs, o);
      StepSound(s, Op.Release(o));
      o.Release(objs);
    }
    NothingHeld(lib, objs);
  }

  lemma NothingHeld(lib: Library, objs: set<Owner>)
    requires Sound(Snapshot(lib, objs)) && forall o :: o in objs ==> o.handle == 0
    ensures lib.live == map[] && forall h :: 0 < h < lib.next ==> lib.freed[h] == 1
  {
    var s := Snapshot(lib, objs);
    assert forall o :: o in s.held ==> s.held[o] == 0;
    assert s.live == {};
    assert lib.live.Keys == {};
    assert forall h :: 0 < h < lib.next ==> s.freed[h] == 1;
  }

  lemma LegalRelease(lib: Library, objs: set<Owner>, o: Owner)
    requires o in objs
    ensures Legal(Snapshot(lib, objs), Op.Release(o))
  {
  }
}
