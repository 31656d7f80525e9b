/**
  An incremental stream session as the library presents it: bytes go in by
  write, produced bytes come out by read, production between calls is up to the
  session, and errors are sticky.
  */
module Sessions {
  import opened Base

  type Bytes = seq<Byte>

  /** How one call behaves: as promised, with an error status, or (a read only)
      with a drain count beyond the buffer. */
  datatype Fault = Sound | Refused | Overreport

  /** The whole output a session will produce, how many further bytes its k-th
      read finds produced, and how its k-th call behaves. */
  datatype Plan = Plan(total: Bytes, grow: nat -> nat, fault: nat -> Fault)

  /** Some call of the session's life does not behave as promised. */
  ghost predicate Faulty(plan: Plan) {
    exists k :: plan.fault(k) != Sound
  }

  /** The calls of a session's life. */
  datatype Stage = AtBegin | AtWrite | AtRead | AtEnd

  datatype StreamRead = StreamRead(n: nat, finished: bool)

  function Min(a: nat, b: nat): nat { if a <= b then a else b }
  function Max(a: nat, b: nat): nat { if a <= b then b else a }

  /** What `k` reads before end find produced in all. */
  function Produced(plan: Plan, k: nat): nat {
    if k == 0 then 0 else Min(|plan.total|, Produced(plan, k - 1) + plan.grow(k - 1))
  }

  lemma {:induction false} ProducedGrows(plan: Plan, j: nat, k: nat)
    requires j <= k
    ensures Produced(plan, j) <= Produced(plan, k) <= |plan.total|
    decreases k
  {
    if k == 0 {
    } else if j < k {
      ProducedGrows(plan, j, k - 1);
    } else {
      ProducedGrows(plan, k - 1, k - 1);
    }
  }

  class Session {
    const plan: Plan
    var accepted: Bytes
    var made: nat
    var taken: nat
    var drains: nat
    var calls: nat
    var ended: bool
    var failed: bool
    var largestWrite: nat
    ghost var last: Stage

    constructor (plan: Plan)
      ensures this.plan == plan && Fresh()
    {
      this.plan := plan;
      accepted, made, taken, drains, calls, ended, failed, largestWrite := [], 0, 0, 0, 0, false, false, 0;
      last := AtBegin;
    }

    ghost predicate Fresh()
      reads this
    {
      last == AtBegin && accepted == [] && made == taken == drains == calls == largestWrite == 0 && !ended && !failed
    }

    predicate Valid()
      reads this
    {
      taken <= made <= |plan.total| && (!ended ==> made == Produced(plan, drains))
    }

    /** Feeds `src`; a write after end is refused. */
    method Write(src: Bytes) returns (ok: bool)
      requires Valid()
      modifies this
      ensures Valid() && ok == !failed && (old(failed) ==> failed)
      ensures failed ==> old(failed) || old(ended) || Faulty(plan)
      ensures made == old(made) && taken == old(taken) && drains == old(drains) && ended == old(ended)
      ensures accepted == if ok then old(accepted) + src else old(accepted)
      ensures largestWrite == Max(old(largestWrite), |src|) && last == AtWrite
    {
      last := AtWrite;
      failed := failed || ended || plan.fault(calls) != Sound;
      calls := calls + 1;
      largestWrite := Max(largestWrite, |src|);
      if !failed {
        accepted := accepted + src;
      }
      return !failed;
    }

    /** Signals end of input. */
    method End() returns (ok: bool)
      requires Valid()
      modifies this
      ensures Valid() && ok == !failed && (old(failed) ==> failed) && (ok ==> ended)
      ensures failed ==> old(failed) || Faulty(plan)
      ensures made == old(made) && taken == old(taken) && drains == old(drains)
      ensures accepted == old(accepted) && largestWrite == old(largestWrite) && last == AtEnd
      ensures !ok ==> ended == old(ended)
    {
      last := AtEnd;
      failed := failed || plan.fault(calls) != Sound;
      calls := calls + 1;
      if !failed {
        ended := true;
      }
      return !failed;
    }

    /** Copies the next `n` produced bytes to `dst[off..]`. */
    method Deliver(dst: array<Byte>, off: nat, n: nat)
      requires off + n <= dst.Length && taken + n <= |plan.total|
      modifies dst
      ensures dst[..off] == old(dst[..off])
      ensures dst[off..off + n] == plan.total[taken..taken + n]
    {
      forall k | 0 <= k < n {
        dst[off + k] := plan.total[taken + k];
      }
    }

    /** Drains produced bytes into `dst[off..]`.  Before end an empty spool yields
        nothing; after end the read blocks until there is progress to report, and
        `finished` comes with the last bytes. */
    method Read(dst: array<Byte>, off: nat) returns (r: Option<StreamRead>)
      requires Valid() && off < dst.Length
      modifies this, dst
      ensures Valid() && (old(failed) ==> failed) && (failed ==> old(failed) || Faulty(plan))
      ensures accepted == old(accepted) && ended == old(ended) && largestWrite == old(largestWrite) && last == AtRead
      ensures dst[..off] == old(dst[..off])
      ensures failed ==> taken == old(taken) && (r == None || r.value.n > dst.Length - off)
      ensures failed && r != None ==> exists k :: plan.fault(k) == Overreport
      ensures !failed ==>
        && r.Some? && drains == old(drains) + 1
        && var room := dst.Length - off;
        && old(made) <= made && old(taken) <= made
        && r.value.n == Min(made - old(taken), room) && taken == old(taken) + r.value.n
        && dst[off..off + r.value.n] == plan.total[old(taken)..taken]
        && (r.value.finished <==> ended && taken == |plan.total|)
        && (ended ==> 0 < r.value.n || r.value.finished)
    {
      last := AtRead;
      var fault := plan.fault(calls);
      failed := failed || fault != Sound;
      calls := calls + 1;
      if failed {
        if fault == Overreport {
          return Some(StreamRead(dst.Length - off + 1, false));
        }
        return None;
      }
      r := Drain(dst, off);
    }

    /** A read that errs in no way. */
    method Drain(dst: array<Byte>, off: nat) returns (r: Option<StreamRead>)
      requires Valid() && !failed && off < dst.Length
      modifies this, dst
      ensures Valid() && !failed
      ensures accepted == old(accepted) && ended == old(ended) && largestWrite == old(largestWrite)
      ensures last == old(last) && dst[..off] == old(dst[..off])
      ensures r.Some? && drains == old(drains) + 1
      ensures
        && var room := dst.Length - off;
        && old(made) <= made && old(taken) <= made && r.value.n == Min(made - old(taken), room)
        && taken == old(taken) + r.value.n
        && dst[off..off + r.value.n] == plan.total[old(taken)..taken]
        && (r.value.finished <==> ended && taken == |plan.total|)
        && (ended ==> 0 < r.value.n || r.value.finished)
    {
      var ready := if ended && made == taken then made + 1 else made;
      made := Min(|plan.total|, ready + plan.grow(drains));
      drains := drains + 1;
      var n := Min(made - taken, dst.Length - off);
      Deliver(dst, off, n);
      taken := taken + n;
      return Some(StreamRead(n, ended && taken == |plan.total|));
    }
  }
}
