/**
  Calls that fill a caller's buffer: the retry at the reported size, and the
  single call into a buffer the caller sized.
  */
module Retry {
  import opened Base
  import opened PumpAlloc

  type Bytes = seq<Byte>

  const TOO_SMALL: int := 5
  const INTERNAL: int := 99
  const BLOB_CAP: nat := 65536

  /** How the library answers one call: with an output, with an error status, or
      with success and a count `excess` + 1 beyond the buffer. An output that does
      not fit is answered by the too-small status and its length. */
  datatype Behaviour = Gives(out: Bytes) | Refuses(rc: int) | Overclaims(excess: nat)

  predicate Sensible(b: Behaviour) {
    b.Refuses? ==> b.rc != 0
  }

  datatype Outcome = Got(bytes: Bytes) | Err(rc: int)

  /** The library entry; its k-th call behaves as the k-th behaviour says. */
  class Callee {
    const plan: nat -> Behaviour
    var calls: nat

    constructor (plan: nat -> Behaviour)
      ensures this.plan == plan && calls == 0
    {
      this.plan, calls := plan, 0;
    }

    /** Never writes past the buffer it is given. */
    method Call(out: array<Byte>) returns (rc: int, n: nat)
      modifies this, out
      ensures calls == old(calls) + 1
      ensures match plan(old(calls))
        case Gives(b) =>
          && n == |b| && rc == (if |b| <= out.Length then 0 else TOO_SMALL)
          && (rc == 0 ==> out[..n] == b && out[n..] == old(out[n..]))
        case Refuses(e) => rc == e && n == 0
        case Overclaims(x) => rc == 0 && n == out.Length + 1 + x
    {
      var b := plan(calls);
      calls := calls + 1;
      match b
      case Gives(bytes) =>
        if |bytes| > out.Length {
          return TOO_SMALL, |bytes|;
        }
        forall k | 0 <= k < |bytes| {
          out[k] := bytes[k];
        }
        return 0, |bytes|;
      case Refuses(e) => return e, 0;
      case Overclaims(x) => return 0, out.Length + 1 + x;
    }
  }

  /** What one call into a buffer of `cap` bytes comes to. */
  function Single(b: Behaviour, cap: nat): Outcome {
    match b
    case Gives(out) => if |out| <= cap then Got(out) else Err(TOO_SMALL)
    case Refuses(rc) => Err(rc)
    case Overclaims(_) => Err(INTERNAL)
  }

  predicate Outgrows(b: Behaviour, cap: nat) {
    b.Gives? && cap < |b.out|
  }

  /** What a call with one retry comes to: an output exactly when the deciding call
      gives one, and a second call has not outgrown the size first reported. */
  function Retried(first: Behaviour, second: Behaviour, cap: nat): (r: Outcome)
    requires Sensible(first) && Sensible(second)
    ensures r.Got? <==>
      first.Gives? && (|first.out| <= cap || (second.Gives? && |second.out| <= |first.out|))
    ensures r.Got? ==> r.bytes == if |first.out| <= cap then first.out else second.out
    ensures first.Refuses? ==> r == Err(first.rc)
    ensures first.Overclaims? ==> r == Err(99)
    ensures first.Gives? && cap < |first.out| ==>
      && (second.Refuses? ==> r == Err(second.rc)) && (second.Overclaims? ==> r == Err(99))
      && (second.Gives? && |first.out| < |second.out| ==> r == Err(5))
  {
    if Outgrows(first, cap) then Single(second, |first.out|) else Single(first, cap)
  }

  /** Shared shape of buf_call and cipher_call: an output larger than the buffer
      is asked for once more, in a buffer of exactly the reported size. */
  method RetryOnce(callee: Callee, cap0: nat) returns (r: Outcome)
    requires forall k :: Sensible(callee.plan(k))
    modifies callee
    ensures var k := old(callee.calls);
      && r == Retried(callee.plan(k), callee.plan(k + 1), cap0)
      && callee.calls == if Outgrows(callee.plan(k), cap0) then k + 2 else k + 1
  {
    var cap := cap0;
    var buf := new Byte[cap](_ => 0);
    var rc, n := callee.Call(buf);
    if rc == TOO_SMALL && n > cap {
      cap := n;
      buf := new Byte[cap](_ => 0);
      rc, n := callee.Call(buf);
    }
    if rc != 0 {
      return Err(rc);
    }
    if n > cap {
      return Err(INTERNAL);
    }
    return Got(buf[..n]);
  }

  /** buf_call: the buffer-returning entries start from 64 KiB. */
  method BufCall(callee: Callee) returns (r: Outcome)
    requires forall k :: Sensible(callee.plan(k))
    modifies callee
    ensures var k := old(callee.calls);
      && r == Retried(callee.plan(k), callee.plan(k + 1), 65536)
      && callee.calls == if callee.plan(k).Gives? && 65536 < |callee.plan(k).out| then k + 2 else k + 1
  {
    r := RetryOnce(callee, BLOB_CAP);
  }

  /** cipher_call: the Single Message entries start from the expansion bound of
      their input, so an output no longer than its input takes one call. */
  method CipherCall(callee: Callee, src: Bytes) returns (r: Outcome)
    requires |src| < WRAP && forall k :: Sensible(callee.plan(k))
    modifies callee
    ensures var k := old(callee.calls);
      && r == Retried(callee.plan(k), callee.plan(k + 1), OutCap(|src|))
      && callee.calls == (if Outgrows(callee.plan(k), OutCap(|src|)) then k + 2 else k + 1)
      && (callee.plan(k).Gives? && |callee.plan(k).out| <= |src| ==> callee.calls == k + 1)
  {
    OutCapExact(|src|);
    r := RetryOnce(callee, OutCap(|src|));
  }

  /** cipher_call_into: one call, no retry, and nothing past the output written. */
  method CipherCallInto(callee: Callee, dst: array<Byte>) returns (r: Outcome)
    requires forall k :: Sensible(callee.plan(k))
    modifies callee, dst
    ensures callee.calls == old(callee.calls) + 1
    ensures match callee.plan(old(callee.calls))
      case Gives(out) => r == if |out| <= dst.Length then Got(out) else Err(5)
      case Refuses(rc) => r == Err(rc)
      case Overclaims(_) => r == Err(99)
    ensures r.Got? ==> |r.bytes| <= dst.Length && dst[..|r.bytes|] == r.bytes
    ensures r.Got? ==> dst[|r.bytes|..] == old(dst[..])[|r.bytes|..]
  {
    var rc, n := callee.Call(dst);
    if rc != 0 {
      return Err(rc);
    }
    if n > dst.Length {
      return Err(INTERNAL);
    }
    return Got(dst[..n]);
  }
}
