/**
  The allocating pump: capacity arithmetic on 64-bit sizes, and the retry on a
  fresh session with a doubled buffer.
  */
module PumpAlloc {
  import opened Base
  import opened Sessions
  import opened Pump

  const WRAP: nat := 0x1_0000_0000_0000_0000
  const SIZE_MAX: nat := WRAP - 1
  const FLOOR: nat := 131072

  type Size = n: nat | n < WRAP

  /** out_cap, in wrapping 64-bit arithmetic. */
  function OutCap(payload: Size): Size {
    var cap := (payload + payload / 4) % WRAP;
    if cap < payload || (cap + FLOOR) % WRAP < cap then payload
    else
      var cap' := (cap + FLOOR) % WRAP;
      if cap' > FLOOR then cap' else FLOOR
  }

  /** The wraparound tests are exact: the capacity is five quarters of the payload
      plus the floor whenever that is representable, and the payload otherwise. */
  lemma OutCapExact(payload: Size)
    ensures OutCap(payload) ==
      if payload + payload / 4 + 131072 < 0x1_0000_0000_0000_0000 then payload + payload / 4 + 131072 else payload
    ensures payload <= OutCap(payload)
  {
    if payload + payload / 4 < WRAP {
      assert (payload + payload / 4) % WRAP == payload + payload / 4;
    } else {
      assert (payload + payload / 4) % WRAP == payload + payload / 4 - WRAP;
    }
  }

  /** The Pipeline sessions are begun on: the k-th begin of its life succeeds or
      not, and yields a session with the k-th plan. */
  class Host {
    const plans: nat -> Plan
    const begins: nat -> bool
    var begun: nat
    var open: nat
    var peak: nat

    constructor (plans: nat -> Plan, begins: nat -> bool)
      ensures this.plans == plans && this.begins == begins && begun == open == peak == 0
    {
      this.plans, this.begins := plans, begins;
      begun, open, peak := 0, 0, 0;
    }

    method Begin() returns (session: Option<Session>)
      modifies this
      ensures begun == old(begun) + 1
      ensures session.Some? <==> begins(old(begun))
      ensures session.Some? ==>
        && fresh(session.value) && session.value.Fresh() && session.value.plan == plans(old(begun))
        && open == old(open) + 1 && peak == Max(old(peak), open)
      ensures session == None ==> open == old(open) && peak == old(peak)
    {
      begun := begun + 1;
      if !begins(begun - 1) {
        return None;
      }
      open := open + 1;
      peak := Max(peak, open);
      var s := new Session(plans(begun - 1));
      return Some(s);
    }

    /** The session's destructor. */
    method Free()
      requires 0 < open
      modifies this`open
      ensures open == old(open) - 1
    {
      open := open - 1;
    }
  }

  datatype AllocResult = Produced(bytes: Bytes) | OutOfSpace | Failed

  /** What the retries come to, when no call errs: `cap` is the capacity of this
      attempt, `first` the number of its session. */
  function Retried(plans: nat -> Plan, first: nat, len: nat, cap: nat, attempt: nat): AllocResult
    requires attempt <= 2
    decreases 2 - attempt
  {
    if Fits(plans(first), len, cap) then Produced(plans(first).total)
    else if attempt == 2 || cap > SIZE_MAX / 2 then OutOfSpace
    else Retried(plans, first + 1, len, 2 * cap, attempt + 1)
  }

  /** One attempt: a buffer, a fresh session, one pump; the session is freed on
      every way out, errors included. */
  method Attempt(host: Host, src: Bytes, cap: nat) returns (r: AllocResult)
    modifies host
    ensures host.begun == old(host.begun) + 1
    ensures host.open == old(host.open) && host.peak <= Max(old(host.peak), old(host.open) + 1)
    ensures var plan := host.plans(old(host.begun));
      && (r == Failed ==> !host.begins(old(host.begun)) || Faulty(plan))
      && (r != Failed ==> r == if Fits(plan, |src|, cap) then Produced(plan.total) else OutOfSpace)
  {
    hide Fits;
    var buf := new Byte[cap];
    var session := host.Begin();
    if session == None {
      return Failed;
    }
    var n := PumpInto(session.value, src, buf);
    host.Free();
    match n
    case Done(k) =>
      r := Produced(buf[..k]);
    case Error =>
      r := Failed;
    case TooSmall =>
      r := OutOfSpace;
  }

  /** pump_alloc: at most three sessions, one at a time; it fails only when a begin
      is refused or the session it failed on misbehaves. */
  method PumpAlloc(host: Host, src: Bytes) returns (r: AllocResult)
    requires |src| < WRAP
    modifies host
    ensures old(host.begun) < host.begun <= old(host.begun) + 3
    ensures host.open == old(host.open) && host.peak <= Max(old(host.peak), old(host.open) + 1)
    ensures r != Failed ==> r == Retried(host.plans, old(host.begun), |src|, OutCap(|src|), 0)
    ensures r == Failed ==> !host.begins(host.begun - 1) || Faulty(host.plans(host.begun - 1))
    ensures r.Produced? ==> r.bytes == host.plans(host.begun - 1).total
  {
    hide Fits, OutCap, Faulty;
    var cap: Size := OutCap(|src|);
    var attempt := 0;
    while true
      invariant attempt <= 2 && host.begun == old(host.begun) + attempt
      invariant host.open == old(host.open) && host.peak <= Max(old(host.peak), old(host.open) + 1)
      invariant Retried(host.plans, host.begun, |src|, cap, attempt)
             == Retried(host.plans, old(host.begun), |src|, OutCap(|src|), 0)
      decreases 2 - attempt
    {
      r := Attempt(host, src, cap);
      if r != OutOfSpace || attempt >= 2 || cap > SIZE_MAX / 2 {
        return;
      }
      cap := cap * 2;
      attempt := attempt + 1;
    }
  }

  /** The three attempts: at the bound, twice and four times that, as long as doubling
      does not overflow. */
  lemma ThreeAttempts(plans: nat -> Plan, first: nat, len: nat, cap: Size)
    ensures Retried(plans, first, len, cap, 0) ==
      if Fits(plans(first), len, cap) then Produced(plans(first).total)
      else if cap >= 0x8000_0000_0000_0000 then OutOfSpace
      else if Fits(plans(first + 1), len, 2 * cap) then Produced(plans(first + 1).total)
      else if cap >= 0x4000_0000_0000_0000 then OutOfSpace
      else if Fits(plans(first + 2), len, 4 * cap) then Produced(plans(first + 2).total)
      else OutOfSpace
  {
    hide Fits;
    assert Retried(plans, first + 2, len, 4 * cap, 2) ==
      if Fits(plans(first + 2), len, 4 * cap) then Produced(plans(first + 2).total) else OutOfSpace;
  }

  /** The capacity of the last attempt. */
  function LastCap(cap: nat, attempt: nat): nat
    requires attempt <= 2
    decreases 2 - attempt
  {
    if attempt == 2 || cap > SIZE_MAX / 2 then cap else LastCap(2 * cap, attempt + 1)
  }

  /** Capacities double without overflow, and the retries give out only when the
      last capacity tried is no larger than the output of the session it was tried
      on; so an output shorter than that capacity is always returned in full. */
  lemma {:induction false} GivesOutOnlyWhenFull(plans: nat -> Plan, first: nat, len: nat, cap: Size,
                                                attempt: nat, size: nat)
    requires attempt <= 2 && forall k :: first <= k <= first + 2 - attempt ==> |plans(k).total| == size
    ensures cap <= LastCap(cap, attempt) < WRAP
    ensures size < LastCap(cap, attempt) ==> Retried(plans, first, len, cap, attempt).Produced?
    ensures LastCap(cap, attempt) < size ==> Retried(plans, first, len, cap, attempt) == OutOfSpace
    decreases 2 - attempt
  {
    if attempt < 2 && cap <= SIZE_MAX / 2 {
      GivesOutOnlyWhenFull(plans, first + 1, len, 2 * cap, attempt + 1, size);
    }
  }
}
