/**
  What the comparison of the harness detects: a decrypt that hands back any other
  seeded plaintext of the run ends the process.
  */
module Crossover {
  import opened Base
  import opened Payload
  import opened Protocol
  import opened ProtocolTheorems
  import opened SplitMix

  function BitAt(o: Octet, mask: Octet): (b: nat)
    ensures b <= 1
  {
    if o & mask == 0 then 0 else 1
  }

  function Upper(o: Octet): (n: nat)
    ensures n < 16
  {
    BitAt(o, 16) + 2 * BitAt(o, 32) + 4 * BitAt(o, 64) + 8 * BitAt(o, 128)
  }

  function Lower(o: Octet): (n: nat)
    ensures n < 16
  {
    BitAt(o, 1) + 2 * BitAt(o, 2) + 4 * BitAt(o, 4) + 8 * BitAt(o, 8)
  }

  /** An octet of the generator as a byte of the protocol. */
  function ByteOf(o: Octet): Byte { 16 * Upper(o) + Lower(o) }

  lemma BitsDetermine(o: bv64, p: bv64)
    requires o <= 0xFF && p <= 0xFF
    requires (o & 1 == 0) == (p & 1 == 0) && (o & 2 == 0) == (p & 2 == 0)
    requires (o & 4 == 0) == (p & 4 == 0) && (o & 8 == 0) == (p & 8 == 0)
    requires (o & 16 == 0) == (p & 16 == 0) && (o & 32 == 0) == (p & 32 == 0)
    requires (o & 64 == 0) == (p & 64 == 0) && (o & 128 == 0) == (p & 128 == 0)
    ensures o == p
  {
  }

  lemma FourBits(a: nat, b: nat, c: nat, d: nat, e: nat, f: nat, g: nat, h: nat)
    requires a <= 1 && b <= 1 && c <= 1 && d <= 1 && e <= 1 && f <= 1 && g <= 1 && h <= 1
    requires a + 2 * b + 4 * c + 8 * d == e + 2 * f + 4 * g + 8 * h
    ensures a == e && b == f && c == g && d == h
  {
  }

  lemma LowerBits(o: Octet, p: Octet)
    requires Lower(o) == Lower(p)
    ensures BitAt(o, 1) == BitAt(p, 1) && BitAt(o, 2) == BitAt(p, 2)
    ensures BitAt(o, 4) == BitAt(p, 4) && BitAt(o, 8) == BitAt(p, 8)
  {
    hide BitAt;
    FourBits(BitAt(o, 1), BitAt(o, 2), BitAt(o, 4), BitAt(o, 8), BitAt(p, 1), BitAt(p, 2), BitAt(p, 4), BitAt(p, 8));
  }

  lemma UpperBits(o: Octet, p: Octet)
    requires Upper(o) == Upper(p)
    ensures BitAt(o, 16) == BitAt(p, 16) && BitAt(o, 32) == BitAt(p, 32)
    ensures BitAt(o, 64) == BitAt(p, 64) && BitAt(o, 128) == BitAt(p, 128)
  {
    hide BitAt;
    FourBits(BitAt(o, 16), BitAt(o, 32), BitAt(o, 64), BitAt(o, 128),
             BitAt(p, 16), BitAt(p, 32), BitAt(p, 64), BitAt(p, 128));
  }

  lemma SameBits(o: Octet, p: Octet)
    requires ByteOf(o) == ByteOf(p)
    ensures BitAt(o, 1) == BitAt(p, 1) && BitAt(o, 2) == BitAt(p, 2)
    ensures BitAt(o, 4) == BitAt(p, 4) && BitAt(o, 8) == BitAt(p, 8)
    ensures BitAt(o, 16) == BitAt(p, 16) && BitAt(o, 32) == BitAt(p, 32)
    ensures BitAt(o, 64) == BitAt(p, 64) && BitAt(o, 128) == BitAt(p, 128)
  {
    hide Upper, Lower, BitAt;
    assert Upper(o) == Upper(p) && Lower(o) == Lower(p);
    hide ByteOf;
    LowerBits(o, p);
    UpperBits(o, p);
  }

  lemma ByteDetermines(o: Octet, p: Octet)
    requires ByteOf(o) == ByteOf(p)
    ensures o == p
  {
    hide ByteOf;
    SameBits(o, p);
    BitsDetermine(o, p);
  }

  function AsBytes(s: seq<Octet>): seq<Byte> {
    seq(|s|, k requires 0 <= k < |s| => ByteOf(s[k]))
  }

  lemma BytesDetermine(s: seq<Octet>, t: seq<Octet>)
    requires AsBytes(s) == AsBytes(t)
    ensures s == t
  {
    hide ByteOf;
    assert |s| == |AsBytes(s)| == |AsBytes(t)| == |t|;
    forall k | 0 <= k < |s| ensures s[k] == t[k] {
      assert AsBytes(s)[k] == AsBytes(t)[k];
      ByteDetermines(s[k], t[k]);
    }
  }

  /** The plaintext of worker `id` after its fill number `fill`. */
  function Holds(cfg: Config, seed: bv64, id: nat, fill: nat): seq<Byte> {
    AsBytes(Filled(FillState(seed, id, fill, cfg.payload), cfg.payload))
  }

  /** Whatever other seeded plaintext of the run a decrypt returns, another worker's or
      an earlier one of its own, the comparison ends the process: nothing is counted
      and nothing else can happen. */
  lemma CrossoverIsCaught(cfg: Config, s: State, i: nat, c: Choice, seed: bv64, mine: nat, other: nat, theirs: nat)
    requires Enabled(cfg, s, WorkerAct(i, c)) && s.ws[i].pc.Compare?
    requires 8 <= cfg.payload && i < 10 && other < 10 && (i != other || mine != theirs)
    requires mine * Draws(cfg.payload) < SOONEST && theirs * Draws(cfg.payload) < SOONEST
    requires s.ws[i].data.plain == Holds(cfg, seed, i, mine)
    requires s.ws[i].data.got == Holds(cfg, seed, other, theirs)
    ensures var s' := Apply(cfg, s, WorkerAct(i, c));
      && s'.halt == DataMismatch && s'.ws[i].tally == s.ws[i].tally
      && forall a: Action :: !Enabled(cfg, s', a)
  {
    hide Filled, FillState, AsBytes, Draws, SOONEST;
    RunWideDistinct(seed, i, mine, other, theirs, cfg.payload);
    if Holds(cfg, seed, i, mine) == Holds(cfg, seed, other, theirs) {
      BytesDetermine(Filled(FillState(seed, i, mine, cfg.payload), cfg.payload),
                     Filled(FillState(seed, other, theirs, cfg.payload), cfg.payload));
    }
    MismatchStopsEverything(cfg, s, i, c);
  }
}
