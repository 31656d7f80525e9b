/**
  The plaintext buffers of the workers: how a fill lays the drawn words out,
  and when two fills give different buffers.
  */
module Payload {
  import opened Base
  import opened Powers
  import opened Words
  import opened SplitMix

  type Octet = b: bv64 | b <= 0xFF

  /** Byte `i` of a word, least significant first. */
  function Lane(v: bv64, i: nat): Octet
    requires i < 8
  {
    if i == 0 then v & 0xFF
    else if i == 1 then (v >> 8) & 0xFF
    else if i == 2 then (v >> 16) & 0xFF
    else if i == 3 then (v >> 24) & 0xFF
    else if i == 4 then (v >> 32) & 0xFF
    else if i == 5 then (v >> 40) & 0xFF
    else if i == 6 then (v >> 48) & 0xFF
    else (v >> 56) & 0xFF
  }

  function Gather(a: bv64, b: bv64, c: bv64, d: bv64, e: bv64, f: bv64, g: bv64, h: bv64): bv64 {
    a | (b << 8) | (c << 16) | (d << 24) | (e << 32) | (f << 40) | (g << 48) | (h << 56)
  }

  lemma GatherWords(v: bv64)
    ensures (v & 0xFF) | (((v >> 8) & 0xFF) << 8) | (((v >> 16) & 0xFF) << 16) | (((v >> 24) & 0xFF) << 24)
          | (((v >> 32) & 0xFF) << 32) | (((v >> 40) & 0xFF) << 40) | (((v >> 48) & 0xFF) << 48)
          | (((v >> 56) & 0xFF) << 56) == v
  {
  }

  lemma Gathers(v: bv64)
    ensures Gather(v & 0xFF, (v >> 8) & 0xFF, (v >> 16) & 0xFF, (v >> 24) & 0xFF,
                   (v >> 32) & 0xFF, (v >> 40) & 0xFF, (v >> 48) & 0xFF, (v >> 56) & 0xFF) == v
  {
    GatherWords(v);
  }

  lemma LanesGather(v: bv64)
    ensures Gather(Lane(v, 0), Lane(v, 1), Lane(v, 2), Lane(v, 3), Lane(v, 4), Lane(v, 5), Lane(v, 6), Lane(v, 7)) == v
  {
    hide Gather;
    Gathers(v);
  }

  /** Eight equal bytes make equal words. */
  lemma LanesDetermine(v: bv64, w: bv64)
    requires forall i :: 0 <= i < 8 ==> Lane(v, i) == Lane(w, i)
    ensures v == w
  {
    hide Gather, Lane;
    LanesGather(v);
    LanesGather(w);
  }

  // ------------------------------------------------------------------ fills

  datatype Mode = Fixed | Rotating | PatternZero | PatternFF | PatternAscii

  /** Words it takes to fill `len` bytes. */
  function Draws(len: nat): (r: nat)
    ensures len <= 8 * r < len + 8
  {
    (len + 7) / 8
  }

  /** The seeded content of a buffer: the drawn words in order, the last one cut off. */
  function Filled(state: bv64, len: nat): seq<Octet> {
    seq(len, k requires 0 <= k < len => Lane(Draw(state, k / 8), k % 8))
  }

  /** Least significant byte first, and the next word after eight bytes. */
  lemma KnownFill()
    ensures Filled(0, 10) == [0xAF, 0xCD, 0x1D, 0x7B, 0x39, 0xA8, 0x20, 0xE2, 0xF4, 0x65]
  {
    KnownDraws();
    hide Draw;
    KnownLanes(0xE220A8397B1DCDAF, 0x6E789E6AA1B965F4);
    hide Lane;
  }

  lemma KnownLanes(v: bv64, w: bv64)
    requires v == 0xE220A8397B1DCDAF && w == 0x6E789E6AA1B965F4
    ensures Lane(v, 0) == 0xAF && Lane(v, 1) == 0xCD && Lane(v, 2) == 0x1D && Lane(v, 3) == 0x7B
    ensures Lane(v, 4) == 0x39 && Lane(v, 5) == 0xA8 && Lane(v, 6) == 0x20 && Lane(v, 7) == 0xE2
    ensures Lane(w, 0) == 0xF4 && Lane(w, 1) == 0x65
  {
  }

  /** The repeating 'A'..'Z' ramp. */
  function Ramp(k: nat): (b: Octet)
    ensures b as int == 0x41 + k % 26
  {
    [0x41, 0x42, 0x43, 0x44, 0x45, 0x46, 0x47, 0x48, 0x49, 0x4A, 0x4B, 0x4C, 0x4D,
     0x4E, 0x4F, 0x50, 0x51, 0x52, 0x53, 0x54, 0x55, 0x56, 0x57, 0x58, 0x59, 0x5A][k % 26]
  }

  /** Copies the first `take` bytes of a word into the buffer. */
  method CopyWord(v: bv64, buf: array<Octet>, i: nat, take: nat)
    requires take <= 8 && i + take <= buf.Length
    modifies buf
    ensures forall k :: 0 <= k < i ==> buf[k] == old(buf[k])
    ensures forall k :: 0 <= k < take ==> buf[i + k] == Lane(v, k)
  {
    forall k | 0 <= k < take {
      buf[i + k] := Lane(v, k);
    }
  }

  /** fill_payload for the seeded draws. */
  method FillSeeded(rng: bv64, buf: array<Octet>) returns (rng': bv64)
    modifies buf
    ensures buf[..] == Filled(rng, buf.Length)
    ensures rng' == StateAfter(rng, Draws(buf.Length))
  {
    assert StateAfter(rng, 0) == rng;
    hide Lane, Draw, StateAfter;
    rng' := rng;
    var i := 0;
    ghost var n := 0;
    while i < buf.Length
      invariant i == 8 * n
      invariant i < buf.Length + 8
      invariant rng' == StateAfter(rng, n)
      invariant forall k :: 0 <= k < i && k < buf.Length ==> buf[k] == Lane(Draw(rng, k / 8), k % 8)
    {
      var v;
      rng', v := SplitMix64(rng');
      StateAdds(rng, n, 1);
      DrawOfFill(rng, n);
      var take := if buf.Length - i < 8 then buf.Length - i else 8;
      CopyWord(v, buf, i, take);
      i := i + 8;
      n := n + 1;
    }
  }

  /** The content each mode asks for. */
  function Content(mode: Mode, seeded: bool, rng: bv64, len: nat, os: Option<seq<Octet>>): seq<Octet> {
    match mode
    case PatternZero => seq(len, _ => 0)
    case PatternFF => seq(len, _ => 0xFF)
    case PatternAscii => seq(len, k requires 0 <= k < len => Ramp(k))
    case _ => if seeded then Filled(rng, len) else if os.Some? then os.value else []
  }

  /** fill_payload; `os` is what the operating system's generator delivers, if it
      does. */
  method FillPayload(mode: Mode, seeded: bool, rng: bv64, buf: array<Octet>, os: Option<seq<Octet>>)
    returns (ok: bool, rng': bv64)
    requires os.Some? ==> |os.value| == buf.Length
    modifies buf
    ensures ok <==> (mode.Fixed? || mode.Rotating?) && !seeded ==> os.Some?
    ensures rng' == if (mode.Fixed? || mode.Rotating?) && seeded then StateAfter(rng, Draws(buf.Length)) else rng
    ensures ok ==> buf[..] == Content(mode, seeded, rng, buf.Length, os)
    ensures mode.PatternZero? ==> forall k :: 0 <= k < buf.Length ==> buf[k] == 0
    ensures mode.PatternFF? ==> forall k :: 0 <= k < buf.Length ==> buf[k] == 0xFF
    ensures mode.PatternAscii? ==> forall k :: 0 <= k < buf.Length ==> buf[k] as int == 0x41 + k % 26
    ensures (mode.Fixed? || mode.Rotating?) && seeded ==> buf[..] == Filled(rng, buf.Length)
    ensures (mode.Fixed? || mode.Rotating?) && !seeded && os.Some? ==> buf[..] == os.value
  {
    hide Ramp;
    rng' := rng;
    match mode
    case PatternZero =>
      forall k | 0 <= k < buf.Length { buf[k] := 0; }
      return true, rng;
    case PatternFF =>
      forall k | 0 <= k < buf.Length { buf[k] := 0xFF; }
      return true, rng;
    case PatternAscii =>
      forall k | 0 <= k < buf.Length { buf[k] := Ramp(k); }
      return true, rng;
    case _ =>
      if seeded {
        rng' := FillSeeded(rng, buf);
        return true, rng';
      }
      if os == None {
        return false, rng;
      }
      forall k | 0 <= k < buf.Length { buf[k] := os.value[k]; }
      return true, rng;
  }

  // ----------------------------------------------------------- distinctness

  /** The state worker `id` fills its buffer from for the `r`-th time, counted from 0. */
  function FillState(seed: bv64, id: nat, r: nat, len: nat): bv64 {
    StateAfter(SeedWorker(seed, id), r * Draws(len))
  }

  lemma NextFillState(seed: bv64, id: nat, r: nat, len: nat)
    ensures StateAfter(FillState(seed, id, r, len), Draws(len)) == FillState(seed, id, r + 1, len)
  {
    hide SeedWorker, Draws;
    StateAdds(SeedWorker(seed, id), r * Draws(len), Draws(len));
    assert (r + 1) * Draws(len) == r * Draws(len) + Draws(len);
  }

  /** Equal buffers of at least eight bytes were drawn from the same first word. */
  lemma FirstWordEqual(s: bv64, t: bv64, len: nat)
    requires 8 <= len && Filled(s, len) == Filled(t, len)
    ensures Draw(s, 0) == Draw(t, 0)
  {
    hide Lane, Draw;
    var (v, w) := (Draw(s, 0), Draw(t, 0));
    forall i | 0 <= i < 8 ensures Lane(v, i) == Lane(w, i) {
      assert Filled(s, len)[i] == Lane(v, i) && Filled(t, len)[i] == Lane(w, i);
    }
    LanesDetermine(v, w);
  }

  lemma DrawOfFill(state: bv64, n: nat)
    ensures Draw(StateAfter(state, n), 0) == Draw(state, n)
  {
    hide Mix;
    StateAdds(state, n, 1);
  }

  /** Two workers never hold the same buffer after equally many fills. */
  lemma WorkersHoldDistinctBuffers(seed: bv64, i: nat, j: nat, r: nat, len: nat)
    requires 8 <= len && i < Power2(64) && j < Power2(64) && i != j
    ensures Filled(FillState(seed, i, r, len), len) != Filled(FillState(seed, j, r, len), len)
  {
    hide Filled, Draw, SeedWorker, Power2;
    if Filled(FillState(seed, i, r, len), len) == Filled(FillState(seed, j, r, len), len) {
      FirstWordEqual(FillState(seed, i, r, len), FillState(seed, j, r, len), len);
      DrawOfFill(SeedWorker(seed, i), r * Draws(len));
      DrawOfFill(SeedWorker(seed, j), r * Draws(len));
      WorkersDiffer(seed, i, j, r * Draws(len));
    }
  }

  /** Two fills of at least eight bytes agree exactly when the generator that is
      further along has passed through the other's state. */
  lemma FillsAgree(s: bv64, t: bv64, a: nat, b: nat, len: nat)
    requires 8 <= len && b <= a
    ensures Filled(StateAfter(s, a), len) == Filled(StateAfter(t, b), len) <==> StateAfter(s, a - b) == t
  {
    hide Filled, Draw, StateAfter;
    if Filled(StateAfter(s, a), len) == Filled(StateAfter(t, b), len) {
      FirstWordEqual(StateAfter(s, a), StateAfter(t, b), len);
      DrawOfFill(s, a);
      DrawOfFill(t, b);
      SameDraw(s, t, a, b);
    }
    StateAdds(s, a - b, b);
  }

  /** Any two different fills of a run, by the same worker or by two, after however
      many fills each, are different buffers, while no generator has drawn SOONEST
      words. */
  lemma RunWideDistinct(seed: bv64, i: nat, r: nat, j: nat, q: nat, len: nat)
    requires 8 <= len && i < 10 && j < 10 && (i != j || r != q)
    requires r * Draws(len) < SOONEST && q * Draws(len) < SOONEST
    ensures Filled(FillState(seed, i, r, len), len) != Filled(FillState(seed, j, q, len), len)
  {
    Power2Values();
    hide Filled, Draw, SeedWorker, Power2, Draws, StateAfter;
    if Filled(FillState(seed, i, r, len), len) == Filled(FillState(seed, j, q, len), len) {
      if i == j {
        RefillsDiffer(SeedWorker(seed, i), r, q, len);
      } else {
        FirstWordEqual(FillState(seed, i, r, len), FillState(seed, j, q, len), len);
        DrawOfFill(SeedWorker(seed, i), r * Draws(len));
        DrawOfFill(SeedWorker(seed, j), q * Draws(len));
        WorkersNeverMeet(seed, i, j, r * Draws(len), q * Draws(len));
      }
    }
  }

  /** That many fills are too many: fill number SOONEST of a worker repeats the first
      fill of the worker before it, when a fill takes one draw. */
  lemma FillsMeet(seed: bv64, i: nat)
    ensures Filled(FillState(seed, i + 1, SOONEST, 8), 8) == Filled(FillState(seed, i, 0, 8), 8)
  {
    WorkersMeet(seed, i);
    assert Draws(8) == 1 && SOONEST * 1 == SOONEST && 0 * 1 == 0;
    assert StateAfter(SeedWorker(seed, i), 0) == SeedWorker(seed, i);
    hide Filled, SeedWorker, StateAfter, Draws;
  }

  /** A worker's plaintext buffer and its generator, when the run is seeded. */
  class Plaintext {
    const seed: bv64
    const id: nat
    const buf: array<Octet>
    var rng: bv64
    ghost var fills: nat

    ghost predicate Valid()
      reads this
    {
      rng == FillState(seed, id, fills, buf.Length)
    }

    constructor (seed: bv64, id: nat, len: nat)
      ensures Valid() && fills == 0 && fresh(buf) && buf.Length == len && this.seed == seed && this.id == id
    {
      hide SeedWorker;
      this.seed, this.id := seed, id;
      buf := new Octet[len](_ => 0);
      rng := SeedWorker(seed, id);
      fills := 0;
      new;
      assert 0 * Draws(len) == 0;
    }

    /** The fill main makes before the run, and the one of every rotating iteration. */
    method Refill()
      requires Valid()
      modifies this, buf
      ensures Valid() && fills == old(fills) + 1
      ensures buf[..] == Filled(FillState(seed, id, old(fills), buf.Length), buf.Length)
    {
      hide Filled, FillState, StateAfter, Draws;
      NextFillState(seed, id, fills, buf.Length);
      rng := FillSeeded(rng, buf);
      fills := fills + 1;
    }
  }

  ghost predicate NoFillRepeats(state: bv64, len: nat) {
    forall r: nat, q: nat :: r != q && r * Draws(len) < Power2(64) && q * Draws(len) < Power2(64) ==>
      Filled(StateAfter(state, r * Draws(len)), len) != Filled(StateAfter(state, q * Draws(len)), len)
  }

  lemma RefillsDiffer(state: bv64, r: nat, q: nat, len: nat)
    requires 8 <= len && r * Draws(len) < Power2(64) && q * Draws(len) < Power2(64)
    requires Filled(StateAfter(state, r * Draws(len)), len) == Filled(StateAfter(state, q * Draws(len)), len)
    ensures r == q
  {
    hide Filled, Draw, Power2;
    FirstWordEqual(StateAfter(state, r * Draws(len)), StateAfter(state, q * Draws(len)), len);
    DrawOfFill(state, r * Draws(len));
    DrawOfFill(state, q * Draws(len));
    NoWordRepeats(state, r * Draws(len), q * Draws(len));
    SameFactor(r, q, Draws(len));
  }

  lemma SameFactor(r: nat, q: nat, d: nat)
    requires 0 < d && r * d == q * d
    ensures r == q
  {
    assert (r - q) * d == 0;
  }

  /** A draw index for every word. */
  lemma DrawReaches(state: bv64, v: bv64) returns (n: nat)
    ensures n < Power2(64) && Draw(state, n) == v
  {
    hide Mix, Unmix, Power2;
    n := FullPeriod(StateAfter(state, 1), Unmix(v));
    StateAdds(state, 1, n);
    MixUnmix(v);
  }

  lemma LowLanesAgree(i: nat)
    requires i < 7
    ensures Lane(0, i) == Lane(0x0100_0000_0000_0000, i)
  {
  }

  /** No two fills of one generator give the same buffer exactly when a buffer
      holds a whole word: below eight bytes some two fills within the period do. */
  lemma FillsRepeatOnlyWhenShort(state: bv64, len: nat)
    requires 0 < len
    ensures NoFillRepeats(state, len) <==> 8 <= len
  {
    hide Filled, Power2, Lane;
    if 8 <= len {
      forall r: nat, q: nat | r != q && r * Draws(len) < Power2(64) && q * Draws(len) < Power2(64)
        ensures Filled(StateAfter(state, r * Draws(len)), len) != Filled(StateAfter(state, q * Draws(len)), len)
      {
        if Filled(StateAfter(state, r * Draws(len)), len) == Filled(StateAfter(state, q * Draws(len)), len) {
          RefillsDiffer(state, r, q, len);
        }
      }
    } else {
      var r := DrawReaches(state, 0);
      var q := DrawReaches(state, 0x0100_0000_0000_0000);
      assert Draws(len) == 1 && r * Draws(len) == r && q * Draws(len) == q;
      ShortFillsAgree(state, r, q, len);
    }
  }

  lemma ShortFillsAgree(state: bv64, r: nat, q: nat, len: nat)
    requires len < 8 && Draw(state, r) == 0 && Draw(state, q) == 0x0100_0000_0000_0000
    ensures Filled(StateAfter(state, r), len) == Filled(StateAfter(state, q), len)
  {
    hide Lane, Draw;
    DrawOfFill(state, r);
    DrawOfFill(state, q);
    forall k | 0 <= k < len ensures Lane(0, k) == Lane(0x0100_0000_0000_0000, k) {
      LowLanesAgree(k);
    }
  }
}
