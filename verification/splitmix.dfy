/**
  The seeded plaintext generator: splitmix64 on 64-bit words, the per-worker
  seeds, and the fill of one plaintext buffer.
  */
module SplitMix {
  import opened Base
  import opened Powers
  import opened Words

  // ----------------------------------------------------------------- the mix

  // Each stage of the mix, and its inverse: a shifted exclusive-or is undone by
  // unfolding it, a multiplication by an odd constant by the inverse constant.

  function Fold30(z: bv64): bv64 { z ^ (z >> 30) }
  function Unfold30(z: bv64): bv64 { z ^ (z >> 30) ^ (z >> 60) }
  function Fold27(z: bv64): bv64 { z ^ (z >> 27) }
  function Unfold27(z: bv64): bv64 { z ^ (z >> 27) ^ (z >> 54) }
  function Fold31(z: bv64): bv64 { z ^ (z >> 31) }
  function Unfold31(z: bv64): bv64 { z ^ (z >> 31) ^ (z >> 62) }
  function TimesFirst(z: bv64): bv64 { z * 0xBF58476D1CE4E5B9 }
  function OverFirst(z: bv64): bv64 { z * 0x96DE1B173F119089 }
  function TimesSecond(z: bv64): bv64 { z * 0x94D049BB133111EB }
  function OverSecond(z: bv64): bv64 { z * 0x319642B2D24D8EC3 }

  lemma ShiftsCancel(z: bv64)
    ensures var y := z ^ (z >> 30); y ^ (y >> 30) ^ (y >> 60) == z
    ensures var y := z ^ (z >> 30) ^ (z >> 60); y ^ (y >> 30) == z
    ensures var y := z ^ (z >> 27); y ^ (y >> 27) ^ (y >> 54) == z
    ensures var y := z ^ (z >> 27) ^ (z >> 54); y ^ (y >> 27) == z
    ensures var y := z ^ (z >> 31); y ^ (y >> 31) ^ (y >> 62) == z
    ensures var y := z ^ (z >> 31) ^ (z >> 62); y ^ (y >> 31) == z
  {
  }

  lemma FactorsCancel(z: bv64)
    ensures z * 0xBF58476D1CE4E5B9 * 0x96DE1B173F119089 == z && z * 0x96DE1B173F119089 * 0xBF58476D1CE4E5B9 == z
    ensures z * 0x94D049BB133111EB * 0x319642B2D24D8EC3 == z && z * 0x319642B2D24D8EC3 * 0x94D049BB133111EB == z
  {
  }

  lemma UndoesWords(z: bv64)
    ensures Unfold30(z ^ (z >> 30)) == z && Unfold27(z ^ (z >> 27)) == z && Unfold31(z ^ (z >> 31)) == z
    ensures OverFirst(z * 0xBF58476D1CE4E5B9) == z && OverSecond(z * 0x94D049BB133111EB) == z
  {
    ShiftsCancel(z);
    FactorsCancel(z);
  }

  lemma Undoes(z: bv64)
    ensures Unfold30(Fold30(z)) == z && Unfold27(Fold27(z)) == z && Unfold31(Fold31(z)) == z
    ensures OverFirst(TimesFirst(z)) == z && OverSecond(TimesSecond(z)) == z
  {
    hide Unfold30, Unfold27, Unfold31, OverFirst, OverSecond;
    UndoesWords(z);
  }

  lemma RedoesWords(z: bv64)
    ensures Fold30(z ^ (z >> 30) ^ (z >> 60)) == z && Fold27(z ^ (z >> 27) ^ (z >> 54)) == z
    ensures Fold31(z ^ (z >> 31) ^ (z >> 62)) == z
    ensures TimesFirst(z * 0x96DE1B173F119089) == z && TimesSecond(z * 0x319642B2D24D8EC3) == z
  {
    ShiftsCancel(z);
    FactorsCancel(z);
  }

  lemma Redoes(z: bv64)
    ensures Fold30(Unfold30(z)) == z && Fold27(Unfold27(z)) == z && Fold31(Unfold31(z)) == z
    ensures TimesFirst(OverFirst(z)) == z && TimesSecond(OverSecond(z)) == z
  {
    hide Fold30, Fold27, Fold31, TimesFirst, TimesSecond;
    RedoesWords(z);
  }

  /** The output function of splitmix64. */
  function Mix(state: bv64): bv64 {
    Fold31(TimesSecond(Fold27(TimesFirst(Fold30(state)))))
  }

  function Unmix(v: bv64): bv64 {
    Unfold30(OverFirst(Unfold27(OverSecond(Unfold31(v)))))
  }

  lemma UnmixMix(x: bv64)
    ensures Unmix(Mix(x)) == x
  {
    hide Fold30, Fold27, Fold31, Unfold30, Unfold27, Unfold31, TimesFirst, TimesSecond, OverFirst, OverSecond;
    var z1 := TimesFirst(Fold30(x));
    var z2 := TimesSecond(Fold27(z1));
    Undoes(z2);
    Undoes(Fold27(z1));
    Undoes(z1);
    Undoes(Fold30(x));
    Undoes(x);
  }

  lemma MixUnmix(v: bv64)
    ensures Mix(Unmix(v)) == v
  {
    hide Fold30, Fold27, Fold31, Unfold30, Unfold27, Unfold31, TimesFirst, TimesSecond, OverFirst, OverSecond;
    var z2 := OverSecond(Unfold31(v));
    var z1 := OverFirst(Unfold27(z2));
    Redoes(z1);
    Redoes(Unfold27(z2));
    Redoes(z2);
    Redoes(Unfold31(v));
    Redoes(v);
  }

  /** The output mix is a bijection on 64-bit words: no two states give one word,
      and every word is given. */
  lemma MixIsBijective(x: bv64, y: bv64)
    ensures Mix(x) == Mix(y) <==> x == y
    ensures Mix(Unmix(x)) == x
  {
    hide Mix, Unmix;
    UnmixMix(x);
    UnmixMix(y);
    MixUnmix(x);
  }

  // ------------------------------------------------------------- the stream

  /** The state step. */
  function Advance(state: bv64): bv64 { state + 0x9E3779B97F4A7C15 }

  /** The state after `n` draws. */
  function StateAfter(state: bv64, n: nat): bv64 {
    if n == 0 then state else Advance(StateAfter(state, n - 1))
  }

  /** The `n`-th draw, counted from 0. */
  function Draw(state: bv64, n: nat): bv64 {
    Mix(StateAfter(state, n + 1))
  }

  /** One call of the generator. */
  method SplitMix64(state: bv64) returns (state': bv64, v: bv64)
    ensures state' == StateAfter(state, 1) && v == Draw(state, 0)
  {
    hide Advance, Fold30, Fold27, Fold31, TimesFirst, TimesSecond;
    state' := Advance(state);
    var z := state';
    z := TimesFirst(Fold30(z));
    z := TimesSecond(Fold27(z));
    v := Fold31(z);
    assert StateAfter(state, 0) == state;
  }

  /** The published first outputs of the generator from state 0. */
  lemma KnownDraws()
    ensures Draw(0, 0) == 0xE220A8397B1DCDAF
    ensures Draw(0, 1) == 0x6E789E6AA1B965F4
    ensures Draw(0, 2) == 0x06C45D188009454F
  {
    KnownMixes();
    hide Mix, Advance;
    assert StateAfter(0, 0) == 0;
    assert StateAfter(0, 1) == Advance(0);
    assert StateAfter(0, 2) == Advance(Advance(0));
    assert StateAfter(0, 3) == Advance(Advance(Advance(0)));
  }

  lemma KnownMixes()
    ensures Mix(Advance(0)) == 0xE220A8397B1DCDAF
    ensures Mix(Advance(Advance(0))) == 0x6E789E6AA1B965F4
    ensures Mix(Advance(Advance(Advance(0)))) == 0x06C45D188009454F
  {
  }

  lemma {:induction false} StateAdds(state: bv64, m: nat, n: nat)
    ensures StateAfter(StateAfter(state, m), n) == StateAfter(state, m + n)
  {
    hide Advance;
    if n == 0 {
    } else {
      StateAdds(state, m, n - 1);
    }
  }

  function Linear(state: bv64, w: bv64): bv64 { state + w * 0x9E3779B97F4A7C15 }

  lemma LinearStep(state: bv64, w: bv64)
    ensures Advance(Linear(state, w)) == Linear(state, Next(w))
    ensures Linear(state, 0) == state
  {
  }

  /** The state after `n` draws in closed form. */
  lemma {:induction false} StateIsLinear(state: bv64, n: nat)
    ensures StateAfter(state, n) == Linear(state, Word(n))
  {
    hide Advance, Linear, Next;
    if n == 0 {
      LinearStep(state, 0);
    } else {
      StateIsLinear(state, n - 1);
      LinearStep(state, Word(n - 1));
      WordSuccessor(n - 1);
    }
  }

  /** The number of steps from one state to another, as a word. */
  function StepsBetween(from: bv64, to: bv64): bv64 { (to - from) * 0xF1DE83E19937733D }

  lemma StepsWords(state: bv64, w: bv64)
    ensures ((state + w * 0x9E3779B97F4A7C15) - state) * 0xF1DE83E19937733D == w
    ensures state + ((w - state) * 0xF1DE83E19937733D) * 0x9E3779B97F4A7C15 == w
  {
  }

  lemma StepsCounted(state: bv64, w: bv64)
    ensures StepsBetween(state, state + w * 0x9E3779B97F4A7C15) == w
    ensures Linear(state, (w - state) * 0xF1DE83E19937733D) == w
  {
    StepsWords(state, w);
  }

  lemma StepsOfLinear(state: bv64, w: bv64)
    ensures StepsBetween(state, Linear(state, w)) == w
  {
    hide StepsBetween;
    StepsCounted(state, w);
  }

  lemma LinearOfSteps(state: bv64, w: bv64)
    ensures Linear(state, StepsBetween(state, w)) == w
  {
    hide Linear;
    StepsCounted(state, w);
  }

  function Origin(to: bv64, w: bv64): bv64 { to - w * 0x9E3779B97F4A7C15 }

  lemma OriginWords(state: bv64, w: bv64)
    ensures (state + w * 0x9E3779B97F4A7C15) - w * 0x9E3779B97F4A7C15 == state
  {
  }

  lemma OriginCounted(state: bv64, w: bv64)
    ensures Origin(state + w * 0x9E3779B97F4A7C15, w) == state
  {
    OriginWords(state, w);
  }

  lemma OriginOfLinear(state: bv64, w: bv64)
    ensures Origin(Linear(state, w), w) == state
  {
    hide Origin;
    OriginCounted(state, w);
  }

  // ----------------------------------------------------------- distinctness

  /** The state sequence has full period: from any state, every state is reached
      after exactly one number of draws below 2^64. */
  lemma FullPeriod(state: bv64, target: bv64) returns (n: nat)
    ensures n < Power2(64) && StateAfter(state, n) == target
    ensures forall m: nat :: m < Power2(64) && StateAfter(state, m) == target ==> m == n
  {
    hide Linear, StepsBetween, Clear, Advance, StateAfter, Word, Power2;
    var w := StepsBetween(state, target);
    LinearOfSteps(state, target);
    AnyClear(w);
    n := WordSurjective(w, 64);
    StateIsLinear(state, n);
    forall m: nat | m < Power2(64) && StateAfter(state, m) == target ensures m == n {
      StatesDistinct(state, m, n);
    }
  }

  lemma AnyClear(w: bv64)
    ensures Clear(w, High(64))
  {
    TopBits();
  }

  lemma StatesDistinct(state: bv64, m: nat, n: nat)
    requires m < Power2(64) && n < Power2(64) && StateAfter(state, m) == StateAfter(state, n)
    ensures m == n
  {
    hide Linear, StepsBetween, StateAfter, Word, Power2;
    StateIsLinear(state, m);
    StateIsLinear(state, n);
    StepsOfLinear(state, Word(m));
    StepsOfLinear(state, Word(n));
    WordInjective(m, n, 64);
  }

  /** One generator repeats no word within 2^64 draws. */
  lemma NoWordRepeats(state: bv64, m: nat, n: nat)
    requires m < Power2(64) && n < Power2(64) && Draw(state, m) == Draw(state, n)
    ensures m == n
  {
    hide Mix, StateAfter, Power2;
    MixIsBijective(StateAfter(state, m + 1), StateAfter(state, n + 1));
    StateAdds(state, 1, m);
    StateAdds(state, 1, n);
    StatesDistinct(StateAfter(state, 1), m, n);
  }

  /** Streams from different states differ at every draw index. */
  lemma StreamsDiffer(s: bv64, t: bv64, n: nat)
    requires Draw(s, n) == Draw(t, n)
    ensures s == t
  {
    hide Mix, StateAfter, Linear, Origin, Word;
    MixIsBijective(StateAfter(s, n + 1), StateAfter(t, n + 1));
    StateIsLinear(s, n + 1);
    StateIsLinear(t, n + 1);
    OriginOfLinear(s, Word(n + 1));
    OriginOfLinear(t, Word(n + 1));
  }

  /** seed_worker. */
  function SeedOf(seed: bv64, id: bv64): bv64 { seed + id + 1 }

  function SeedWorker(seed: bv64, id: nat): bv64 { SeedOf(seed, Word(id)) }

  /** The offset of one keeps the first worker off the raw seed, and wraps. */
  lemma KnownSeeds()
    ensures SeedWorker(41, 0) == 42 && SeedWorker(41, 7) == 49 && SeedWorker(0xFFFF_FFFF_FFFF_FFFF, 0) == 0
  {
    LowDigits();
    assert Word(0) == 0;
    hide Word;
  }

  function IdOf(seed: bv64, s: bv64): bv64 { s - 1 - seed }

  lemma IdWords(seed: bv64, id: bv64)
    ensures (seed + id + 1) - 1 - seed == id
  {
  }

  lemma IdCounted(seed: bv64, id: bv64)
    ensures IdOf(seed, seed + id + 1) == id
  {
    IdWords(seed, id);
  }

  lemma IdOfSeed(seed: bv64, id: bv64)
    ensures IdOf(seed, SeedOf(seed, id)) == id
  {
    hide IdOf;
    IdCounted(seed, id);
  }

  /** Different workers start from different states, and so differ in the word
      they draw at every equal draw index. */
  lemma WorkersDiffer(seed: bv64, i: nat, j: nat, n: nat)
    requires i < Power2(64) && j < Power2(64)
    requires Draw(SeedWorker(seed, i), n) == Draw(SeedWorker(seed, j), n)
    ensures i == j
  {
    hide Draw, SeedOf, IdOf, Word, Power2;
    StreamsDiffer(SeedWorker(seed, i), SeedWorker(seed, j), n);
    IdOfSeed(seed, Word(i));
    IdOfSeed(seed, Word(j));
    WordInjective(i, j, 64);
  }

  // ------------------------------------------------------- streams that overlap

  /** Two streams draw one word at two indices exactly when the one that is further
      along has passed through the state of the other. */
  lemma SameDraw(s: bv64, t: bv64, a: nat, b: nat)
    requires b <= a
    ensures Draw(s, a) == Draw(t, b) <==> StateAfter(s, a - b) == t
  {
    hide Mix, StateAfter;
    StateAdds(s, a - b, b + 1);
    var u := StateAfter(s, a - b);
    assert Draw(u, b) == Draw(s, a);
    if Draw(s, a) == Draw(t, b) { StreamsDiffer(u, t, b); }
  }

  /** How far apart the two states are decides when that is. */
  lemma Passes(s: bv64, t: bv64, n: nat)
    ensures StateAfter(s, n) == t <==> Word(n) == StepsBetween(s, t)
  {
    hide Linear, StepsBetween, StateAfter, Word;
    StateIsLinear(s, n);
    StepsOfLinear(s, Word(n));
    LinearOfSteps(s, t);
  }

  // The same on counts: a stream is a progression modulo 2^64.

  const GOLDEN: nat := 0x9E37_79B9_7F4A_7C15

  lemma LowDigits()
    ensures Word(1) == 1 && Word(3) == 3 && Word(4) == 4 && Word(5) == 5 && Word(7) == 7
  {
  }

  lemma MiddleDigits()
    ensures Word(9) == 9 && Word(0xA) == 0xA && Word(0xB) == 0xB
  {
  }

  lemma HighDigits()
    ensures Word(0xC) == 0xC && Word(0xE) == 0xE && Word(0xF) == 0xF
  {
  }

  lemma GoldenWord()
    ensures Word(GOLDEN) == 0x9E3779B97F4A7C15
  {
    LowDigits();
    MiddleDigits();
    HighDigits();
    hide Word;
    WordDigit(0x9, 0xE);
    WordDigit(0x9E, 3);
    WordDigit(0x9E3, 7);
    WordDigit(0x9E37, 7);
    WordDigit(0x9E377, 9);
    WordDigit(0x9E3779, 0xB);
    WordDigit(0x9E3779B, 9);
    LowerGolden();
  }

  lemma LowerGolden()
    requires Word(0x9E3779B9) == 0x9E3779B9
    ensures Word(GOLDEN) == 0x9E3779B97F4A7C15
  {
    LowDigits();
    MiddleDigits();
    HighDigits();
    hide Word;
    WordDigit(0x9E3779B9, 7);
    WordDigit(0x9E3779B97, 0xF);
    WordDigit(0x9E3779B97F, 4);
    WordDigit(0x9E3779B97F4, 0xA);
    WordDigit(0x9E3779B97F4A, 7);
    WordDigit(0x9E3779B97F4A7, 0xC);
    WordDigit(0x9E3779B97F4A7C, 1);
    WordDigit(0x9E3779B97F4A7C1, 5);
  }

  lemma AdvanceAdds(w: bv64)
    ensures Advance(w) == Add(w, 0x9E3779B97F4A7C15)
  {
  }

  lemma {:induction false} StateOfCount(m: nat, n: nat)
    ensures StateAfter(Word(m), n) == Word(m + n * GOLDEN)
  {
    hide Word, Add, Advance, GOLDEN;
    if n == 0 {
      assert 0 * GOLDEN == 0;
    } else {
      StateOfCount(m, n - 1);
      GoldenWord();
      AdvanceAdds(StateAfter(Word(m), n - 1));
      var k := m + (n - 1) * GOLDEN;
      assert m + n * GOLDEN == k + GOLDEN;
      WordAdds(k, GOLDEN);
    }
  }

  /** The seed of a worker, counted. */
  lemma SeedOfCount(seed: nat, id: nat)
    ensures SeedWorker(Word(seed), id) == Word(seed + id + 1)
  {
    hide Word, SeedOf;
    SeedAdds(Word(seed), Word(id));
    assert Word(1) == 1 by { LowDigits(); }
    WordAdds(seed, id);
    WordAdds(seed + id, 1);
  }

  lemma SeedAdds(v: bv64, w: bv64)
    ensures SeedOf(v, w) == Add(Add(v, w), 1)
  {
  }

  /** One worker's stream reaches the start of another's after n draws exactly when
      n steps come to the distance of their ids modulo 2^64. */
  lemma WorkerReaches(seed: bv64, i: nat, j: nat, n: nat)
    ensures StateAfter(SeedWorker(seed, i), n) == SeedWorker(seed, j) <==>
      (i + n * GOLDEN - j) % 0x1_0000_0000_0000_0000 == 0
  {
    hide StateAfter, SeedWorker, Word, Clear, GOLDEN;
    AnyClear(seed);
    var start := WordSurjective(seed, 64);
    SeedOfCount(start, i);
    SeedOfCount(start, j);
    StateOfCount(start + i + 1, n);
    Congruent(start + i + 1 + n * GOLDEN, start + j + 1);
    Power2Values();
    hide Power2;
    Differ(start + i + 1 + n * GOLDEN, start + j + 1, 0x1_0000_0000_0000_0000);
    assert start + i + 1 + n * GOLDEN - (start + j + 1) == i + n * GOLDEN - j;
  }

  lemma Differ(a: int, b: int, p: nat)
    requires 0 < p
    ensures a % p == b % p <==> (a - b) % p == 0
  {
    var q, r, e := a / p, b / p, (a - b) / p;
    assert a == q * p + a % p && b == r * p + b % p && a - b == e * p + (a - b) % p;
    if a % p == b % p {
      assert a - b == (q - r) * p + 0;
      QuotientIs(a - b, p, q - r, 0);
    } else if (a - b) % p == 0 {
      assert a == (r + e) * p + b % p;
      QuotientIs(a, p, r + e, b % p);
    }
  }

  /** No worker below ten reaches another's start sooner. */
  const SOONEST: nat := 1_018_231_460_777_725_123

  lemma Apart(d: int, n: nat)
    requires -9 <= d <= 9 && d != 0 && (n * GOLDEN - d) % 0x1_0000_0000_0000_0000 == 0
    ensures SOONEST <= n
  {
    var e := (n * GOLDEN - d) / 0x1_0000_0000_0000_0000;
    var z := InverseSteps(d, n, e);
    if d < 0 {
      assert 0 <= z;
    } else {
      assert 1 <= z;
    }
  }

  /** Multiplying by the inverse of GOLDEN, which is 2^64 - SOONEST. */
  lemma InverseSteps(d: int, n: int, e: int) returns (z: int)
    requires n * GOLDEN - d == e * 0x1_0000_0000_0000_0000
    ensures n == z * 0x1_0000_0000_0000_0000 - d * SOONEST
  {
    z := e * 0xF1DE_83E1_9937_733D - n * 0x957B_BF35_006E_D677 + d;
  }

  /** Below SOONEST draws two workers never draw the same word, at whatever indices. */
  lemma WorkersNeverMeet(seed: bv64, i: nat, j: nat, a: nat, b: nat)
    requires i < 10 && j < 10 && i != j && a < SOONEST && b < SOONEST
    ensures Draw(SeedWorker(seed, i), a) != Draw(SeedWorker(seed, j), b)
  {
    hide Draw, StateAfter, SeedWorker, GOLDEN;
    if b <= a {
      SameDraw(SeedWorker(seed, i), SeedWorker(seed, j), a, b);
      WorkerReaches(seed, i, j, a - b);
      NotSooner(i, j, a - b);
    } else {
      SameDraw(SeedWorker(seed, j), SeedWorker(seed, i), b, a);
      WorkerReaches(seed, j, i, b - a);
      NotSooner(j, i, b - a);
    }
  }

  lemma NotSooner(i: nat, j: nat, n: nat)
    requires i < 10 && j < 10 && i != j && n < SOONEST
    ensures (i + n * GOLDEN - j) % 0x1_0000_0000_0000_0000 != 0
  {
    if (i + n * GOLDEN - j) % 0x1_0000_0000_0000_0000 == 0 {
      Apart(j - i, n);
    }
  }

  /** And at SOONEST draws each worker reaches the start of the one before it. */
  lemma WorkersMeet(seed: bv64, i: nat)
    ensures StateAfter(SeedWorker(seed, i + 1), SOONEST) == SeedWorker(seed, i)
  {
    WorkerReaches(seed, i + 1, i, SOONEST);
    hide StateAfter, SeedWorker;
    assert i + 1 + SOONEST * GOLDEN - i == 1 + SOONEST * GOLDEN;
    assert (1 + SOONEST * GOLDEN) % 0x1_0000_0000_0000_0000 == 0;
  }
}
