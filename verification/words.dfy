/**
  Counts as 64-bit words: an embedding of the naturals below 2^64 that is
  one-to-one, onto, and takes successor to wrapping increment.
  */
module Words {
  import opened Powers

  function Bit(n: nat): bv64 { if n % 2 == 1 then 1 else 0 }
  function Join(w: bv64, b: bv64): bv64 { (w << 1) | b }

  /** A count as a 64-bit word. */
  function Word(n: nat): bv64 {
    if n == 0 then 0 else Join(Word(n / 2), Bit(n))
  }

  lemma WordSplit(n: nat)
    ensures Word(n) == Join(Word(n / 2), Bit(n))
  {
    assert Join(0, 0) == 0;
  }

  function Next(w: bv64): bv64 { w + 1 }

  lemma JoinNext(w: bv64)
    ensures Join(w, 1) == Next(Join(w, 0)) && Join(Next(w), 0) == Next(Join(w, 1))
  {
  }

  lemma {:induction false} WordSuccessor(n: nat)
    ensures Word(n + 1) == Next(Word(n))
  {
    hide Join, Next, Word;
    WordSplit(n);
    WordSplit(n + 1);
    JoinNext(Word(n / 2));
    if n % 2 == 0 {
      assert (n + 1) / 2 == n / 2;
    } else {
      assert (n + 1) / 2 == n / 2 + 1;
      WordSuccessor(n / 2);
    }
  }

  /** The bits from position `k` up. */
  function High(k: nat): bv64 {
    if k == 0 then 0xFFFF_FFFF_FFFF_FFFF else Join(High(k - 1), 0)
  }

  predicate Clear(w: bv64, mask: bv64) { w & mask == 0 }

  lemma JoinClear(w: bv64, h: bv64)
    requires Clear(w, h)
    ensures Clear(Join(w, 0), Join(h, 0)) && Clear(Join(w, 1), Join(h, 0))
  {
  }

  lemma {:induction false} SmallWord(n: nat, k: nat)
    requires n < Power2(k)
    ensures Clear(Word(n), High(k))
  {
    if n == 0 {
      assert Clear(0, High(k));
    } else {
      SmallWord(n / 2, k - 1);
      JoinClear(Word(n / 2), High(k - 1));
      hide Join, Clear;
    }
  }

  lemma HighBy2(k: nat)
    ensures High(k + 2) == High(k) << 2
  {
    assert High(k + 2) == (High(k) << 1) << 1;
  }

  lemma ShiftsAdd(h: bv64)
    ensures (((h << 2) << 2) << 2) << 2 == h << 8
  {
  }

  lemma HighBy8(k: nat)
    ensures High(k + 8) == High(k) << 8
  {
    HighBy2(k); HighBy2(k + 2); HighBy2(k + 4); HighBy2(k + 6);
    ShiftsAdd(High(k));
  }

  lemma TopBits()
    ensures High(63) == 0x8000_0000_0000_0000 && High(64) == 0
  {
    HighBy8(0); HighBy8(8); HighBy8(16); HighBy8(24); HighBy8(32); HighBy8(40); HighBy8(48);
    HighBy2(56); HighBy2(58); HighBy2(60); HighBy2(62);
    assert High(63) == High(62) << 1;
  }

  lemma {:induction false} TopClear(n: nat, k: nat)
    requires k <= 63 && n < Power2(k)
    ensures Clear(Word(n), 0x8000_0000_0000_0000)
    decreases 63 - k
  {
    if k == 63 {
      SmallWord(n, 63);
      TopBits();
    } else {
      TopClear(n, k + 1);
    }
  }

  lemma JoinInjective(v: bv64, w: bv64, m: nat, n: nat)
    requires Clear(v, 0x8000_0000_0000_0000) && Clear(w, 0x8000_0000_0000_0000)
    requires Join(v, Bit(m)) == Join(w, Bit(n))
    ensures v == w && m % 2 == n % 2
  {
    JoinInjectiveWords(v, w, Bit(m), Bit(n));
  }

  lemma JoinInjectiveWords(v: bv64, w: bv64, a: bv64, b: bv64)
    requires v & 0x8000_0000_0000_0000 == 0 && w & 0x8000_0000_0000_0000 == 0 && a <= 1 && b <= 1
    requires (v << 1) | a == (w << 1) | b
    ensures v == w && a == b
  {
  }

  /** Different counts below 2^k, k at most 64, are different words. */
  lemma {:induction false} WordInjective(m: nat, n: nat, k: nat)
    requires k <= 64 && m < Power2(k) && n < Power2(k) && Word(m) == Word(n)
    ensures m == n
  {
    hide Word, Join, Clear, Bit;
    if k == 0 {
    } else {
      TopClear(m / 2, k - 1);
      TopClear(n / 2, k - 1);
      WordSplit(m);
      WordSplit(n);
      JoinInjective(Word(m / 2), Word(n / 2), m, n);
      WordInjective(m / 2, n / 2, k - 1);
    }
  }

  function Half(v: bv64): bv64 { v >> 1 }

  lemma HalfJoin(v: bv64, h: bv64) returns (odd: bool)
    requires Clear(v, Join(h, 0))
    ensures Clear(Half(v), h)
    ensures v == Join(Half(v), if odd then 1 else 0)
  {
    odd := v & 1 == 1;
  }

  /** Every word is the word of a count below 2^64. */
  lemma {:induction false} WordSurjective(v: bv64, k: nat) returns (n: nat)
    requires Clear(v, High(k))
    ensures n < Power2(k) && Word(n) == v
  {
    if k == 0 {
      AllClear(v);
      n := 0;
    } else {
      hide Join, Clear, Half, Word;
      var odd := HalfJoin(v, High(k - 1));
      var h := WordSurjective(Half(v), k - 1);
      n := 2 * h + if odd then 1 else 0;
      WordSplit(n);
      assert n / 2 == h;
    }
  }

  lemma AllClear(v: bv64)
    requires Clear(v, 0xFFFF_FFFF_FFFF_FFFF)
    ensures v == 0
  {
  }

  // --------------------------------------------------------------- arithmetic

  function Add(v: bv64, w: bv64): bv64 { v + w }

  lemma AddNext(v: bv64, w: bv64)
    ensures Add(v, Next(w)) == Next(Add(v, w)) && Add(v, 0) == v
  {
  }

  /** Sums of counts are sums of words. */
  lemma {:induction false} WordAdds(m: nat, n: nat)
    ensures Word(m + n) == Add(Word(m), Word(n))
  {
    hide Add, Next, Word;
    if n == 0 {
      AddNext(Word(m), 0);
      ZeroWord();
    } else {
      WordAdds(m, n - 1);
      WordSuccessor(n - 1);
      WordSuccessor(m + n - 1);
      AddNext(Word(m), Word(n - 1));
    }
  }

  lemma ZeroWord()
    ensures Word(0) == 0
  {
  }

  function Up4(w: bv64): bv64 { w << 4 }

  lemma FourJoins(w: bv64)
    ensures Join(Join(Join(Join(w, 0), 0), 0), 0) == Up4(w)
  {
  }

  lemma WordTwice(n: nat)
    ensures Word(2 * n) == Join(Word(n), 0)
  {
    hide Join, Word;
    WordSplit(2 * n);
  }

  lemma Word16(n: nat)
    ensures Word(16 * n) == Up4(Word(n))
  {
    hide Join, Word, Up4;
    WordTwice(n);
    WordTwice(2 * n);
    WordTwice(4 * n);
    WordTwice(8 * n);
    FourJoins(Word(n));
  }

  /** Appending a hexadecimal digit. */
  lemma WordDigit(n: nat, d: nat)
    ensures Word(16 * n + d) == Add(Up4(Word(n)), Word(d))
  {
    hide Word, Up4, Add;
    Word16(n);
    WordAdds(16 * n, d);
  }

  lemma {:induction false} WordPower(k: nat)
    ensures Word(Power2(k + 4)) == Up4(Word(Power2(k)))
  {
    hide Word, Up4;
    assert Power2(k + 4) == 16 * Power2(k) by { assert Power2(k + 2) == 4 * Power2(k); }
    Word16(Power2(k));
  }

  lemma WordPeriod()
    ensures Word(Power2(64)) == 0
  {
    assert Word(1) == 1 && Power2(0) == 1;
    hide Word, Power2;
    WordPower(0); WordPower(4); WordPower(8); WordPower(12);
    WordPower(16); WordPower(20); WordPower(24); WordPower(28);
    WordPower(32); WordPower(36); WordPower(40); WordPower(44);
    WordPower(48); WordPower(52); WordPower(56); WordPower(60);
  }

  lemma {:induction false} WordWraps(n: nat, q: nat)
    ensures Word(n + q * Power2(64)) == Word(n)
  {
    hide Word, Power2, Add;
    if q == 0 {
    } else {
      WordWraps(n, q - 1);
      WordPeriod();
      WordAdds(n + (q - 1) * Power2(64), Power2(64));
      AddNext(Word(n), 0);
      assert n + (q - 1) * Power2(64) + Power2(64) == n + q * Power2(64);
    }
  }

  lemma Parts(n: nat, p: nat)
    requires 0 < p
    ensures n == n % p + n / p * p && n % p < p
  {
  }

  lemma WordModulo(n: nat)
    ensures 0 < Power2(64) && n % Power2(64) < Power2(64) && Word(n) == Word(n % Power2(64))
  {
    hide Word, Power2;
    Power2Positive(64);
    WordWraps(n % Power2(64), n / Power2(64));
    Parts(n, Power2(64));
  }

  /** Counts are the same word exactly when they are congruent modulo 2^64. */
  lemma Congruent(m: nat, n: nat)
    ensures 0 < Power2(64) && (Word(m) == Word(n) <==> m % Power2(64) == n % Power2(64))
  {
    hide Word, Power2;
    WordModulo(m);
    WordModulo(n);
    var p := Power2(64);
    var a, b := m % p, n % p;
    if Word(m) == Word(n) { WordInjective(a, b, 64); }
  }
}
