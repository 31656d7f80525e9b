/** Powers of two. */
module Powers {

  function Power2(k: nat): nat {
    if k == 0 then 1 else 2 * Power2(k - 1)
  }

  lemma {:induction false} Power2Positive(k: nat)
    ensures 0 < Power2(k)
  {
    if k == 0 {
    } else {
      Power2Positive(k - 1);
    }
  }

  lemma {:induction false} Power2Add(j: nat, k: nat)
    ensures Power2(j + k) == Power2(j) * Power2(k)
  {
    if j == 0 {
    } else {
      Power2Add(j - 1, k);
      assert 2 * (Power2(j - 1) * Power2(k)) == Power2(j) * Power2(k);
    }
  }

  lemma {:induction false} Power2Grows(j: nat, k: nat)
    requires j <= k
    ensures Power2(j) <= Power2(k)
    decreases k
  {
    if j < k {
      Power2Grows(j, k - 1);
    }
  }

  lemma Power2By8(k: nat)
    ensures Power2(k + 8) == 256 * Power2(k)
  {
    assert Power2(k + 4) == 16 * Power2(k) by { assert Power2(k + 2) == 4 * Power2(k); }
    assert Power2(k + 6) == 4 * Power2(k + 4);
  }

  /** The powers the word sizes and the significand call for. */
  lemma Power2Values()
    ensures Power2(8) == 0x100 && Power2(10) == 0x400 && Power2(16) == 0x1_0000
    ensures Power2(20) == 0x10_0000 && Power2(30) == 0x4000_0000
    ensures Power2(52) == 0x10_0000_0000_0000 && Power2(53) == 0x20_0000_0000_0000
    ensures Power2(63) == 0x8000_0000_0000_0000 && Power2(64) == 0x1_0000_0000_0000_0000
  {
    Power2By8(0);
    Power2By8(8);
    assert Power2(4) == 16 by { assert Power2(2) == 4; }
    Power2Add(16, 4);
    Power2Add(8, 2);
    Power2Add(20, 10);
    Power2Add(20, 16);
    Power2Add(36, 16);
    Power2Add(53, 10);
  }
}
