/** xallocator's sizes: power-of-two buckets in front of fixed-block allocators. `size_t`
    is 64 bits wide, and sums wrap as they do in the program. */
module XAllocators {
  import opened Common
  const WORD: nat := 0x1_0000_0000_0000_0000  // 2^64
  const TOP_POWER: nat := 0x8000_0000_0000_0000  // 2^63
  const HEADER: nat := 16
  const FOOTER: nat := 4
  const MIN_BLOCK: nat := 8

  // k | m, bit by bit.
  function Or(k: nat, m: nat): nat {
    if k == 0 then m else 2 * Or(k / 2, m / 2) + if k % 2 == 1 || m % 2 == 1 then 1 else 0
  }

  // k >> i
  function Shift(k: nat, i: nat): nat {
    if i == 0 then k else Shift(k / 2, i - 1)
  }

  // Counting up to 2^top, the first power of two that is not below k.
  function PowerFrom(k: nat, n: nat, top: nat): (p: nat)
    requires n <= top && k <= TwoTo(top)
    ensures p >= k && exists m: nat | n <= m <= top :: p == TwoTo(m)
    decreases top - n
  {
    if TwoTo(n) >= k then TwoTo(n) else PowerFrom(k, n + 1, top)
  }

  // What nexthigher is for, in words of so many bits: the least power of two not below k.
  // Zero, and what lies above the greatest power of two, has none.
  function BucketFor(k: nat, bits: nat): nat
    requires bits > 0
  {
    if 1 <= k <= TwoTo(bits - 1) then PowerFrom(k, 0, bits - 1) else 0
  }

  function Bucket(k: nat): nat {
    Pow63();
    if 1 <= k <= TOP_POWER then PowerFrom(k, 0, 63) else 0
  }

  lemma BucketIs(k: nat)
    ensures Bucket(k) == BucketFor(k, 64)
  {
    Pow63();
  }

  lemma Pow63()
    ensures TwoTo(63) == TOP_POWER && TwoTo(64) == WORD
  {
    Pow16();
    PowAdd(16, 16);
    assert TwoTo(32) == 0x1_0000_0000;
    PowAdd(32, 32);
    assert TwoTo(64) == 2 * TwoTo(63);
  }

  lemma Pow16()
    ensures TwoTo(16) == 0x1_0000
  {
    assert TwoTo(4) == 16;
    PowAdd(4, 4);
    PowAdd(8, 8);
  }

  lemma {:induction false} PowAdd(a: nat, b: nat)
    ensures TwoTo(a + b) == TwoTo(a) * TwoTo(b)
  {
    if a > 0 {
      PowAdd(a - 1, b);
      assert TwoTo(a) * TwoTo(b) == 2 * (TwoTo(a - 1) * TwoTo(b));
    }
  }

  lemma {:induction false} PowGrows(a: nat, b: nat)
    requires a < b
    ensures 2 * TwoTo(a) <= TwoTo(b)
  {
    if a + 1 < b {
      PowGrows(a, b - 1);
    }
  }

  /** The bucket is a power of two not below k, and no smaller one will do. */
  lemma {:induction false} LeastPower(k: nat, bits: nat, m: nat)
    requires bits > 0 && 1 <= k <= TwoTo(bits - 1)
    ensures BucketFor(k, bits) >= k && exists n: nat | n < bits :: BucketFor(k, bits) == TwoTo(n)
    ensures TwoTo(m) >= k ==> BucketFor(k, bits) <= TwoTo(m)
  {
    var n: nat :| n <= bits - 1 && BucketFor(k, bits) == TwoTo(n);
    if TwoTo(m) >= k {
      LeastFrom(k, 0, bits - 1, m);
    }
  }

  lemma {:induction false} LeastFrom(k: nat, n: nat, top: nat, m: nat)
    requires n <= top && k <= TwoTo(top) && n <= m && TwoTo(m) >= k
    ensures PowerFrom(k, n, top) <= TwoTo(m)
    decreases top - n
  {
    if TwoTo(n) >= k {
      if n < m { PowGrows(n, m); }
    } else {
      LeastFrom(k, n + 1, top, m);
    }
  }

  lemma BucketIsLeast(k: nat, m: nat)
    requires 1 <= k <= TOP_POWER
    ensures Bucket(k) >= k && exists n: nat | n <= 63 :: Bucket(k) == TwoTo(n)
    ensures TwoTo(m) >= k ==> Bucket(k) <= TwoTo(m)
  {
    Pow63();
    BucketIs(k);
    LeastPower(k, 64, m);
    var n: nat :| n < 64 && Bucket(k) == TwoTo(n);
  }

  // ---------------------------------------------------------------- spreading the top bit

  lemma {:induction false} OrZero(k: nat)
    ensures Or(k, 0) == k
  {
    if k > 0 { OrZero(k / 2); }
  }

  lemma {:induction false} OrBounds(k: nat, m: nat, p: nat)
    requires k < TwoTo(p) && m < TwoTo(p)
    ensures k <= Or(k, m) < TwoTo(p) && m <= Or(k, m)
  {
    if k > 0 {
      OrBounds(k / 2, m / 2, p - 1);
    }
  }

  // The bits above p are untouched by what is below 2^p.
  lemma {:induction false} OrSplit(high: nat, low: nat, m: nat, p: nat)
    requires low < TwoTo(p) && m < TwoTo(p)
    ensures Or(high * TwoTo(p) + low, m) == high * TwoTo(p) + Or(low, m)
  {
    if p == 0 {
      OrZero(high);
    } else {
      var k := high * TwoTo(p) + low;
      assert k == 2 * (high * TwoTo(p - 1)) + low;
      assert k / 2 == high * TwoTo(p - 1) + low / 2 && k % 2 == low % 2;
      OrSplit(high, low / 2, m / 2, p - 1);
      if k > 0 && low == 0 {
        assert Or(low / 2, m / 2) == m / 2;
      }
    }
  }

  // r fits n bits, and its first `ones` bits, or all of them, are ones.
  predicate TopOnes(r: nat, n: nat, ones: nat) {
    r < TwoTo(n) && r >= TwoTo(n) - TwoTo(if ones <= n then n - ones else 0)
  }

  // One round doubles the run of ones at the top.
  lemma Round(r: nat, n: nat, i: nat)
    requires TopOnes(r, n, i) && i > 0
    ensures TopOnes(Or(r, Shift(r, i)), n, 2 * i)
  {
    if i >= n {
      if n < i { PowGrows(n, i); }
      ShiftBounds(r, i, 0, 1);
      OrZero(r);
    } else {
      var p, m := n - i, Shift(r, i);
      PowAdd(i, p);
      ShiftedOnes(r, n, i);
      SplitOnes(r, TwoTo(i), TwoTo(p), m, p);
    }
  }

  lemma SplitOnes(r: nat, d: nat, e: nat, m: nat, p: nat)
    requires e == TwoTo(p) && d > 0 && d * e - e <= r < d * e && m < e
    ensures d * e > Or(r, m) >= d * e - e + m
  {
    OneLess(d, e);
    OrAbove(r, d - 1, r - (d - 1) * e, m, p);
  }

  lemma OneLess(d: nat, e: nat)
    requires d > 0
    ensures (d - 1) * e == d * e - e
  {
  }

  // Or leaves what is above 2^p alone, and does not lose what is below.
  lemma OrAbove(r: nat, high: nat, low: nat, m: nat, p: nat)
    requires r == high * TwoTo(p) + low && low < TwoTo(p) && m < TwoTo(p)
    ensures high * TwoTo(p) + m <= Or(r, m) < high * TwoTo(p) + TwoTo(p)
  {
    OrSplit(high, low, m, p);
    OrBounds(low, m, p);
  }

  lemma ShiftedOnes(r: nat, n: nat, i: nat)
    requires 0 < i < n && TopOnes(r, n, i)
    ensures TopOnes(Shift(r, i), n - i, i)
  {
    var p := n - i;
    PowAdd(i, p);
    if i <= p {
      PowAdd(i, p - i);
      ShiftRange(r, i, TwoTo(i), TwoTo(p), TwoTo(p - i));
    } else {
      PowGrows(p, i);
      ShiftRange(r, i, TwoTo(i), TwoTo(p), 1);
    }
  }

  lemma ShiftRange(r: nat, i: nat, d: nat, e: nat, f: nat)
    requires d == TwoTo(i) && f <= e && e <= d * f && d * e - e <= r < d * e
    ensures e - f <= Shift(r, i) < e
  {
    assert (e - f) * d == d * e - d * f;
    ShiftBounds(r, i, e - f, e);
  }

  lemma {:induction false} ShiftBounds(r: nat, i: nat, from: nat, to: nat)
    requires from * TwoTo(i) <= r < to * TwoTo(i)
    ensures from <= Shift(r, i) < to
  {
    if i > 0 {
      assert from * TwoTo(i) == 2 * (from * TwoTo(i - 1)) && to * TwoTo(i) == 2 * (to * TwoTo(i - 1));
      ShiftBounds(r / 2, i - 1, from, to);
    }
  }

  lemma {:induction false} HasTop(x: nat) returns (n: nat)
    requires x > 0
    ensures n > 0 && TopOnes(x, n, 1)
  {
    if x == 1 {
      n := 1;
    } else {
      n := HasTop(x / 2);
      n := n + 1;
    }
  }

  /** nexthigher, for words of any width: it spreads the top bit of k - 1 downwards, and
      adds one. */
  method NextHigher(k: nat, bits: nat) returns (r: nat)
    requires bits > 0 && k < TwoTo(bits)
    ensures r == BucketFor(k, bits)
  {
    r := if k == 0 then TwoTo(bits) - 1 else k - 1;  // k--
    ghost var n := 0;
    if r > 0 {
      n := HasTop(r);
    }
    ghost var x := r;
    var i := 1;
    while i < bits
      invariant i > 0
      invariant if x == 0 then r == 0 else TopOnes(r, n, i)
      decreases bits - i
    {
      if x > 0 {
        Round(r, n, i);
      } else {
        ShiftBounds(r, i, 0, 1);
      }
      r := Or(r, Shift(r, i));  // k |= k >> i
      i := 2 * i;
    }
    SpreadIs(k, bits, x, n, i, r);
    r := if r == TwoTo(bits) - 1 then 0 else r + 1;
  }

  lemma SpreadIs(k: nat, bits: nat, x: nat, n: nat, i: nat, r: nat)
    requires bits > 0 && k < TwoTo(bits) && x == (if k == 0 then TwoTo(bits) - 1 else k - 1) && i >= bits
    requires if x == 0 then r == 0 else n > 0 && TopOnes(x, n, 1) && TopOnes(r, n, i)
    ensures BucketFor(k, bits) == if r == TwoTo(bits) - 1 then 0 else r + 1
  {
    if x > 0 {
      FitsWord(x, n, bits);
      assert r + 1 == TwoTo(n);
      if n < bits {
        PowGrows(n, bits);
        FitsTop(x, n, bits);
        PowerIs(k, 0, n, bits - 1);
      }
    }
  }

  lemma FitsWord(x: nat, n: nat, bits: nat)
    requires bits > 0 && n > 0 && TopOnes(x, n, 1) && x < TwoTo(bits)
    ensures n <= bits && (n == bits ==> x >= TwoTo(bits - 1))
  {
    if n > bits { PowGrows(bits, n); }
  }

  lemma FitsTop(x: nat, n: nat, bits: nat)
    requires 0 < n < bits && TopOnes(x, n, 1)
    ensures TwoTo(n - 1) <= x < TwoTo(n) <= TwoTo(bits - 1)
  {
    if n < bits - 1 { PowGrows(n, bits - 1); }
  }

  lemma {:induction false} PowerIs(k: nat, from: nat, n: nat, top: nat)
    requires from <= n <= top && 1 <= k <= TwoTo(top) && TwoTo(n) >= k && (n > 0 ==> TwoTo(n - 1) < k)
    ensures PowerFrom(k, from, top) == TwoTo(n)
    decreases n - from
  {
    if from < n {
      if from < n - 1 { PowGrows(from, n - 1); }
      PowerIs(k, from + 1, n, top);
    }
  }
}
