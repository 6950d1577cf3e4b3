/** Polynomials over GF(2) modulo x^16 + x^12 + x^5 + 1 (ITU-T V.41, section 2), and the
    register into which a message is fed bit by bit. This is what a 16-bit CRC means. */
module Gf2 {
  // The coefficient of x^i is at index i.
  type Word = w: seq<bool> | |w| == 16 witness [false, false, false, false, false, false, false, false,
                                                false, false, false, false, false, false, false, false]

  function Zero(): Word {
    seq(16, _ => false)
  }

  function Xor(a: Word, b: Word): Word {
    seq(16, i requires 0 <= i < 16 => a[i] != b[i])
  }

  // Multiplication by x: the coefficient that leaves at x^15 comes back at 1, x^5 and x^12.
  function Shift(c: Word): Word {
    seq(16, i requires 0 <= i < 16 =>
      if i == 0 then c[15] else if i == 5 || i == 12 then c[i - 1] != c[15] else c[i - 1])
  }

  function ShiftN(c: Word, k: nat): Word {
    if k == 0 then c else Shift(ShiftN(c, k - 1))
  }

  // One message bit goes in at the top.
  function Feed(c: Word, bit: bool): Word {
    Shift(c[15 := c[15] != bit])
  }

  function FeedAll(bits: seq<bool>, c: Word): Word {
    if bits == [] then c else Feed(FeedAll(bits[..|bits| - 1], c), bits[|bits| - 1])
  }

  function XorBits(a: seq<bool>, b: seq<bool>): (r: seq<bool>)
    requires |a| == |b|
    ensures |r| == |a| && forall i | 0 <= i < |a| :: r[i] == (a[i] != b[i])
  {
    seq(|a|, i requires 0 <= i < |a| => a[i] != b[i])
  }

  /** The CRC of a concatenation is the chained CRC. */
  lemma {:induction false} Chained(a: seq<bool>, b: seq<bool>, c: Word)
    ensures FeedAll(a + b, c) == FeedAll(b, FeedAll(a, c))
  {
    if b == [] {
      assert a + b == a;
    } else {
      assert (a + b)[..|a + b| - 1] == a + b[..|b| - 1];
      Chained(a, b[..|b| - 1], c);
    }
  }

  lemma FeedLinear(c: Word, d: Word, e: bool, f: bool)
    ensures Feed(Xor(c, d), e != f) == Xor(Feed(c, e), Feed(d, f))
  {
  }

  /** Linearity: the CRC of a difference is the difference of the CRCs. */
  lemma {:induction false} Linear(a: seq<bool>, b: seq<bool>, c: Word, d: Word)
    requires |a| == |b|
    ensures FeedAll(XorBits(a, b), Xor(c, d)) == Xor(FeedAll(a, c), FeedAll(b, d))
  {
    if a != [] {
      var n := |a| - 1;
      assert XorBits(a, b)[..n] == XorBits(a[..n], b[..n]);
      Linear(a[..n], b[..n], c, d);
      FeedLinear(FeedAll(a[..n], c), FeedAll(b[..n], d), a[n], b[n]);
    }
  }

  // The coefficients of 1 up to x^(k-1) are zero.
  predicate LowZero(c: Word, k: nat)
    requires k <= 16
  {
    forall i | 0 <= i < k :: !c[i]
  }

  /** Feeding is invertible: what feeds to zero was zero but for the bit fed. So, going
      back, each bit costs at most one more coefficient. */
  lemma FeedBack(c: Word, bit: bool, k: nat)
    requires 0 < k <= 16 && LowZero(Feed(c, bit), k)
    ensures LowZero(c, k - 1)
    ensures k == 16 ==> c[15] == bit
  {
    var fed := Feed(c, bit);
    assert !fed[0];
    forall i | 0 <= i < k - 1 ensures !c[i] {
      assert !fed[i + 1];
    }
    if k == 16 {
      assert !fed[0];
    }
  }

  lemma {:induction false} FeedAllBack(bits: seq<bool>, c: Word)
    requires |bits| <= 16 && FeedAll(bits, c) == Zero()
    ensures LowZero(c, 16 - |bits|)
  {
    BackFrom(bits, c, 16);
  }

  lemma {:induction false} BackFrom(bits: seq<bool>, c: Word, k: nat)
    requires |bits| <= k <= 16 && LowZero(FeedAll(bits, c), k)
    ensures LowZero(c, k - |bits|)
  {
    if bits != [] {
      var n := |bits| - 1;
      FeedBack(FeedAll(bits[..n], c), bits[n], k);
      BackFrom(bits[..n], c, k - 1);
    }
  }

  lemma NotFedToZero(c: Word)
    ensures c != Zero() ==> Feed(c, false) != Zero()
  {
    if LowZero(Feed(c, false), 16) {
      FeedBack(c, false, 16);
      assert c == Zero();
    }
  }

  lemma XorIsZero(a: Word, b: Word)
    ensures Xor(a, b) == Zero() <==> a == b
  {
    if a != b {
      var i :| 0 <= i < 16 && a[i] != b[i];
      assert Xor(a, b)[i];
    }
  }

  // Zero bits keep a register that is not zero from becoming zero.
  lemma {:induction false} StaysNonzero(bits: seq<bool>, c: Word)
    requires (forall i | 0 <= i < |bits| :: !bits[i]) && c != Zero()
    ensures FeedAll(bits, c) != Zero()
  {
    if bits != [] {
      var n := |bits| - 1;
      var before := FeedAll(bits[..n], c);
      StaysNonzero(bits[..n], c);
      NotFedToZero(before);
    }
  }

  lemma {:induction false} StaysZero(bits: seq<bool>)
    requires forall i | 0 <= i < |bits| :: !bits[i]
    ensures FeedAll(bits, Zero()) == Zero()
  {
    if bits != [] {
      StaysZero(bits[..|bits| - 1]);
      assert Feed(Zero(), false) == Zero();
    }
  }

  lemma HitStays(bits: seq<bool>)
    requires |bits| <= 15
    ensures FeedAll(bits, Feed(Zero(), true)) != Zero()
  {
    var hit := Feed(Zero(), true);
    assert hit[0];
    if FeedAll(bits, hit) == Zero() {
      FeedAllBack(bits, hit);
    }
  }

  /** A burst of at most sixteen bits, from the first wrong bit to the last, is never fed
      to zero, whatever follows it. */
  lemma BurstNonzero(d: seq<bool>, first: nat, n: nat)
    requires first < |d| && d[first] && n <= 16
    requires forall i | 0 <= i < |d| && (i < first || i >= first + n) :: !d[i]
    ensures FeedAll(d, Zero()) != Zero()
  {
    var last := if first + n <= |d| then first + n else |d|;
    assert n > 0;
    var before, burst, after := d[..first], d[first + 1..last], d[last..];
    assert d == before + ([true] + burst) + after;
    InParts(before, burst, after);
  }

  lemma InParts(before: seq<bool>, burst: seq<bool>, after: seq<bool>)
    requires (forall i | 0 <= i < |before| :: !before[i]) && (forall i | 0 <= i < |after| :: !after[i])
    requires |burst| <= 15
    ensures FeedAll(before + ([true] + burst) + after, Zero()) != Zero()
  {
    Chained(before + ([true] + burst), after, Zero());
    Chained(before, [true] + burst, Zero());
    StaysZero(before);
    Chained([true], burst, Zero());
    assert [true][..0] == [] && FeedAll([true], Zero()) == Feed(Zero(), true);
    HitStays(burst);
    StaysNonzero(after, FeedAll([true] + burst, Zero()));
  }

  /** Two messages of one length that differ only within sixteen consecutive bits never
      have the same CRC. */
  lemma BurstDetected(a: seq<bool>, b: seq<bool>, c: Word, first: nat, n: nat)
    requires |a| == |b| && first < |a| && a[first] != b[first] && n <= 16
    requires forall i | 0 <= i < |a| && (i < first || i >= first + n) :: a[i] == b[i]
    ensures FeedAll(a, c) != FeedAll(b, c)
  {
    var d := XorBits(a, b);
    Linear(a, b, c, c);
    XorIsZero(c, c);
    BurstNonzero(d, first, n);
    XorIsZero(FeedAll(a, c), FeedAll(b, c));
  }

  // A register as message bits, highest first.
  function BitsOf(c: Word): (r: seq<bool>)
    ensures |r| == 16
  {
    seq(16, i requires 0 <= i < 16 => c[15 - i])
  }

  /** Fed with its own bits, a register runs empty: a message followed by its CRC has
      CRC zero. */
  lemma Residue(m: seq<bool>, c: Word)
    ensures FeedAll(m + BitsOf(FeedAll(m, c)), c) == Zero()
  {
    var r := FeedAll(m, c);
    Chained(m, BitsOf(r), c);
    OwnBits(r, 16);
    assert BitsOf(r)[..16] == BitsOf(r);
  }

  lemma {:induction false} OwnBits(r: Word, k: nat)
    requires k <= 16
    ensures var s := FeedAll(BitsOf(r)[..k], r); LowZero(s, k) && forall i | k <= i < 16 :: s[i] == r[i - k]
  {
    if k > 0 {
      OwnBits(r, k - 1);
      var before := BitsOf(r)[..k - 1];
      assert BitsOf(r)[..k][..k - 1] == before && BitsOf(r)[k - 1] == r[16 - k];
      var s := FeedAll(before, r);
      assert s[15] == r[16 - k];
    }
  }

  // ---------------------------------------------------------------- many bits at once

  function Unit(k: nat): Word
    requires k < 16
  {
    seq(16, i requires 0 <= i < 16 => i == k)
  }

  // The bits put in at the top, the first of them highest.
  function Inject(c: Word, bits: seq<bool>): Word
    requires |bits| <= 16
  {
    seq(16, i requires 0 <= i < 16 => if 15 - i < |bits| then c[i] != bits[15 - i] else c[i])
  }

  lemma {:induction false} ShiftNLinear(a: Word, b: Word, k: nat)
    ensures ShiftN(Xor(a, b), k) == Xor(ShiftN(a, k), ShiftN(b, k))
  {
    if k > 0 {
      ShiftNLinear(a, b, k - 1);
      assert Shift(Xor(ShiftN(a, k - 1), ShiftN(b, k - 1))) == Xor(ShiftN(a, k), ShiftN(b, k));
    }
  }

  // Where nothing leaves at the top, multiplication only moves the coefficients up.
  lemma {:induction false} ShiftUp(c: Word, k: nat)
    requires k <= 16 && forall i | 16 - k <= i < 16 :: !c[i]
    ensures forall i | 0 <= i < 16 :: ShiftN(c, k)[i] == (i >= k && c[i - k])
  {
    if k > 0 {
      ShiftUp(c, k - 1);
    }
  }

  /** Feeding up to sixteen bits is adding them at the top and then multiplying by x that
      many times: a whole byte can be fed at once. */
  lemma {:induction false} FeedIsShift(bits: seq<bool>, c: Word)
    requires |bits| <= 16
    ensures FeedAll(bits, c) == ShiftN(Inject(c, bits), |bits|)
  {
    if bits == [] {
      assert Inject(c, bits) == c;
    } else {
      var k := |bits| - 1;
      var before := Inject(c, bits[..k]);
      FeedIsShift(bits[..k], c);
      if bits[k] {
        assert Inject(c, bits) == Xor(before, Unit(15 - k));
        ShiftNLinear(before, Unit(15 - k), k);
        ShiftUp(Unit(15 - k), k);
        assert ShiftN(Unit(15 - k), k) == Unit(15);
        assert Xor(ShiftN(before, k), Unit(15)) == ShiftN(before, k)[15 := !ShiftN(before, k)[15]];
      } else {
        assert Inject(c, bits) == before;
        assert ShiftN(before, k)[15 := ShiftN(before, k)[15]] == ShiftN(before, k);
      }
    }
  }
}
