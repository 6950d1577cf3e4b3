/** The two forms of Crc16CalcBlock. An unsigned short is its sixteen bits, and an unsigned
    char its eight; the operators are defined on bits. */
module Crc16 {
  import opened Common
  import opened Gf2

  // Bit i is at index i.
  type Byte = b: seq<bool> | |b| == 8 witness [false, false, false, false, false, false, false, false]

  // ---------------------------------------------------------------- operators

  function ShiftLeft(c: Word, n: nat): Word {
    seq(16, i requires 0 <= i < 16 => i >= n && c[i - n])
  }

  function ShiftRight(c: Word, n: nat): Word {
    seq(16, i requires 0 <= i < 16 => i + n < 16 && c[i + n])
  }

  function Extend(b: Byte): Word {
    seq(16, i requires 0 <= i < 16 => i < 8 && b[i])
  }

  // The bits of a number, and the number of a word's low byte.
  function Bit(n: nat, i: nat): bool {
    if i == 0 then n % 2 == 1 else Bit(n / 2, i - 1)
  }

  function FromInt(n: nat): Word {
    seq(16, i requires 0 <= i < 16 => Bit(n, i))
  }

  function LowValue(c: Word, from: nat): nat
    requires from <= 8
    decreases 8 - from
  {
    if from == 8 then 0 else (if c[from] then 1 else 0) + 2 * LowValue(c, from + 1)
  }

  const POLY: nat := 0x1021

  // crcccitt_table, sixteen entries a row.
  const ROW0: seq<nat> := [0x0000, 0x1021, 0x2042, 0x3063, 0x4084, 0x50a5, 0x60c6, 0x70e7,
    0x8108, 0x9129, 0xa14a, 0xb16b, 0xc18c, 0xd1ad, 0xe1ce, 0xf1ef]
  const ROW1: seq<nat> := [0x1231, 0x0210, 0x3273, 0x2252, 0x52b5, 0x4294, 0x72f7, 0x62d6,
    0x9339, 0x8318, 0xb37b, 0xa35a, 0xd3bd, 0xc39c, 0xf3ff, 0xe3de]
  const ROW2: seq<nat> := [0x2462, 0x3443, 0x0420, 0x1401, 0x64e6, 0x74c7, 0x44a4, 0x5485,
    0xa56a, 0xb54b, 0x8528, 0x9509, 0xe5ee, 0xf5cf, 0xc5ac, 0xd58d]
  const ROW3: seq<nat> := [0x3653, 0x2672, 0x1611, 0x0630, 0x76d7, 0x66f6, 0x5695, 0x46b4,
    0xb75b, 0xa77a, 0x9719, 0x8738, 0xf7df, 0xe7fe, 0xd79d, 0xc7bc]
  const ROW4: seq<nat> := [0x48c4, 0x58e5, 0x6886, 0x78a7, 0x0840, 0x1861, 0x2802, 0x3823,
    0xc9cc, 0xd9ed, 0xe98e, 0xf9af, 0x8948, 0x9969, 0xa90a, 0xb92b]
  const ROW5: seq<nat> := [0x5af5, 0x4ad4, 0x7ab7, 0x6a96, 0x1a71, 0x0a50, 0x3a33, 0x2a12,
    0xdbfd, 0xcbdc, 0xfbbf, 0xeb9e, 0x9b79, 0x8b58, 0xbb3b, 0xab1a]
  const ROW6: seq<nat> := [0x6ca6, 0x7c87, 0x4ce4, 0x5cc5, 0x2c22, 0x3c03, 0x0c60, 0x1c41,
    0xedae, 0xfd8f, 0xcdec, 0xddcd, 0xad2a, 0xbd0b, 0x8d68, 0x9d49]
  const ROW7: seq<nat> := [0x7e97, 0x6eb6, 0x5ed5, 0x4ef4, 0x3e13, 0x2e32, 0x1e51, 0x0e70,
    0xff9f, 0xefbe, 0xdfdd, 0xcffc, 0xbf1b, 0xaf3a, 0x9f59, 0x8f78]
  const ROW8: seq<nat> := [0x9188, 0x81a9, 0xb1ca, 0xa1eb, 0xd10c, 0xc12d, 0xf14e, 0xe16f,
    0x1080, 0x00a1, 0x30c2, 0x20e3, 0x5004, 0x4025, 0x7046, 0x6067]
  const ROW9: seq<nat> := [0x83b9, 0x9398, 0xa3fb, 0xb3da, 0xc33d, 0xd31c, 0xe37f, 0xf35e,
    0x02b1, 0x1290, 0x22f3, 0x32d2, 0x4235, 0x5214, 0x6277, 0x7256]
  const ROW10: seq<nat> := [0xb5ea, 0xa5cb, 0x95a8, 0x8589, 0xf56e, 0xe54f, 0xd52c, 0xc50d,
    0x34e2, 0x24c3, 0x14a0, 0x0481, 0x7466, 0x6447, 0x5424, 0x4405]
  const ROW11: seq<nat> := [0xa7db, 0xb7fa, 0x8799, 0x97b8, 0xe75f, 0xf77e, 0xc71d, 0xd73c,
    0x26d3, 0x36f2, 0x0691, 0x16b0, 0x6657, 0x7676, 0x4615, 0x5634]
  const ROW12: seq<nat> := [0xd94c, 0xc96d, 0xf90e, 0xe92f, 0x99c8, 0x89e9, 0xb98a, 0xa9ab,
    0x5844, 0x4865, 0x7806, 0x6827, 0x18c0, 0x08e1, 0x3882, 0x28a3]
  const ROW13: seq<nat> := [0xcb7d, 0xdb5c, 0xeb3f, 0xfb1e, 0x8bf9, 0x9bd8, 0xabbb, 0xbb9a,
    0x4a75, 0x5a54, 0x6a37, 0x7a16, 0x0af1, 0x1ad0, 0x2ab3, 0x3a92]
  const ROW14: seq<nat> := [0xfd2e, 0xed0f, 0xdd6c, 0xcd4d, 0xbdaa, 0xad8b, 0x9de8, 0x8dc9,
    0x7c26, 0x6c07, 0x5c64, 0x4c45, 0x3ca2, 0x2c83, 0x1ce0, 0x0cc1]
  const ROW15: seq<nat> := [0xef1f, 0xff3e, 0xcf5d, 0xdf7c, 0xaf9b, 0xbfba, 0x8fd9, 0x9ff8,
    0x6e17, 0x7e36, 0x4e55, 0x5e74, 0x2e93, 0x3eb2, 0x0ed1, 0x1ef0]
  const ROWS: seq<seq<nat>> := [ROW0, ROW1, ROW2, ROW3, ROW4, ROW5, ROW6, ROW7,
    ROW8, ROW9, ROW10, ROW11, ROW12, ROW13, ROW14, ROW15]

  function Table(i: nat): nat
    requires i < 256
  {
    ROWS[i / 16][i % 16]
  }

  // ---------------------------------------------------------------- messages as bits

  // Highest bit first, as they are fed.
  function ByteBits(b: Byte): (bits: seq<bool>)
    ensures |bits| == 8
  {
    seq(8, k requires 0 <= k < 8 => b[7 - k])
  }

  function MessageBits(m: seq<Byte>): (bits: seq<bool>)
    ensures |bits| == 8 * |m|
  {
    if m == [] then [] else MessageBits(m[..|m| - 1]) + ByteBits(m[|m| - 1])
  }

  /** The CRC of a message from a start value: its bits, fed to the register. */
  function Crc(m: seq<Byte>, start: Word): Word {
    FeedAll(MessageBits(m), start)
  }

  lemma CrcStep(m: seq<Byte>, k: nat, start: Word)
    requires k < |m|
    ensures Crc(m[..k + 1], start) == FeedAll(ByteBits(m[k]), Crc(m[..k], start))
  {
    assert m[..k + 1][..k] == m[..k];
    Chained(MessageBits(m[..k]), ByteBits(m[k]), start);
  }

  // ---------------------------------------------------------------- the bitwise form

  lemma BitFromFifth(n: nat, k: nat)
    ensures Bit(n, k + 5) == Bit(n / 32, k)
  {
    assert Bit(n, k + 5) == Bit(n / 2 / 2, k + 3);
    assert Bit(n / 4, k + 3) == Bit(n / 4 / 2 / 2, k + 1);
    assert Bit(n / 16, k + 1) == Bit(n / 32, k);
  }

  // 0x1021 is 1 + 32 * (1 + 128).
  lemma PolyBit(i: nat)
    requires i < 16
    ensures Bit(POLY, i) == (i == 0 || i == 5 || i == 12)
  {
    if i < 5 {
      assert i == 0 || i == 1 || i == 2 || i == 3 || i == 4;
    } else {
      BitFromFifth(POLY, i - 5);
      Powers();
      if i < 10 {
        assert i == 5 || i == 6 || i == 7 || i == 8 || i == 9;
      } else if i < 12 {
        BitFromFifth(129, i - 10);
        assert i == 10 || i == 11;
      } else if i == 12 {
        TopBit(129, 7);
      } else {
        HighBitsZero(129, 8, i - 5);
      }
    }
  }

  lemma PolyBits()
    ensures forall i | 0 <= i < 16 :: FromInt(POLY)[i] == (i == 0 || i == 5 || i == 12)
  {
    forall i | 0 <= i < 16 ensures Bit(POLY, i) == (i == 0 || i == 5 || i == 12) {
      PolyBit(i);
    }
  }

  lemma BitIsFed(crc: Word, data: Word)
    ensures (if Xor(data, crc)[15] then Xor(ShiftLeft(crc, 1), FromInt(POLY)) else ShiftLeft(crc, 1))
            == Feed(crc, data[15])
  {
    PolyBits();
  }

  lemma DataBit(b: Byte, k: nat)
    requires k < 8
    ensures ShiftLeft(Extend(b), 8 + k)[15] == ByteBits(b)[k]
    ensures ShiftLeft(ShiftLeft(Extend(b), 8 + k), 1) == ShiftLeft(Extend(b), 9 + k)
  {
  }

  /** Crc16CalcBlock without the table. */
  method CalcBlockBitwise(msg: seq<Byte>, start: Word) returns (crc: Word)
    ensures crc == Crc(msg, start)
  {
    crc := start;
    var at := 0;
    while at < |msg|
      invariant at <= |msg| && crc == Crc(msg[..at], start)
    {
      CrcStep(msg, at, start);
      crc := FeedByte(msg[at], crc);
      at := at + 1;
    }
    assert msg[..at] == msg;
  }

  // The inner loop.
  method FeedByte(b: Byte, start: Word) returns (crc: Word)
    ensures crc == FeedAll(ByteBits(b), start)
  {
    crc := start;
    var data := ShiftLeft(Extend(b), 8);
    for k := 0 to 8
      invariant data == ShiftLeft(Extend(b), 8 + k)
      invariant crc == FeedAll(ByteBits(b)[..k], start)
    {
      BitIsFed(crc, data);
      DataBit(b, k);
      assert ByteBits(b)[..k + 1][..k] == ByteBits(b)[..k];
      if Xor(data, crc)[15] {
        crc := Xor(ShiftLeft(crc, 1), FromInt(POLY));
      } else {
        crc := ShiftLeft(crc, 1);
      }
      data := ShiftLeft(data, 1);
    }
    assert ByteBits(b)[..8] == ByteBits(b);
  }

  // ---------------------------------------------------------------- numbers and their bits

  lemma {:induction false} TopBit(n: nat, k: nat)
    requires n < 2 * TwoTo(k)
    ensures Bit(n, k) <==> n >= TwoTo(k)
  {
    if k > 0 {
      TopBit(n / 2, k - 1);
    }
  }

  function Flipped(n: nat, k: nat): int {
    if Bit(n, k) then n - TwoTo(k) else n + TwoTo(k)
  }

  lemma {:induction false} FlippedHalves(n: nat, k: nat)
    ensures Flipped(n, k) >= 0
    ensures k > 0 ==> Flipped(n, k) / 2 == Flipped(n / 2, k - 1) && Flipped(n, k) % 2 == n % 2
    ensures k == 0 ==> Flipped(n, k) / 2 == n / 2 && (Flipped(n, k) % 2 == 1 <==> n % 2 == 0)
  {
    if k > 0 {
      FlippedHalves(n / 2, k - 1);
      assert TwoTo(k) == 2 * TwoTo(k - 1) && Bit(n, k) == Bit(n / 2, k - 1);
    }
  }

  lemma {:induction false} FlippedAt(n: nat, k: nat, i: nat)
    requires Flipped(n, k) >= 0
    ensures Bit(Flipped(n, k), i) == (Bit(n, i) != (i == k))
  {
    FlippedHalves(n, k);
    if i > 0 && k > 0 {
      FlippedHalves(n / 2, k - 1);
      FlippedAt(n / 2, k - 1, i - 1);
    }
  }

  lemma FlipBit(n: nat, k: nat)
    ensures Bit(n, k) ==> n >= TwoTo(k)
    ensures var m := if Bit(n, k) then n - TwoTo(k) else n + TwoTo(k);
            forall i: nat :: Bit(m, i) == (Bit(n, i) != (i == k))
  {
    FlippedHalves(n, k);
    forall i: nat ensures Bit(Flipped(n, k), i) == (Bit(n, i) != (i == k)) {
      FlippedAt(n, k, i);
    }
  }

  lemma {:induction false} HighBitsZero(n: nat, k: nat, i: nat)
    requires n < TwoTo(k) && i >= k
    ensures !Bit(n, i)
  {
    if i > 0 {
      HighBitsZero(n / 2, if k > 0 then k - 1 else 0, i - 1);
    }
  }

  lemma Powers()
    ensures TwoTo(5) == 32 && TwoTo(7) == 128 && TwoTo(8) == 256
    ensures TwoTo(12) == 4096 && TwoTo(15) == 0x8000 && TwoTo(16) == 0x1_0000
  {
    assert TwoTo(3) == 8 && TwoTo(6) == 64 && TwoTo(9) == 512 && TwoTo(12) == 4096 && TwoTo(14) == 0x4000;
  }

  // ---------------------------------------------------------------- the table form

  // n ^ 0x1021: bits 0, 5 and 12 change.
  function Toggle(n: nat): nat {
    var a := if n % 2 == 0 then n + 1 else n - 1;
    var b := if a / 32 % 2 == 0 then a + 32 else a - 32;
    if b / 4096 % 2 == 0 then b + 4096 else b - 4096
  }

  // The table is generated by doubling: entries 2j and 2j + 1 follow from entry j.
  predicate Follow(entry: nat, even: nat, odd: nat) {
    if entry < 0x8000 then even == 2 * entry && odd == Toggle(even)
    else odd == 2 * entry - 0x1_0000 && even == Toggle(odd)
  }

  lemma Bit5(n: nat)
    ensures Bit(n, 5) == (n / 32 % 2 == 1)
  {
    BitFromFifth(n, 0);
  }

  lemma Bit12(n: nat)
    ensures Bit(n, 12) == (n / 4096 % 2 == 1)
  {
    BitFromFifth(n, 7);
    BitFromFifth(n / 32, 2);
    assert Bit(n / 1024, 2) == Bit(n / 1024 / 2 / 2, 0);
  }

  lemma ToggleIsXor(n: nat)
    requires n < 0x1_0000
    ensures Toggle(n) < 0x1_0000 && FromInt(Toggle(n)) == Xor(FromInt(n), FromInt(POLY))
  {
    Powers();
    var a := if n % 2 == 0 then n + 1 else n - 1;
    FlipBit(n, 0);
    Bit5(a);
    FlipBit(a, 5);
    var b := if a / 32 % 2 == 0 then a + 32 else a - 32;
    Bit12(b);
    FlipBit(b, 12);
    PolyBits();
  }

  // What the table's entry for byte value i must be: the byte, fed to an empty register.
  predicate EntryMeans(e: nat, i: nat) {
    e < 0x1_0000 && FromInt(e) == ShiftN(ShiftLeft(FromInt(i), 8), 8)
  }

  lemma DoubleIsShift(n: nat)
    requires n < 0x1_0000
    ensures n < 0x8000 ==> FromInt(2 * n) == Shift(FromInt(n))
    ensures n >= 0x8000 ==> Xor(FromInt(2 * n - 0x1_0000), FromInt(POLY)) == Shift(FromInt(n))
  {
    Powers();
    PolyBits();
    TopBit(n, 15);
    FlipBit(n, 15);
    var low := if n < 0x8000 then n else n - 0x8000;
    forall i | 0 <= i < 16 ensures Bit(2 * low, i) == (i > 0 && Bit(n, i - 1)) {
      assert 2 * low % 2 == 0 && 2 * low / 2 == low;
    }
  }

  lemma {:induction false} ShiftCommutes(c: Word, k: nat)
    ensures ShiftN(Shift(c), k) == Shift(ShiftN(c, k))
  {
    if k > 0 {
      ShiftCommutes(c, k - 1);
    }
  }

  // The bytes 2j and 2j + 1, at the top of the register.
  lemma TopOfDouble(j: nat)
    requires j < 128
    ensures ShiftLeft(FromInt(2 * j), 8) == Shift(ShiftLeft(FromInt(j), 8))
    ensures ShiftLeft(FromInt(2 * j + 1), 8) == Xor(ShiftLeft(FromInt(2 * j), 8), Unit(8))
  {
    Powers();
    HighBitsZero(j, 7, 7);
    assert (2 * j) / 2 == j && (2 * j + 1) / 2 == j;
    assert forall i | 0 < i < 16 :: Bit(2 * j, i) == Bit(j, i - 1) && Bit(2 * j + 1, i) == Bit(j, i - 1);
  }

  lemma UnitGivesPoly()
    ensures ShiftN(Unit(8), 8) == FromInt(POLY)
  {
    ShiftUp(Unit(8), 7);
    assert ShiftN(Unit(8), 7) == Unit(15);
    PolyBits();
  }

  lemma NextEntry(e: nat, j: nat, even: nat, odd: nat)
    requires j < 128 && EntryMeans(e, j) && Follow(e, even, odd)
    ensures EntryMeans(even, 2 * j) && EntryMeans(odd, 2 * j + 1)
  {
    DoubleIsShift(e);
    TopOfDouble(j);
    ShiftCommutes(ShiftLeft(FromInt(j), 8), 8);
    ShiftNLinear(ShiftLeft(FromInt(2 * j), 8), Unit(8), 8);
    UnitGivesPoly();
    if e < 0x8000 {
      ToggleIsXor(even);
    } else {
      ToggleIsXor(odd);
      XorBack(FromInt(odd), FromInt(POLY));
    }
  }

  lemma XorBack(a: Word, b: Word)
    ensures Xor(Xor(a, b), b) == a
  {
  }

  ghost predicate RowMeans(row: seq<nat>, base: nat) {
    |row| == 16 && forall k | 0 <= k < 16 :: EntryMeans(row[k], base + k)
  }

  // Eight pairs of a row, each following from one entry.
  ghost predicate PairsFollow(from: seq<nat>, offset: nat, row: seq<nat>) {
    && |from| == |row| == 16 && offset <= 8
    && forall m | 0 <= m < 8 :: Follow(from[offset + m], row[2 * m], row[2 * m + 1])
  }

  lemma NextCell(e: nat, j: nat, even: nat, odd: nat, k: nat)
    requires j < 128 && EntryMeans(e, j) && Follow(e, even, odd) && (k == 2 * j || k == 2 * j + 1)
    ensures EntryMeans(if k == 2 * j then even else odd, k)
  {
    NextEntry(e, j, even, odd);
  }

  lemma NextRow(from: seq<nat>, base: nat, offset: nat, row: seq<nat>)
    requires RowMeans(from, base) && PairsFollow(from, offset, row) && base + offset + 8 <= 128
    ensures RowMeans(row, 2 * (base + offset))
  {
    forall k | 0 <= k < 16 ensures EntryMeans(row[k], 2 * (base + offset) + k) {
      RowCell(from, base, offset, row, k, k / 2);
    }
  }

  lemma RowCell(from: seq<nat>, base: nat, offset: nat, row: seq<nat>, k: nat, m: nat)
    requires RowMeans(from, base) && PairsFollow(from, offset, row) && base + offset + 8 <= 128
    requires m < 8 && (k == 2 * m || k == 2 * m + 1)
    ensures EntryMeans(row[k], 2 * (base + offset) + k)
  {
    var j, e := base + (offset + m), from[offset + m];
    assert EntryMeans(e, j) && Follow(e, row[2 * m], row[2 * m + 1]);
    NextCell(e, j, row[2 * m], row[2 * m + 1], 2 * (base + offset) + k);
  }

  // The first row follows from itself.
  lemma {:induction false} FirstRow(row: seq<nat>, k: nat)
    requires k < 16 && PairsFollow(row, 0, row) && row[0] == 0
    ensures EntryMeans(row[k], k)
  {
    if k == 0 {
      HighBits0();
      ShiftUp(ShiftLeft(FromInt(0), 8), 8);
    } else {
      var m := k / 2;
      FirstRow(row, m);
      NextCell(row[0 + m], m, row[2 * m], row[2 * m + 1], k);
    }
  }

  lemma HighBits0()
    ensures forall i | 0 <= i < 16 :: !FromInt(0)[i]
  {
    forall i | 0 <= i < 16 ensures !Bit(0, i) {
      HighBitsZero(0, 0, i);
    }
  }

  lemma Row0()
    ensures RowMeans(ROW0, 0)
  {
    assert PairsFollow(ROW0, 0, ROW0) by {
      forall m | 0 <= m < 8 ensures Follow(ROW0[0 + m], ROW0[2 * m], ROW0[2 * m + 1]) {
        assert m == 0 || m == 1 || m == 2 || m == 3 || m == 4 || m == 5 || m == 6 || m == 7;
      }
    }
    forall k | 0 <= k < 16 ensures EntryMeans(ROW0[k], 0 + k) {
      FirstRow(ROW0, k);
    }
  }

  lemma Pairs1()
    ensures PairsFollow(ROW0, 8, ROW1)
  {
    forall m | 0 <= m < 8 ensures Follow(ROW0[8 + m], ROW1[2 * m], ROW1[2 * m + 1]) {
      assert m == 0 || m == 1 || m == 2 || m == 3 || m == 4 || m == 5 || m == 6 || m == 7;
    }
  }

  lemma Row1()
    ensures RowMeans(ROW1, 16)
  {
    Pairs1();
    Row0();
    NextRow(ROW0, 0, 8, ROW1);
  }

  lemma Row2()
    ensures RowMeans(ROW2, 32)
  {
    forall m | 0 <= m < 8 ensures Follow(ROW1[0 + m], ROW2[2 * m], ROW2[2 * m + 1]) {
      assert m == 0 || m == 1 || m == 2 || m == 3 || m == 4 || m == 5 || m == 6 || m == 7;
    }
    Row1();
    NextRow(ROW1, 16, 0, ROW2);
  }

  lemma Row3()
    ensures RowMeans(ROW3, 48)
  {
    forall m | 0 <= m < 8 ensures Follow(ROW1[8 + m], ROW3[2 * m], ROW3[2 * m + 1]) {
      assert m == 0 || m == 1 || m == 2 || m == 3 || m == 4 || m == 5 || m == 6 || m == 7;
    }
    Row1();
    NextRow(ROW1, 16, 8, ROW3);
  }

  lemma Row4()
    ensures RowMeans(ROW4, 64)
  {
    forall m | 0 <= m < 8 ensures Follow(ROW2[0 + m], ROW4[2 * m], ROW4[2 * m + 1]) {
      assert m == 0 || m == 1 || m == 2 || m == 3 || m == 4 || m == 5 || m == 6 || m == 7;
    }
    Row2();
    NextRow(ROW2, 32, 0, ROW4);
  }

  lemma Row5()
    ensures RowMeans(ROW5, 80)
  {
    forall m | 0 <= m < 8 ensures Follow(ROW2[8 + m], ROW5[2 * m], ROW5[2 * m + 1]) {
      assert m == 0 || m == 1 || m == 2 || m == 3 || m == 4 || m == 5 || m == 6 || m == 7;
    }
    Row2();
    NextRow(ROW2, 32, 8, ROW5);
  }

  lemma Row6()
    ensures RowMeans(ROW6, 96)
  {
    forall m | 0 <= m < 8 ensures Follow(ROW3[0 + m], ROW6[2 * m], ROW6[2 * m + 1]) {
      assert m == 0 || m == 1 || m == 2 || m == 3 || m == 4 || m == 5 || m == 6 || m == 7;
    }
    Row3();
    NextRow(ROW3, 48, 0, ROW6);
  }

  lemma Row7()
    ensures RowMeans(ROW7, 112)
  {
    forall m | 0 <= m < 8 ensures Follow(ROW3[8 + m], ROW7[2 * m], ROW7[2 * m + 1]) {
      assert m == 0 || m == 1 || m == 2 || m == 3 || m == 4 || m == 5 || m == 6 || m == 7;
    }
    Row3();
    NextRow(ROW3, 48, 8, ROW7);
  }

  lemma Row8()
    ensures RowMeans(ROW8, 128)
  {
    forall m | 0 <= m < 8 ensures Follow(ROW4[0 + m], ROW8[2 * m], ROW8[2 * m + 1]) {
      assert m == 0 || m == 1 || m == 2 || m == 3 || m == 4 || m == 5 || m == 6 || m == 7;
    }
    Row4();
    NextRow(ROW4, 64, 0, ROW8);
  }

  lemma Row9()
    ensures RowMeans(ROW9, 144)
  {
    forall m | 0 <= m < 8 ensures Follow(ROW4[8 + m], ROW9[2 * m], ROW9[2 * m + 1]) {
      assert m == 0 || m == 1 || m == 2 || m == 3 || m == 4 || m == 5 || m == 6 || m == 7;
    }
    Row4();
    NextRow(ROW4, 64, 8, ROW9);
  }

  lemma Row10()
    ensures RowMeans(ROW10, 160)
  {
    forall m | 0 <= m < 8 ensures Follow(ROW5[0 + m], ROW10[2 * m], ROW10[2 * m + 1]) {
      assert m == 0 || m == 1 || m == 2 || m == 3 || m == 4 || m == 5 || m == 6 || m == 7;
    }
    Row5();
    NextRow(ROW5, 80, 0, ROW10);
  }

  lemma Row11()
    ensures RowMeans(ROW11, 176)
  {
    forall m | 0 <= m < 8 ensures Follow(ROW5[8 + m], ROW11[2 * m], ROW11[2 * m + 1]) {
      assert m == 0 || m == 1 || m == 2 || m == 3 || m == 4 || m == 5 || m == 6 || m == 7;
    }
    Row5();
    NextRow(ROW5, 80, 8, ROW11);
  }

  lemma Row12()
    ensures RowMeans(ROW12, 192)
  {
    forall m | 0 <= m < 8 ensures Follow(ROW6[0 + m], ROW12[2 * m], ROW12[2 * m + 1]) {
      assert m == 0 || m == 1 || m == 2 || m == 3 || m == 4 || m == 5 || m == 6 || m == 7;
    }
    Row6();
    NextRow(ROW6, 96, 0, ROW12);
  }

  lemma Row13()
    ensures RowMeans(ROW13, 208)
  {
    forall m | 0 <= m < 8 ensures Follow(ROW6[8 + m], ROW13[2 * m], ROW13[2 * m + 1]) {
      assert m == 0 || m == 1 || m == 2 || m == 3 || m == 4 || m == 5 || m == 6 || m == 7;
    }
    Row6();
    NextRow(ROW6, 96, 8, ROW13);
  }

  lemma Row14()
    ensures RowMeans(ROW14, 224)
  {
    forall m | 0 <= m < 8 ensures Follow(ROW7[0 + m], ROW14[2 * m], ROW14[2 * m + 1]) {
      assert m == 0 || m == 1 || m == 2 || m == 3 || m == 4 || m == 5 || m == 6 || m == 7;
    }
    Row7();
    NextRow(ROW7, 112, 0, ROW14);
  }

  lemma Row15()
    ensures RowMeans(ROW15, 240)
  {
    forall m | 0 <= m < 8 ensures Follow(ROW7[8 + m], ROW15[2 * m], ROW15[2 * m + 1]) {
      assert m == 0 || m == 1 || m == 2 || m == 3 || m == 4 || m == 5 || m == 6 || m == 7;
    }
    Row7();
    NextRow(ROW7, 112, 8, ROW15);
  }

  lemma LowRows(r: nat)
    requires r < 8
    ensures RowMeans(ROWS[r], 16 * r)
  {
    match r
    case 0 => Row0();
    case 1 => Row1();
    case 2 => Row2();
    case 3 => Row3();
    case 4 => Row4();
    case 5 => Row5();
    case 6 => Row6();
    case _ => Row7();
  }

  lemma HighRows(r: nat)
    requires 8 <= r < 16
    ensures RowMeans(ROWS[r], 16 * r)
  {
    assert ROWS[8] == ROW8 && ROWS[9] == ROW9 && ROWS[10] == ROW10 && ROWS[11] == ROW11;
    assert ROWS[12] == ROW12 && ROWS[13] == ROW13 && ROWS[14] == ROW14 && ROWS[15] == ROW15;
    match r
    case 8 => Row8();
    case 9 => Row9();
    case 10 => Row10();
    case 11 => Row11();
    case 12 => Row12();
    case 13 => Row13();
    case 14 => Row14();
    case _ => Row15();
  }

  /** Every entry of the table is its index, fed to an empty register. */
  lemma TableMeans(i: nat)
    requires i < 256
    ensures EntryMeans(Table(i), i)
  {
    var r, k := i / 16, i % 16;
    if r < 8 {
      LowRows(r);
    } else {
      HighRows(r);
    }
    assert EntryMeans(ROWS[r][k], 16 * r + k);
  }

  lemma {:induction false} LowValueIs(c: Word, from: nat)
    requires from <= 8
    ensures LowValue(c, from) < TwoTo(8 - from)
    ensures forall i: nat :: Bit(LowValue(c, from), i) == (from + i < 8 && c[from + i])
    decreases 8 - from
  {
    var n := LowValue(c, from);
    if from == 8 {
      forall i: nat ensures !Bit(n, i) { HighBitsZero(0, 0, i); }
    } else {
      LowValueIs(c, from + 1);
      assert n / 2 == LowValue(c, from + 1) && (n % 2 == 1) == c[from];
      forall i: nat ensures Bit(n, i) == (from + i < 8 && c[from + i]) {
        if i > 0 { assert Bit(n, i) == Bit(LowValue(c, from + 1), i - 1); }
      }
    }
  }

  // The byte that selects the table's entry: the message byte added to the register's top.
  function Index(crc: Word, b: Byte): Word {
    Xor(ShiftRight(crc, 8), Extend(b))
  }

  lemma IndexValue(crc: Word, b: Byte)
    ensures var n := LowValue(Index(crc, b), 0); n < 256 && FromInt(n) == Index(crc, b)
  {
    Powers();
    LowValueIs(Index(crc, b), 0);
  }

  lemma ByteStep(crc: Word, b: Byte)
    ensures Xor(ShiftLeft(crc, 8), ShiftN(ShiftLeft(Index(crc, b), 8), 8)) == FeedAll(ByteBits(b), crc)
  {
    var high, low := ShiftLeft(Index(crc, b), 8), seq(16, i requires 0 <= i < 16 => i < 8 && crc[i]);
    FeedIsShift(ByteBits(b), crc);
    assert Inject(crc, ByteBits(b)) == Xor(high, low);
    ShiftNLinear(high, low, 8);
    ShiftUp(low, 8);
    assert ShiftN(low, 8) == ShiftLeft(crc, 8);
    XorSwaps(ShiftN(high, 8), ShiftLeft(crc, 8));
  }

  lemma XorSwaps(a: Word, b: Word)
    ensures Xor(a, b) == Xor(b, a)
  {
  }

  /** Crc16CalcBlock with the table: the same result, for every message and start value. */
  method CalcBlockByTable(msg: seq<Byte>, start: Word) returns (crc: Word)
    ensures crc == Crc(msg, start)
  {
    crc := start;
    var at := 0;
    while at < |msg|
      invariant at <= |msg| && crc == Crc(msg[..at], start)
    {
      var b := msg[at];
      var i := LowValue(Xor(ShiftRight(crc, 8), Extend(b)), 0);
      IndexValue(crc, b);
      TableMeans(i);
      ByteStep(crc, b);
      CrcStep(msg, at, start);
      crc := Xor(ShiftLeft(crc, 8), FromInt(Table(i)));
      at := at + 1;
    }
    assert msg[..at] == msg;
  }

  // ---------------------------------------------------------------- what the CRC promises

  lemma {:induction false} MessageBitsConcat(a: seq<Byte>, b: seq<Byte>)
    ensures MessageBits(a + b) == MessageBits(a) + MessageBits(b)
  {
    if b == [] {
      assert a + b == a;
    } else {
      assert (a + b)[..|a + b| - 1] == a + b[..|b| - 1];
      MessageBitsConcat(a, b[..|b| - 1]);
    }
  }

  /** A message may be sent in blocks: the CRC of the whole is that of the second block,
      started from the CRC of the first. */
  lemma CrcOfBlocks(a: seq<Byte>, b: seq<Byte>, start: Word)
    ensures Crc(a + b, start) == Crc(b, Crc(a, start))
  {
    MessageBitsConcat(a, b);
    Chained(MessageBits(a), MessageBits(b), start);
  }

  lemma {:induction false} MessageBitAt(m: seq<Byte>, i: nat)
    requires i < 8 * |m|
    ensures MessageBits(m)[i] == m[i / 8][7 - i % 8]
  {
    var n := |m| - 1;
    if i < 8 * n {
      MessageBitAt(m[..n], i);
    } else {
      assert i / 8 == n && i % 8 == i - 8 * n;
    }
  }

  /** Two messages of one length that differ only within two adjacent bytes never have the
      same CRC, whatever the start value. */
  lemma AdjacentBytesDetected(a: seq<Byte>, b: seq<Byte>, start: Word, at: nat)
    requires |a| == |b| && a != b
    requires forall k | 0 <= k < |a| && k != at && k != at + 1 :: a[k] == b[k]
    ensures Crc(a, start) != Crc(b, start)
  {
    BitsDiffer(a, b);
    forall j | 0 <= j < 8 * |a| && (j < 8 * at || j >= 8 * at + 16)
      ensures MessageBits(a)[j] == MessageBits(b)[j]
    {
      MessageBitAt(a, j);
      MessageBitAt(b, j);
    }
    BitBurstDetected(MessageBits(a), MessageBits(b), start, 8 * at);
  }

  lemma BitsDiffer(a: seq<Byte>, b: seq<Byte>)
    requires |a| == |b| && a != b
    ensures MessageBits(a) != MessageBits(b)
  {
    var k :| 0 <= k < |a| && a[k] != b[k];
    var i :| 0 <= i < 8 && a[k][i] != b[k][i];
    BitIn(a, k, i);
    BitIn(b, k, i);
  }

  // Where bit i of byte k stands in the message.
  lemma BitIn(m: seq<Byte>, k: nat, i: nat)
    requires k < |m| && i < 8
    ensures MessageBits(m)[8 * k + (7 - i)] == m[k][i]
  {
    assert (8 * k + (7 - i)) / 8 == k && (8 * k + (7 - i)) % 8 == 7 - i;
    MessageBitAt(m, 8 * k + (7 - i));
  }

  lemma {:induction false} FirstDifference(a: seq<bool>, b: seq<bool>, i: nat) returns (first: nat)
    requires |a| == |b| && i < |a| && a[i] != b[i]
    ensures first <= i && a[first] != b[first] && a[..first] == b[..first]
  {
    if a[..i] == b[..i] {
      first := i;
    } else {
      var j :| 0 <= j < i && a[..i][j] != b[..i][j];
      first := FirstDifference(a, b, j);
    }
  }

  lemma BitBurstDetected(a: seq<bool>, b: seq<bool>, start: Word, at: nat)
    requires |a| == |b| && a != b
    requires forall i | 0 <= i < |a| && (i < at || i >= at + 16) :: a[i] == b[i]
    ensures FeedAll(a, start) != FeedAll(b, start)
  {
    var i :| 0 <= i < |a| && a[i] != b[i];
    var first := FirstDifference(a, b, i);
    assert a[..first] == b[..first];
    assert forall j | 0 <= j < first :: a[j] == a[..first][j] == b[j];
    BurstDetected(a, b, start, first, at + 16 - first);
  }

  /** More generally, so do messages that differ only within any sixteen consecutive bits. */
  lemma BurstsDetected(a: seq<Byte>, b: seq<Byte>, start: Word, at: nat)
    requires |a| == |b| && MessageBits(a) != MessageBits(b)
    requires forall i | 0 <= i < 8 * |a| && (i < at || i >= at + 16) :: MessageBits(a)[i] == MessageBits(b)[i]
    ensures Crc(a, start) != Crc(b, start)
  {
    BitBurstDetected(MessageBits(a), MessageBits(b), start, at);
  }

  // The two bytes that a sender appends, high byte first.
  function BytesOf(c: Word): seq<Byte> {
    [c[8..], c[..8]]
  }

  lemma BitsOfBytes(c: Word)
    ensures MessageBits(BytesOf(c)) == BitsOf(c)
  {
    assert BytesOf(c)[..1] == [c[8..]] && [c[8..]][..0] == [];
    assert MessageBits(BytesOf(c)) == ByteBits(c[8..]) + ByteBits(c[..8]);
  }

  /** A message followed by its CRC, high byte first, has CRC zero. */
  lemma OwnCrcGivesZero(m: seq<Byte>, start: Word)
    ensures Crc(m + BytesOf(Crc(m, start)), start) == Zero()
  {
    var c := Crc(m, start);
    MessageBitsConcat(m, BytesOf(c));
    BitsOfBytes(c);
    Residue(MessageBits(m), start);
  }
}
