/** Finding the first bit, a word at a time. */
module BitPos {
  import opened BitField

  /** A bit of the string, which is padded with zeros on the right. */
  predicate Padded(s: seq<bv8>, i: nat) {
    i < 8 * |s| && BitAt(s, i)
  }

  function ByteAt(s: seq<bv8>, i: nat): bv64 {
    if i < |s| then s[i] as bv64 else 0
  }

  // ------------------------------------------------------------------ a word of skipped bytes

  /** An aligned word as the machine loads it. */
  function Load(s: seq<bv8>, p: nat): bv64
    requires p + 8 <= |s|
  {
    Join(Wide(s[p]), Wide(s[p + 1]), Wide(s[p + 2]), Wide(s[p + 3]), Wide(s[p + 4]), Wide(s[p + 5]), Wide(s[p + 6]), Wide(s[p + 7]))
  }

  function Wide(b: bv8): bv64 {
    b as bv64
  }

  function Join(a: bv64, b: bv64, c: bv64, d: bv64, e: bv64, f: bv64, g: bv64, h: bv64): bv64 {
    a | (b << 8) | (c << 16) | (d << 24) | (e << 32) | (f << 40) | (g << 48) | (h << 56)
  }

  function SkipByte(bit: bool): bv8 {
    if bit then 0 else 0xFF
  }

  function SkipWord(bit: bool): bv64 {
    if bit then 0 else 0xFFFF_FFFF_FFFF_FFFF
  }

  lemma LoadSkipped(s: seq<bv8>, p: nat, bit: bool)
    requires p + 8 <= |s|
    ensures Load(s, p) == SkipWord(bit) <==> forall i | p <= i < p + 8 :: s[i] == SkipByte(bit)
  {
    hide Join, SkipWord, SkipByte, Wide;
    AllEight(s, p, SkipByte(bit));
    JoinSkipped(s[p], s[p + 1], s[p + 2], s[p + 3], s[p + 4], s[p + 5], s[p + 6], s[p + 7], bit);
  }

  lemma AllEight(s: seq<bv8>, p: nat, b: bv8)
    requires p + 8 <= |s|
    ensures (forall i | p <= i < p + 8 :: s[i] == b)
       <==> s[p] == s[p + 1] == s[p + 2] == s[p + 3] == s[p + 4] == s[p + 5] == s[p + 6] == s[p + 7] == b
  {
  }

  lemma JoinSkipped(a: bv8, b: bv8, c: bv8, d: bv8, e: bv8, f: bv8, g: bv8, h: bv8, bit: bool)
    ensures Join(Wide(a), Wide(b), Wide(c), Wide(d), Wide(e), Wide(f), Wide(g), Wide(h)) == SkipWord(bit)
       <==> a == b == c == d == e == f == g == h == SkipByte(bit)
  {
  }

  lemma SkippedBits(b: bv8, bit: bool, k: nat)
    requires k < 8 && b == SkipByte(bit)
    ensures b & Mask(k) != 0 <==> !bit
  {
  }

  /** Nothing to find before byte p. */
  ghost predicate NoneBefore(s: seq<bv8>, p: nat, bit: bool) {
    p <= |s| && forall i | 0 <= i < 8 * p :: Padded(s, i) != bit
  }

  lemma SkipOne(s: seq<bv8>, p: nat, bit: bool)
    requires NoneBefore(s, p, bit) && p < |s| && s[p] == SkipByte(bit)
    ensures NoneBefore(s, p + 1, bit)
  {
    forall i | 0 <= i < 8 * (p + 1) ensures Padded(s, i) != bit {
      if i >= 8 * p {
        SkippedBits(s[p], bit, i % 8);
      }
    }
  }

  lemma SkipEight(s: seq<bv8>, p: nat, bit: bool)
    requires NoneBefore(s, p, bit) && p + 8 <= |s| && forall i | p <= i < p + 8 :: s[i] == SkipByte(bit)
    ensures NoneBefore(s, p + 8, bit)
  {
    hide NoneBefore, SkipByte;
    SkipOne(s, p, bit);
    SkipOne(s, p + 1, bit);
    SkipOne(s, p + 2, bit);
    SkipOne(s, p + 3, bit);
    SkipOne(s, p + 4, bit);
    SkipOne(s, p + 5, bit);
    SkipOne(s, p + 6, bit);
    SkipOne(s, p + 7, bit);
  }

  // ----------------------------------------------------------------------- the last word

  /** The next n bytes, first byte most significant. */
  function BigEndian(s: seq<bv8>, p: nat, n: nat): bv64 {
    if n == 0 then 0 else Append(BigEndian(s, p, n - 1), ByteAt(s, p + n - 1))
  }

  function Append(w: bv64, b: bv64): bv64 {
    (w << 8) | b
  }

  /** A one that has moved k places down from the most significant bit. */
  function One(k: nat): bv64
    requires k < 64
  {
    InByte(k / 8, WideMask(k % 8))
  }

  function WideMask(k: nat): bv64
    requires k < 8
  {
    Mask(k) as bv64
  }

  function Down(x: bv64, byte: bool): bv64 {
    if byte then x >> 8 else x >> 1
  }

  function InByte(i: nat, m: bv64): bv64
    requires i < 8
  {
    match i
    case 0 => m << 56
    case 1 => m << 48
    case 2 => m << 40
    case 3 => m << 32
    case 4 => m << 24
    case 5 => m << 16
    case 6 => m << 8
    case _ => m
  }

  predicate Test(x: bv64, w: bv64) {
    x & w != 0
  }

  predicate Small(m: bv64) {
    0 < m < 0x100
  }

  predicate Even(m: bv64) {
    m & 1 == 0
  }

  lemma MaskMoves(j: nat)
    requires j < 8
    ensures Small(WideMask(j))
    ensures j < 7 ==> Even(WideMask(j)) && WideMask(j + 1) == Down(WideMask(j), false)
  {
  }

  lemma InByteMoves(i: nat, m: bv64)
    requires i < 8 && Small(m)
    ensures InByte(i, m) != 0
    ensures Even(m) ==> Down(InByte(i, m), false) == InByte(i, Down(m, false))
  {
  }

  lemma NextByte(i: nat)
    requires i < 8
    ensures Down(InByte(i, WideMask(7)), false) == if i < 7 then InByte(i + 1, WideMask(0)) else 0
  {
  }

  lemma OneMoves(k: nat)
    requires k < 64
    ensures One(k) != 0
    ensures Down(One(k), false) == if k < 63 then One(k + 1) else 0
  {
    hide WideMask, InByte, Down, Small, Even;
    var i, j := k / 8, k % 8;
    MaskMoves(j);
    InByteMoves(i, WideMask(j));
    if j < 7 {
      assert (k + 1) / 8 == i && (k + 1) % 8 == j + 1;
    } else {
      NextByte(i);
      if i < 7 {
        assert (k + 1) / 8 == i + 1 && (k + 1) % 8 == 0;
      }
    }
  }

  lemma HighPart(x: bv64, w: bv64, b: bv64)
    requires x & 0xFF == 0 && b < 0x100
    ensures x & ((w << 8) | b) == ((x >> 8) & w) << 8
  {
  }

  lemma TestHigh(x: bv64, w: bv64, b: bv64)
    requires x & 0xFF == 0 && b < 0x100
    ensures Test(x, Append(w, b)) <==> Test(Down(x, true), w)
  {
    hide Append, Down;
    HighPart(x, w, b);
    ShiftedZero((x >> 8) & w);
    AppendIs(w, b);
    DownIs(x);
  }

  lemma AppendIs(w: bv64, b: bv64)
    ensures Append(w, b) == (w << 8) | b
  {
  }

  lemma DownIs(x: bv64)
    ensures Down(x, true) == x >> 8
  {
  }

  lemma ShiftedZero(y: bv64)
    requires y < 0x100_0000_0000_0000
    ensures y << 8 == 0 <==> y == 0
  {
  }

  lemma TestLow(m: bv64, w: bv64, b: bv64)
    requires Small(m)
    ensures Test(m, Append(w, b)) <==> Test(m, b)
  {
    assert m & ((w << 8) | b) == m & b;
  }

  lemma InByteDown(i: nat, m: bv64)
    requires i < 7 && Small(m)
    ensures InByte(i, m) & 0xFF == 0 && Down(InByte(i, m), true) == InByte(i + 1, m)
  {
  }

  lemma MaskTest(k: nat, b: bv8)
    requires k < 8
    ensures Small(WideMask(k))
    ensures Test(WideMask(k), b as bv64) <==> b & Mask(k) != 0
    ensures !Test(WideMask(k), 0)
  {
  }

  lemma ByteBound(s: seq<bv8>, i: nat)
    ensures ByteAt(s, i) < 0x100
  {
  }

  lemma LastByte(i: nat, m: bv64)
    requires i == 7
    ensures InByte(i, m) == m
  {
  }

  lemma PaddedBit(s: seq<bv8>, i: nat, j: nat)
    requires j < 8
    ensures Small(WideMask(j))
    ensures Padded(s, 8 * i + j) <==> Test(WideMask(j), ByteAt(s, i))
  {
    hide WideMask, Test, Mask, Small;
    MaskTest(j, if i < |s| then s[i] else 0);
  }

  /** The bits of the loaded word are those of the padded string. */
  lemma {:induction false} WordBit(s: seq<bv8>, p: nat, n: nat, k: nat)
    requires 0 < n <= 8 && 64 - 8 * n <= k < 64
    ensures Test(One(k), BigEndian(s, p, n)) <==> Padded(s, 8 * p + k - (64 - 8 * n))
    decreases n
  {
    hide InByte, Append, WideMask, Test, Down, Small, ByteAt, Padded;
    var b, w := ByteAt(s, p + n - 1), BigEndian(s, p, n - 1);
    var i, j := k / 8, k % 8;
    ByteBound(s, p + n - 1);
    PaddedBit(s, p + n - 1, j);
    if i == 7 {
      assert 8 * p + k - (64 - 8 * n) == 8 * (p + n - 1) + j;
      LastByte(i, WideMask(j));
      TestLow(WideMask(j), w, b);
    } else {
      assert (k + 8) / 8 == i + 1 && (k + 8) % 8 == j;
      InByteDown(i, WideMask(j));
      TestHigh(One(k), w, b);
      WordBit(s, p, n - 1, k + 8);
    }
  }

  lemma TestZero(x: bv64)
    ensures !Test(x, 0)
  {
  }

  lemma ZeroWord(s: seq<bv8>, p: nat)
    requires BigEndian(s, p, 8) == 0
    ensures forall i | 8 * p <= i < 8 * p + 64 :: !Padded(s, i)
  {
    hide One, BigEndian, Padded, Test;
    forall i | 8 * p <= i < 8 * p + 64 ensures !Padded(s, i) {
      WordBit(s, p, 8, i - 8 * p);
      TestZero(One(i - 8 * p));
    }
  }

  method LoadLast(s: seq<bv8>, p: nat) returns (word: bv64)
    requires p <= |s|
    ensures word == BigEndian(s, p, 8)
  {
    hide Append;
    word := 0;
    var j := 0;
    while j < 8
      invariant j <= 8 && word == BigEndian(s, p, j)
    {
      word := Append(word, if p + j < |s| then s[p + j] as bv64 else 0);
      j := j + 1;
    }
  }

  /** Bit by bit through the last word. */
  method Scan(s: seq<bv8>, p: nat, word: bv64, bit: bool) returns (pos: nat)
    requires word == BigEndian(s, p, 8) && NoneBefore(s, p, bit)
    requires exists k | 8 * p <= k < 8 * p + 64 :: Padded(s, k) == bit
    ensures Padded(s, pos) == bit && pos < 8 * p + 64
    ensures forall i | 0 <= i < pos :: Padded(s, i) != bit
  {
    hide One, BigEndian, Padded, Test, Down;
    pos := 8 * p;
    ghost var k := 0;
    var one: bv64 := 0x8000_0000_0000_0000;
    FirstOne();
    while one != 0
      invariant k <= 64 && pos == 8 * p + k
      invariant k < 64 ==> one == One(k)
      invariant k == 64 ==> one == 0
      invariant forall i | 0 <= i < pos :: Padded(s, i) != bit
      decreases 64 - k
    {
      WordBit(s, p, 8, k);
      if Test(one, word) == bit {
        return;
      }
      OneMoves(k);
      pos := pos + 1;
      one := Down(one, false);
      k := k + 1;
    }
    if k < 64 {
      OneMoves(k);
    }
    assert false;
  }

  lemma FirstOne()
    ensures One(0) == 0x8000_0000_0000_0000
  {
  }

  // ------------------------------------------------------------------------ the function

  /** Where the skipping ends: before a byte that differs, or with less than a word left. */
  ghost predicate Stopped(s: seq<bv8>, p: nat, bit: bool) {
    p <= |s| && (|s| - p < 8 || exists i | p <= i < p + 8 :: s[i] != SkipByte(bit))
  }

  lemma Different(b: bv8, bit: bool) returns (k: nat)
    requires b != SkipByte(bit)
    ensures k < 8 && (b & Mask(k) != 0) == bit
  {
    if (b & Mask(0) != 0) == bit {
      k := 0;
    } else if (b & Mask(1) != 0) == bit {
      k := 1;
    } else if (b & Mask(2) != 0) == bit {
      k := 2;
    } else if (b & Mask(3) != 0) == bit {
      k := 3;
    } else if (b & Mask(4) != 0) == bit {
      k := 4;
    } else if (b & Mask(5) != 0) == bit {
      k := 5;
    } else if (b & Mask(6) != 0) == bit {
      k := 6;
    } else {
      k := 7;
    }
  }

  lemma DifferentByte(s: seq<bv8>, i: nat, bit: bool) returns (k: nat)
    requires i < |s| && s[i] != SkipByte(bit)
    ensures 8 * i <= k < 8 * i + 8 && Padded(s, k) == bit
  {
    hide Mask, SkipByte;
    var j := Different(s[i], bit);
    k := 8 * i + j;
  }

  lemma {:induction false} ZeroBytes(s: seq<bv8>, p: nat, n: nat)
    requires forall i | p <= i < p + n :: ByteAt(s, i) == 0
    ensures BigEndian(s, p, n) == 0
    decreases n
  {
    if n > 0 {
      ZeroBytes(s, p, n - 1);
      assert ByteAt(s, p + n - 1) == 0;
    }
  }

  /** What the loaded word says: some bit in it, or none in the whole string. */
  lemma LastWord(s: seq<bv8>, p: nat, bit: bool)
    requires NoneBefore(s, p, bit) && Stopped(s, p, bit)
    ensures bit && BigEndian(s, p, 8) == 0 ==> forall i | 0 <= i < 8 * |s| :: !Padded(s, i)
    ensures (bit && BigEndian(s, p, 8) == 0) || exists k | 8 * p <= k < 8 * p + 64 :: Padded(s, k) == bit
  {
    hide BigEndian;
    if exists i | p <= i < p + 8 && i < |s| :: s[i] != SkipByte(bit) {
      var i :| p <= i < p + 8 && i < |s| && s[i] != SkipByte(bit);
      var k := DifferentByte(s, i, bit);
      if bit && BigEndian(s, p, 8) == 0 {
        ZeroWord(s, p);
      }
    } else if bit {
      AllZero(s, p);
    } else {
      assert !Padded(s, 8 * |s|);
    }
  }

  lemma AllZero(s: seq<bv8>, p: nat)
    requires NoneBefore(s, p, true) && |s| - p < 8
    requires forall i | p <= i < p + 8 && i < |s| :: s[i] == SkipByte(true)
    ensures BigEndian(s, p, 8) == 0 && forall i | 0 <= i < 8 * |s| :: !Padded(s, i)
  {
    hide BigEndian;
    ZeroBytes(s, p, 8);
    ZeroWord(s, p);
  }

  /** redisBitpos: the first bit of the padded string, or -1 if a one is sought and there is none. */
  method RedisBitpos(s: seq<bv8>, address: nat, bit: bool) returns (pos: int)
    ensures pos >= 0 ==> Padded(s, pos) == bit && forall i | 0 <= i < pos :: Padded(s, i) != bit
    ensures pos < 0 ==> pos == -1 && bit && forall i | 0 <= i < 8 * |s| :: !BitAt(s, i)
    ensures !bit ==> pos <= 8 * |s|
  {
    hide BigEndian, SkipByte, SkipWord, Load, Mask;
    var p, found := 0, false;
    while (address + p) % 8 != 0 && p < |s|
      invariant p <= |s| && NoneBefore(s, p, bit) && !found
      decreases |s| - p
    {
      if s[p] != SkipByte(bit) {
        found := true;
        break;
      }
      SkipOne(s, p, bit);
      p := p + 1;
    }
    if !found {
      p := SkipWords(s, p, bit);
    }
    assert Stopped(s, p, bit);
    LastWord(s, p, bit);
    var word := LoadLast(s, p);
    if bit && word == 0 {
      forall i | 0 <= i < 8 * |s| ensures !BitAt(s, i) {
        assert !Padded(s, i);
      }
      return -1;
    }
    pos := Scan(s, p, word, bit);
    assert !bit && 8 * |s| < pos ==> Padded(s, 8 * |s|) != bit;
  }

  /** The skipping of whole words. */
  method SkipWords(s: seq<bv8>, start: nat, bit: bool) returns (p: nat)
    requires NoneBefore(s, start, bit)
    ensures NoneBefore(s, p, bit) && Stopped(s, p, bit)
  {
    hide NoneBefore, SkipByte, SkipWord, Load;
    p := start;
    Inside(s, p, bit);
    while |s| - p >= 8
      invariant p <= |s| && NoneBefore(s, p, bit)
      decreases |s| - p
    {
      LoadSkipped(s, p, bit);
      if Load(s, p) != SkipWord(bit) {
        return;
      }
      SkipEight(s, p, bit);
      p := p + 8;
    }
  }

  lemma Inside(s: seq<bv8>, p: nat, bit: bool)
    requires NoneBefore(s, p, bit)
    ensures p <= |s|
  {
  }
}
