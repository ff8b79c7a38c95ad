/** Counting bits: seven words at a time, against one bit at a time. */
module BitCount {

  function Bit(b: bool): nat {
    if b then 1 else 0
  }

  /** The ones of a byte; the source looks them up in a table. */
  function Ones(b: bv8): nat {
    Bit(b & 1 != 0) + Bit(b & 2 != 0) + Bit(b & 4 != 0) + Bit(b & 8 != 0)
    + Bit(b & 16 != 0) + Bit(b & 32 != 0) + Bit(b & 64 != 0) + Bit(b & 128 != 0)
  }

  function Count(s: seq<bv8>): nat {
    if s == [] then 0 else Count(s[..|s| - 1]) + Ones(s[|s| - 1])
  }

  // ------------------------------------------------------------------- words of 32 bits

  type Word = bv32

  function Val(w: Word): nat {
    w as nat
  }

  function Plus(a: Word, b: Word): Word {
    a + b
  }

  function Wide(b: bv8): Word {
    b as bv32
  }

  /** Four bytes, the first one lowest. */
  function Join(a: Word, b: Word, c: Word, d: Word): Word {
    a | (b << 8) | (c << 16) | (d << 24)
  }

  function Cat(h: Word, l: Word): Word {
    (h << 8) | l
  }

  // ------------------------------------------------------------- the steps on one word

  function Pairs(w: Word): Word {
    w - ((w >> 1) & 0x55555555)
  }

  function Nibbles(w: Word): Word {
    (w & 0x33333333) + ((w >> 2) & 0x33333333)
  }

  function Bytes(w: Word): Word {
    (w + (w >> 4)) & 0x0F0F0F0F
  }

  /** All three: each byte of the result is the number of ones in that byte. */
  function Lanes(w: Word): Word {
    Bytes(Nibbles(Pairs(w)))
  }

  /** The four bytes of a word, added up in the top byte. */
  function Top(w: Word): Word {
    Times(w) >> 24
  }

  function Times(w: Word): Word {
    w * 0x01010101
  }

  // ------------------------------------------------------ no carry from byte to byte

  predicate Byte(w: Word) {
    w < 0x100
  }

  predicate Bytes3(w: Word) {
    w < 0x1000000
  }

  /** Each nibble at most 4. */
  predicate Settled(w: Word) {
    w & 0x88888888 == 0
  }

  lemma PairsSplit(h: Word, l: Word)
    requires Byte(l) && Bytes3(h)
    ensures Pairs(Cat(h, l)) == Cat(Pairs(h), Pairs(l)) && Bytes3(Pairs(h)) && Byte(Pairs(l))
  {
  }

  lemma NibblesSplit(h: Word, l: Word)
    requires Byte(l) && Bytes3(h)
    ensures Nibbles(Cat(h, l)) == Cat(Nibbles(h), Nibbles(l)) && Bytes3(Nibbles(h)) && Byte(Nibbles(l))
    ensures Settled(Nibbles(h)) && Settled(Nibbles(l))
  {
  }

  lemma BytesSplit(h: Word, l: Word)
    requires Byte(l) && Bytes3(h) && Settled(h) && Settled(l)
    ensures Bytes(Cat(h, l)) == Cat(Bytes(h), Bytes(l))
  {
  }

  lemma LanesSplit(h: Word, l: Word)
    requires Byte(l) && Bytes3(h)
    ensures Lanes(Cat(h, l)) == Cat(Lanes(h), Lanes(l))
  {
    hide Pairs, Nibbles, Bytes, Cat, Byte, Bytes3, Settled;
    PairsSplit(h, l);
    NibblesSplit(Pairs(h), Pairs(l));
    BytesSplit(Nibbles(Pairs(h)), Nibbles(Pairs(l)));
  }

  lemma CatJoin(a: Word, b: Word, c: Word, d: Word)
    requires Byte(a) && Byte(b) && Byte(c) && Byte(d)
    ensures Bytes3(d) && Bytes3(Cat(d, c)) && Bytes3(Cat(Cat(d, c), b))
    ensures Join(a, b, c, d) == Cat(Cat(Cat(d, c), b), a)
  {
  }

  lemma LanesJoin(a: Word, b: Word, c: Word, d: Word)
    requires Byte(a) && Byte(b) && Byte(c) && Byte(d)
    ensures Lanes(Join(a, b, c, d)) == Join(Lanes(a), Lanes(b), Lanes(c), Lanes(d))
  {
    hide Lanes, Join, Cat, Byte, Bytes3;
    CatJoin(a, b, c, d);
    LanesSplit(d, c);
    LanesSplit(Cat(d, c), b);
    LanesSplit(Cat(Cat(d, c), b), a);
    LaneIsByte(a);
    LaneIsByte(b);
    LaneIsByte(c);
    LaneIsByte(d);
    CatJoin(Lanes(a), Lanes(b), Lanes(c), Lanes(d));
  }

  lemma LaneIsByte(w: Word)
    requires Byte(w)
    ensures Byte(Lanes(w))
  {
  }

  // ----------------------------------------------------------------- a byte is counted

  function Folded(b: bv8): bv8 {
    var p := b - ((b >> 1) & 0x55);
    var n := (p & 0x33) + ((p >> 2) & 0x33);
    (n + (n >> 4)) & 0x0F
  }

  lemma FoldedCounts(b: bv8)
    ensures Folded(b) as nat == Ones(b)
  {
  }

  lemma LanesOfByte(b: bv8)
    ensures Lanes(Wide(b)) == Wide(Folded(b))
  {
  }

  lemma WideValue(b: bv8)
    ensures Val(Wide(b)) == b as nat && Byte(Wide(b))
  {
  }

  lemma OnesBound(b: bv8)
    ensures Ones(b) <= 8
  {
  }

  lemma LaneCounts(b: bv8)
    ensures Val(Lanes(Wide(b))) == Ones(b) <= 8
  {
    hide Lanes, Folded, Ones, Val, Wide;
    LanesOfByte(b);
    FoldedCounts(b);
    WideValue(Folded(b));
    OnesBound(b);
  }

  // --------------------------------------------------------------- sums that do not wrap

  function Narrow(w: Word): bv8
    requires Byte(w)
  {
    w as bv8
  }

  lemma NarrowValue(w: Word)
    requires Byte(w)
    ensures Val(w) == Narrow(w) as nat
  {
  }

  lemma AddBytes(a: bv8, b: bv8)
    requires a <= 216 && b <= 8
    ensures (a + b) as nat == a as nat + b as nat
  {
  }

  lemma SmallEnough(w: Word)
    ensures Val(w) <= 216 ==> w <= 216
    ensures Val(w) <= 8 ==> w <= 8
  {
  }

  lemma NarrowSum(a: Word, b: Word)
    requires a <= 216 && b <= 8
    ensures Byte(a) && Byte(b) && Byte(Plus(a, b)) && Narrow(a) <= 216 && Narrow(b) <= 8
    ensures Narrow(Plus(a, b)) == Narrow(a) + Narrow(b)
  {
  }

  lemma AddSmall(a: Word, b: Word)
    requires Val(a) <= 216 && Val(b) <= 8
    ensures Val(Plus(a, b)) == Val(a) + Val(b)
  {
    hide Val, Plus, Narrow, Byte;
    SmallEnough(a);
    SmallEnough(b);
    NarrowSum(a, b);
    AddBytes(Narrow(a), Narrow(b));
    NarrowValue(a);
    NarrowValue(b);
    NarrowValue(Plus(a, b));
  }

  /** b as a sum of two smaller ones. */
  lemma TakeEight(b: Word) returns (c: Word, e: Word)
    requires 8 < Val(b) <= 56
    ensures b == Plus(c, e) && Val(c) == Val(b) - 8 && Val(e) == 8
  {
    c, e := b - 8, 8;
    EightLess(b);
    assert b == Plus(c, e);
    AddSmall(c, e);
  }

  lemma EightLess(b: bv32)
    requires 8 < b as nat <= 56
    ensures (b - 8) as nat <= 48 && b - 8 + 8 == b
  {
    assert 8 < b <= 56;
    assert b - 8 <= 48;
  }

  lemma PlusAssociates(a: Word, b: Word, c: Word)
    requires a <= 168 && b <= 56 && c <= 56
    ensures Plus(a, Plus(b, c)) == Plus(Plus(a, b), c)
  {
  }

  lemma {:induction false} Add(a: Word, b: Word)
    requires Val(a) <= 168 && Val(b) <= 56
    ensures Val(Plus(a, b)) == Val(a) + Val(b)
    decreases Val(b)
  {
    hide Val, Plus;
    if Val(b) <= 8 {
      AddSmall(a, b);
    } else {
      var c, e := TakeEight(b);
      Bounded(a);
      Bounded(c);
      Bounded(e);
      Add(a, c);
      AddSmall(Plus(a, c), e);
      PlusAssociates(a, c, e);
    }
  }

  // ------------------------------------------------------------------- adding the lanes

  lemma LaneSums(a: Word, b: Word, c: Word, d: Word, a1: Word, b1: Word, c1: Word, d1: Word)
    requires a <= 48 && b <= 48 && c <= 48 && d <= 48
    requires a1 <= 8 && b1 <= 8 && c1 <= 8 && d1 <= 8
    ensures Join(a, b, c, d) + Join(a1, b1, c1, d1) == Join(a + a1, b + b1, c + c1, d + d1)
  {
  }

  lemma AddLanes(a: Word, b: Word, c: Word, d: Word, a1: Word, b1: Word, c1: Word, d1: Word)
    requires a <= 48 && b <= 48 && c <= 48 && d <= 48
    requires a1 <= 8 && b1 <= 8 && c1 <= 8 && d1 <= 8
    ensures Plus(Join(a, b, c, d), Join(a1, b1, c1, d1)) == Join(Plus(a, a1), Plus(b, b1), Plus(c, c1), Plus(d, d1))
  {
    hide Join;
    LaneSums(a, b, c, d, a1, b1, c1, d1);
  }

  lemma Bounded(w: Word)
    ensures Val(w) <= 48 ==> w <= 48
    ensures Val(w) <= 8 ==> w <= 8
    ensures Val(w) <= 56 ==> w <= 56
    ensures Val(w) <= 112 ==> w <= 112
    ensures Val(w) <= 168 ==> w <= 168
  {
  }

  lemma AddJoin(a: Word, b: Word, c: Word, d: Word, a1: Word, b1: Word, c1: Word, d1: Word)
    requires Val(a) <= 48 && Val(b) <= 48 && Val(c) <= 48 && Val(d) <= 48
    requires Val(a1) <= 8 && Val(b1) <= 8 && Val(c1) <= 8 && Val(d1) <= 8
    ensures Plus(Join(a, b, c, d), Join(a1, b1, c1, d1)) == Join(Plus(a, a1), Plus(b, b1), Plus(c, c1), Plus(d, d1))
  {
    hide Val, Plus, Join;
    Bounded(a);
    Bounded(b);
    Bounded(c);
    Bounded(d);
    Bounded(a1);
    Bounded(b1);
    Bounded(c1);
    Bounded(d1);
    AddLanes(a, b, c, d, a1, b1, c1, d1);
  }

  function Half(w: Word): Word {
    w + (w << 8)
  }

  function TopOfHalf(w: Word): Word {
    (w + (w << 16)) >> 24
  }

  lemma TimesIs(x: Word)
    ensures Times(x) == (x + (x << 8)) + ((x + (x << 8)) << 16)
  {
  }

  lemma TopIs(x: Word, y: Word)
    requires Times(x) == y
    ensures Top(x) == y >> 24
  {
    hide Times;
  }

  lemma TopOfHalfIs(x: Word, h: Word)
    requires h == x + (x << 8)
    ensures TopOfHalf(h) == ((x + (x << 8)) + ((x + (x << 8)) << 16)) >> 24
  {
  }

  lemma HalfIs(x: Word)
    ensures Half(x) == x + (x << 8)
  {
  }

  lemma TopSteps(x: Word)
    ensures Top(x) == TopOfHalf(Half(x))
  {
    hide Top, Times, Half, TopOfHalf;
    TimesIs(x);
    TopIs(x, (x + (x << 8)) + ((x + (x << 8)) << 16));
    HalfIs(x);
    TopOfHalfIs(x, Half(x));
  }

  lemma GatherHalf(a: Word, b: Word, c: Word, d: Word)
    requires a <= 56 && b <= 56 && c <= 56 && d <= 56
    ensures Half(Join(a, b, c, d)) == Join(a, Plus(a, b), Plus(b, c), Plus(c, d))
  {
  }

  lemma GatherTop(a: Word, b: Word, c: Word, d: Word)
    requires a <= 112 && b <= 112 && c <= 112 && d <= 112
    ensures TopOfHalf(Join(a, b, c, d)) == Plus(b, d)
  {
  }

  /** The multiplication adds up the four lanes: at most 224, so the sum fits the top byte. */
  lemma Gather(a: Word, b: Word, c: Word, d: Word)
    requires Val(a) <= 56 && Val(b) <= 56 && Val(c) <= 56 && Val(d) <= 56
    ensures Val(Top(Join(a, b, c, d))) == Val(a) + Val(b) + Val(c) + Val(d)
  {
    hide Val, Plus, Join, Top, Half, TopOfHalf;
    Bounded(a);
    Bounded(b);
    Bounded(c);
    Bounded(d);
    TopSteps(Join(a, b, c, d));
    GatherHalf(a, b, c, d);
    Add(a, b);
    Add(b, c);
    Add(c, d);
    Bounded(Plus(a, b));
    Bounded(Plus(b, c));
    Bounded(Plus(c, d));
    GatherTop(a, Plus(a, b), Plus(b, c), Plus(c, d));
    PlusAssociates(Plus(a, b), c, d);
    Add(Plus(a, b), c);
    Add(Plus(Plus(a, b), c), d);
  }

  // --------------------------------------------------------------------------- a block

  function WordAt(s: seq<bv8>, i: nat): Word
    requires i + 4 <= |s|
  {
    Join(Wide(s[i]), Wide(s[i + 1]), Wide(s[i + 2]), Wide(s[i + 3]))
  }

  /** The sum of the lanes of the first n words at i. */
  function Sum(s: seq<bv8>, i: nat, n: nat): Word
    requires i + 4 * n <= |s|
  {
    if n == 0 then 0 else Plus(Sum(s, i, n - 1), Lanes(WordAt(s, i + 4 * (n - 1))))
  }

  lemma CountOne(s: seq<bv8>, p: nat)
    requires p < |s|
    ensures Count(s[..p + 1]) == Count(s[..p]) + Ones(s[p])
  {
    hide Ones;
    assert s[..p + 1][..p] == s[..p];
  }

  lemma CountFour(s: seq<bv8>, p: nat)
    requires p + 4 <= |s|
    ensures Count(s[..p + 4]) == Count(s[..p]) + Ones(s[p]) + Ones(s[p + 1]) + Ones(s[p + 2]) + Ones(s[p + 3])
  {
    hide Ones, Count;
    CountOne(s, p);
    CountOne(s, p + 1);
    CountOne(s, p + 2);
    CountOne(s, p + 3);
  }

  lemma WordLanes(s: seq<bv8>, i: nat)
    requires i + 4 <= |s|
    ensures Lanes(WordAt(s, i)) == Join(Lanes(Wide(s[i])), Lanes(Wide(s[i + 1])), Lanes(Wide(s[i + 2])), Lanes(Wide(s[i + 3])))
  {
    hide Lanes, Join, Wide, Byte;
    WideValue(s[i]);
    WideValue(s[i + 1]);
    WideValue(s[i + 2]);
    WideValue(s[i + 3]);
    LanesJoin(Wide(s[i]), Wide(s[i + 1]), Wide(s[i + 2]), Wide(s[i + 3]));
  }

  ghost predicate SumIs(s: seq<bv8>, i: nat, n: nat, a: Word, b: Word, c: Word, d: Word)
    requires n <= 7 && i + 4 * n <= |s|
  {
    && Sum(s, i, n) == Join(a, b, c, d)
    && Val(a) <= 8 * n && Val(b) <= 8 * n && Val(c) <= 8 * n && Val(d) <= 8 * n
    && Count(s[..i]) + Val(a) + Val(b) + Val(c) + Val(d) == Count(s[..i + 4 * n])
  }

  /** One more word: each lane grows by the ones of its byte. */
  lemma SumStep(s: seq<bv8>, i: nat, n: nat, a: Word, b: Word, c: Word, d: Word)
    returns (a1: Word, b1: Word, c1: Word, d1: Word)
    requires n < 7 && i + 4 * n + 4 <= |s| && SumIs(s, i, n, a, b, c, d)
    ensures SumIs(s, i, n + 1, a1, b1, c1, d1)
  {
    hide Join, Val, Lanes, Wide, WordAt, Ones, Count, Plus;
    var p := i + 4 * n;
    var x, y, z, w := Lanes(Wide(s[p])), Lanes(Wide(s[p + 1])), Lanes(Wide(s[p + 2])), Lanes(Wide(s[p + 3]));
    LaneCounts(s[p]);
    LaneCounts(s[p + 1]);
    LaneCounts(s[p + 2]);
    LaneCounts(s[p + 3]);
    AddSmall(a, x);
    AddSmall(b, y);
    AddSmall(c, z);
    AddSmall(d, w);
    CountFour(s, p);
    WordLanes(s, p);
    AddJoin(a, b, c, d, x, y, z, w);
    a1, b1, c1, d1 := Plus(a, x), Plus(b, y), Plus(c, z), Plus(d, w);
    assert Sum(s, i, n + 1) == Plus(Sum(s, i, n), Lanes(WordAt(s, p)));
  }

  lemma SumStart(s: seq<bv8>, i: nat)
    requires i <= |s|
    ensures SumIs(s, i, 0, 0, 0, 0, 0)
  {
    assert Val(0) == 0;
    assert Join(0, 0, 0, 0) == 0;
  }

  /** Up to seven words can be added before a lane could overflow. */
  lemma {:induction false} SumLanes(s: seq<bv8>, i: nat, n: nat) returns (a: Word, b: Word, c: Word, d: Word)
    requires n <= 7 && i + 4 * n <= |s|
    ensures SumIs(s, i, n, a, b, c, d)
    decreases n
  {
    hide SumIs;
    if n == 0 {
      a, b, c, d := 0, 0, 0, 0;
      SumStart(s, i);
    } else {
      a, b, c, d := SumLanes(s, i, n - 1);
      a, b, c, d := SumStep(s, i, n - 1, a, b, c, d);
    }
  }

  /** A block of 28 bytes, as the loop computes it. */
  lemma BlockCount(s: seq<bv8>, i: nat)
    requires i + 28 <= |s|
    ensures Count(s[..i]) + Val(Top(Sum(s, i, 7))) == Count(s[..i + 28])
  {
    hide Join, Val, Top, Sum, Count;
    var a, b, c, d := SumLanes(s, i, 7);
    Gather(a, b, c, d);
  }

  /** redisPopcount on a buffer at any address. */
  method RedisPopcount(s: seq<bv8>, address: nat) returns (bits: nat)
    ensures bits == Count(s)
  {
    hide Ones, Lanes, Top, Val, Count, Plus, WordAt, Sum;
    bits := 0;
    var p := 0;
    CountNothing(s);
    while (address + p) % 4 != 0 && p < |s|
      invariant p <= |s| && bits == Count(s[..p])
      decreases |s| - p
    {
      CountOne(s, p);
      bits := bits + Ones(s[p]);
      p := p + 1;
    }
    while |s| - p >= 28
      invariant p <= |s| && bits == Count(s[..p])
    {
      var sum := SumBlock(s, p);
      BlockCount(s, p);
      bits := bits + Val(Top(sum));
      p := p + 28;
    }
    while p < |s|
      invariant p <= |s| && bits == Count(s[..p])
    {
      CountOne(s, p);
      bits := bits + Ones(s[p]);
      p := p + 1;
    }
    assert s[..p] == s;
  }

  lemma CountNothing(s: seq<bv8>)
    ensures Count(s[..0]) == 0
  {
  }

  /** The seven words of one round. */
  method SumBlock(s: seq<bv8>, p: nat) returns (sum: Word)
    requires p + 28 <= |s|
    ensures sum == Sum(s, p, 7)
  {
    hide Lanes, Plus, WordAt;
    sum := 0;
    var n := 0;
    while n < 7
      invariant n <= 7 && sum == Sum(s, p, n)
    {
      sum := Plus(sum, Lanes(WordAt(s, p + 4 * n)));
      n := n + 1;
    }
  }
}
