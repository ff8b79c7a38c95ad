/** BITOP: four words at a time as far as all sources reach, then byte by byte. */
module BitOp {
  import opened Wrappers

  datatype Op = And | Or | Xor | Not

  /** A source: a missing key counts as empty. */
  type Source = Option<seq<bv8>>

  function Len(src: Source): nat {
    if src.Some? then |src.value| else 0
  }

  function At(src: Source, j: nat): bv8 {
    if j < Len(src) then src.value[j] else 0
  }

  function OpByte(op: Op, a: bv8, b: bv8): bv8 {
    match op
    case And => a & b
    case Or => a | b
    case Xor => a ^ b
    case Not => !a
  }

  /** The result byte by byte: the operation over the first n sources, padded with zeros. */
  function Fold(op: Op, srcs: seq<Source>, j: nat, n: nat): bv8
    requires 1 <= n <= |srcs|
  {
    if n == 1 then At(srcs[0], j) else OpByte(op, Fold(op, srcs, j, n - 1), At(srcs[n - 1], j))
  }

  function Result(op: Op, srcs: seq<Source>, j: nat): bv8
    requires srcs != []
  {
    if op == Not then !At(srcs[0], j) else Fold(op, srcs, j, |srcs|)
  }

  // --------------------------------------------------------------------- words in memory

  function OpWord(op: Op, a: bv64, b: bv64): bv64 {
    match op
    case And => a & b
    case Or => a | b
    case Xor => a ^ b
    case Not => !a
  }

  function Down(w: bv64): bv64 {
    w >> 8
  }

  function Low(w: bv64): bv8 {
    (w & 0xFF) as bv8
  }

  function Cat(h: bv64, l: bv8): bv64 {
    (h << 8) | (l as bv64)
  }

  /** Byte i of a word in memory, low byte first. */
  function ByteOf(w: bv64, i: nat): bv8 {
    if i == 0 then Low(w) else ByteOf(Down(w), i - 1)
  }

  /** A word of n bytes loaded from memory. */
  function Load(s: seq<bv8>, p: nat, n: nat): bv64
    requires p + n <= |s|
    decreases n
  {
    if n == 0 then 0 else Cat(Load(s, p + 1, n - 1), s[p])
  }

  /** Less than 2^(8n). */
  predicate Holds(w: bv64, n: nat)
    requires n <= 7
  {
    match n
    case 0 => w == 0
    case 1 => w < 0x100
    case 2 => w < 0x1_0000
    case 3 => w < 0x100_0000
    case 4 => w < 0x1_0000_0000
    case 5 => w < 0x100_0000_0000
    case 6 => w < 0x1_0000_0000_0000
    case _ => w < 0x100_0000_0000_0000
  }

  lemma CatHolds(h: bv64, l: bv8, n: nat)
    requires n < 7 && Holds(h, n)
    ensures Holds(Cat(h, l), n + 1)
  {
  }

  lemma HoldsMore(w: bv64, n: nat)
    requires n <= 7 && Holds(w, n)
    ensures Holds(w, 7)
  {
  }

  lemma {:induction false} LoadHolds(s: seq<bv8>, p: nat, n: nat)
    requires p + n <= |s| && n <= 7
    ensures Holds(Load(s, p, n), n)
    decreases n
  {
    hide Cat, Holds;
    if n == 0 {
      NoBytes();
    } else {
      LoadHolds(s, p + 1, n - 1);
      CatHolds(Load(s, p + 1, n - 1), s[p], n - 1);
    }
  }

  lemma NoBytes()
    ensures Holds(0, 0)
  {
  }

  lemma LowCat(h: bv64, l: bv8)
    ensures Low(Cat(h, l)) == l
  {
  }

  lemma DownCat(h: bv64, l: bv8)
    requires Holds(h, 7)
    ensures Down(Cat(h, l)) == h
  {
  }

  /** Bytes come back as they were loaded. */
  lemma {:induction false} ByteOfLoad(s: seq<bv8>, p: nat, n: nat, i: nat)
    requires p + n <= |s| && i < n <= 8
    ensures ByteOf(Load(s, p, n), i) == s[p + i]
    decreases n
  {
    hide Cat, Low, Down, Holds;
    var h := Load(s, p + 1, n - 1);
    if i == 0 {
      LowCat(h, s[p]);
    } else {
      LoadHolds(s, p + 1, n - 1);
      HoldsMore(h, n - 1);
      DownCat(h, s[p]);
      ByteOfLoad(s, p + 1, n - 1, i - 1);
    }
  }

  lemma AndBits(a: bv64, b: bv64)
    ensures Down(a & b) == Down(a) & Down(b) && Low(a & b) == Low(a) & Low(b)
  {
  }

  lemma AndIs(a: bv64, b: bv64, x: bv8, y: bv8)
    ensures OpWord(And, a, b) == a & b && OpByte(And, x, y) == x & y
  {
  }

  lemma DownAnd(a: bv64, b: bv64)
    ensures Down(OpWord(And, a, b)) == OpWord(And, Down(a), Down(b))
    ensures Low(OpWord(And, a, b)) == OpByte(And, Low(a), Low(b))
  {
    hide Down, Low, OpWord, OpByte;
    AndBits(a, b);
    AndIs(a, b, Low(a), Low(b));
    AndIs(Down(a), Down(b), 0, 0);
  }

  lemma OrBits(a: bv64, b: bv64)
    ensures Down(a | b) == Down(a) | Down(b) && Low(a | b) == Low(a) | Low(b)
  {
  }

  lemma OrIs(a: bv64, b: bv64, x: bv8, y: bv8)
    ensures OpWord(Or, a, b) == a | b && OpByte(Or, x, y) == x | y
  {
  }

  lemma DownOr(a: bv64, b: bv64)
    ensures Down(OpWord(Or, a, b)) == OpWord(Or, Down(a), Down(b))
    ensures Low(OpWord(Or, a, b)) == OpByte(Or, Low(a), Low(b))
  {
    hide Down, Low, OpWord, OpByte;
    OrBits(a, b);
    OrIs(a, b, Low(a), Low(b));
    OrIs(Down(a), Down(b), 0, 0);
  }

  lemma XorBits(a: bv64, b: bv64)
    ensures Down(a ^ b) == Down(a) ^ Down(b) && Low(a ^ b) == Low(a) ^ Low(b)
  {
  }

  lemma XorIs(a: bv64, b: bv64, x: bv8, y: bv8)
    ensures OpWord(Xor, a, b) == a ^ b && OpByte(Xor, x, y) == x ^ y
  {
  }

  lemma DownXor(a: bv64, b: bv64)
    ensures Down(OpWord(Xor, a, b)) == OpWord(Xor, Down(a), Down(b))
    ensures Low(OpWord(Xor, a, b)) == OpByte(Xor, Low(a), Low(b))
  {
    hide Down, Low, OpWord, OpByte;
    XorBits(a, b);
    XorIs(a, b, Low(a), Low(b));
    XorIs(Down(a), Down(b), 0, 0);
  }

  lemma DownOp(op: Op, a: bv64, b: bv64)
    requires op != Not
    ensures Down(OpWord(op, a, b)) == OpWord(op, Down(a), Down(b))
    ensures Low(OpWord(op, a, b)) == OpByte(op, Low(a), Low(b))
  {
    hide Down, Low, OpWord, OpByte;
    match op {
      case And => DownAnd(a, b);
      case Or => DownOr(a, b);
      case Xor => DownXor(a, b);
    }
  }

  /** A word operation works on each byte. */
  lemma {:induction false} ByteOfOp(op: Op, a: bv64, b: bv64, i: nat)
    requires op != Not
    ensures ByteOf(OpWord(op, a, b), i) == OpByte(op, ByteOf(a, i), ByteOf(b, i))
    decreases i
  {
    hide Down, Low, OpWord, OpByte;
    DownOp(op, a, b);
    if i > 0 {
      ByteOfOp(op, Down(a), Down(b), i - 1);
    }
  }

  const ALL_ONES: bv64 := 0xFFFF_FFFF_FFFF_FFFF

  predicate OnesBelow(w: bv64, n: nat) {
    n == 0 || (Low(w) == 0xFF && OnesBelow(Down(w), n - 1))
  }

  lemma AllOnes()
    ensures OnesBelow(ALL_ONES, 8)
  {
    assert OnesBelow(0xFF, 1);
    assert Down(0xFFFF) == 0xFF && OnesBelow(0xFFFF, 2);
    assert Down(0xFF_FFFF) == 0xFFFF && OnesBelow(0xFF_FFFF, 3);
    assert Down(0xFFFF_FFFF) == 0xFF_FFFF && OnesBelow(0xFFFF_FFFF, 4);
    assert Down(0xFF_FFFF_FFFF) == 0xFFFF_FFFF && OnesBelow(0xFF_FFFF_FFFF, 5);
    assert Down(0xFFFF_FFFF_FFFF) == 0xFF_FFFF_FFFF && OnesBelow(0xFFFF_FFFF_FFFF, 6);
    assert Down(0xFF_FFFF_FFFF_FFFF) == 0xFFFF_FFFF_FFFF && OnesBelow(0xFF_FFFF_FFFF_FFFF, 7);
    assert Down(ALL_ONES) == 0xFF_FFFF_FFFF_FFFF;
  }

  lemma {:induction false} OnesByte(w: bv64, n: nat, i: nat)
    requires i < n && OnesBelow(w, n)
    ensures ByteOf(w, i) == 0xFF
    decreases i
  {
    hide Down, Low;
    if i > 0 {
      OnesByte(Down(w), n - 1, i - 1);
    }
  }

  lemma NotIsXor(a: bv64, b: bv8)
    ensures !a == OpWord(Xor, a, ALL_ONES) && OpByte(Xor, b, 0xFF) == !b
  {
  }

  lemma ByteOfNot(a: bv64, b: bv64, i: nat)
    requires i < 8
    ensures ByteOf(OpWord(Not, a, b), i) == !ByteOf(a, i)
  {
    hide ByteOf, OpByte, OnesBelow;
    NotIsXor(a, ByteOf(a, i));
    ByteOfOp(Xor, a, ALL_ONES, i);
    AllOnes();
    OnesByte(ALL_ONES, 8, i);
  }

  method Store(res: array<bv8>, p: nat, w: bv64)
    requires p + 8 <= res.Length
    modifies res
    ensures forall i | 0 <= i < res.Length ::
              res[i] == if p <= i < p + 8 then ByteOf(w, i - p) else old(res[i])
  {
    hide ByteOf;
    var i := 0;
    while i < 8
      invariant i <= 8
      invariant forall k | 0 <= k < res.Length :: res[k] == if p <= k < p + i then ByteOf(w, k - p) else old(res[k])
    {
      res[p + i] := ByteOf(w, i);
      i := i + 1;
    }
  }

  /** One word of the result, combined with the same word of a source. */
  method Combine(op: Op, res: array<bv8>, p: nat, src: seq<bv8>)
    requires p + 8 <= res.Length && (op != Not ==> p + 8 <= |src|)
    modifies res
    ensures forall i | 0 <= i < res.Length ::
              res[i] == if p <= i < p + 8 then OpByte(op, old(res[i]), if op != Not then src[i] else 0) else old(res[i])
  {
    hide ByteOf, OpWord, Load;
    ghost var was := res[..];
    var a := Load(res[..], p, 8);
    var b := if op != Not then Load(src, p, 8) else 0;
    Store(res, p, OpWord(op, a, b));
    forall i | p <= i < p + 8 ensures res[i] == OpByte(op, was[i], if op != Not then src[i] else 0) {
      ByteOfLoad(was, p, 8, i - p);
      if op == Not {
        ByteOfNot(a, b, i - p);
      } else {
        ByteOfLoad(src, p, 8, i - p);
        ByteOfOp(op, a, b, i - p);
      }
    }
  }

  // ----------------------------------------------------------------------- the command

  /** Four words. */
  method CombineFour(op: Op, res: array<bv8>, p: nat, src: seq<bv8>)
    requires p + 32 <= res.Length && (op != Not ==> p + 32 <= |src|)
    modifies res
    ensures forall i | 0 <= i < res.Length ::
              res[i] == if p <= i < p + 32 then OpByte(op, old(res[i]), if op != Not then src[i] else 0) else old(res[i])
  {
    hide OpByte;
    Combine(op, res, p, src);
    Combine(op, res, p + 8, src);
    Combine(op, res, p + 16, src);
    Combine(op, res, p + 24, src);
  }

  ghost predicate AllReach(srcs: seq<Source>, n: nat) {
    forall k | 0 <= k < |srcs| :: srcs[k].Some? && n <= |srcs[k].value|
  }

  /** One round of the fast path: a block that holds the first source ends as the result. */
  method FastBlock(op: Op, srcs: seq<Source>, res: array<bv8>, j: nat)
    requires srcs != [] && j + 32 <= res.Length && AllReach(srcs, j + 32) && (op == Not ==> |srcs| == 1)
    requires forall t | j <= t < j + 32 :: res[t] == At(srcs[0], t)
    modifies res
    ensures forall t | 0 <= t < res.Length :: res[t] == if j <= t < j + 32 then Result(op, srcs, t) else old(res[t])
  {
    hide OpByte;
    if op == Not {
      CombineFour(op, res, j, []);
      forall t | j <= t < j + 32 ensures res[t] == Result(op, srcs, t) {
        NotIs(At(srcs[0], t), 0);
      }
      return;
    }
    var i := 1;
    while i < |srcs|
      invariant 1 <= i <= |srcs|
      invariant forall t | 0 <= t < res.Length :: res[t] == if j <= t < j + 32 then Fold(op, srcs, t, i) else old(res[t])
    {
      CombineFour(op, res, j, srcs[i].value);
      i := i + 1;
    }
  }

  lemma NotIs(a: bv8, b: bv8)
    ensures OpByte(Not, a, b) == !a
  {
  }

  function MaxLen(srcs: seq<Source>): nat {
    if srcs == [] then 0
    else
      var rest := MaxLen(srcs[..|srcs| - 1]);
      if Len(srcs[|srcs| - 1]) > rest then Len(srcs[|srcs| - 1]) else rest
  }

  /** The lengths as the command collects them: a missing key makes the minimum zero, and
      nothing after it raises it again. */
  method Lengths(srcs: seq<Source>) returns (minlen: nat, maxlen: nat)
    ensures maxlen == MaxLen(srcs)
    ensures forall k | 0 <= k < |srcs| :: minlen <= Len(srcs[k]) <= maxlen
  {
    minlen, maxlen := 0, 0;
    var j := 0;
    while j < |srcs|
      invariant j <= |srcs| && maxlen == MaxLen(srcs[..j])
      invariant forall k | 0 <= k < j :: minlen <= Len(srcs[k]) <= maxlen
      invariant j == 0 ==> minlen == 0
    {
      assert srcs[..j + 1][..j] == srcs[..j];
      if srcs[j].None? {
        minlen := 0;
      } else {
        var len := |srcs[j].value|;
        if len > maxlen {
          maxlen := len;
        }
        if j == 0 || len < minlen {
          minlen := len;
        }
      }
      j := j + 1;
    }
    assert srcs[..j] == srcs;
  }

  // ------------------------------------------------------------------------- bit by bit

  function Mask(i: nat): bv8
    requires i < 8
  {
    match i
    case 0 => 0x01
    case 1 => 0x02
    case 2 => 0x04
    case 3 => 0x08
    case 4 => 0x10
    case 5 => 0x20
    case 6 => 0x40
    case _ => 0x80
  }

  /** Bit i of a byte, the lowest first. */
  predicate Bit(b: bv8, i: nat)
    requires i < 8
  {
    b & Mask(i) != 0
  }

  /** The source reaches byte t and has bit i in it. */
  predicate HasBit(src: Source, t: nat, i: nat)
    requires i < 8
  {
    src.Some? && t < |src.value| && Bit(src.value[t], i)
  }

  /** How many of the first n sources have the bit. */
  function Holders(srcs: seq<Source>, t: nat, i: nat, n: nat): nat
    requires n <= |srcs| && i < 8
  {
    if n == 0 then 0 else Holders(srcs, t, i, n - 1) + if HasBit(srcs[n - 1], t, i) then 1 else 0
  }

  predicate OneBit(m: bv8) {
    m == 0x01 || m == 0x02 || m == 0x04 || m == 0x08 || m == 0x10 || m == 0x20 || m == 0x40 || m == 0x80
  }

  lemma MaskIs(i: nat)
    requires i < 8
    ensures OneBit(Mask(i))
  {
  }

  lemma MaskAnd(a: bv8, b: bv8, m: bv8)
    requires OneBit(m)
    ensures (a & b) & m != 0 <==> a & m != 0 && b & m != 0
  {
  }

  lemma MaskOr(a: bv8, b: bv8, m: bv8)
    requires OneBit(m)
    ensures (a | b) & m != 0 <==> a & m != 0 || b & m != 0
  {
  }

  lemma MaskXor(a: bv8, b: bv8, m: bv8)
    requires OneBit(m)
    ensures (a ^ b) & m != 0 <==> (a & m != 0 <==> b & m == 0)
  {
  }

  lemma MaskNot(a: bv8, m: bv8)
    requires OneBit(m)
    ensures !a & m != 0 <==> a & m == 0
  {
  }

  lemma BitOfAnd(a: bv8, b: bv8, i: nat)
    requires i < 8
    ensures Bit(a & b, i) <==> Bit(a, i) && Bit(b, i)
  {
    hide Mask, OneBit;
    MaskIs(i);
    MaskAnd(a, b, Mask(i));
  }

  lemma BitOfOr(a: bv8, b: bv8, i: nat)
    requires i < 8
    ensures Bit(a | b, i) <==> Bit(a, i) || Bit(b, i)
  {
    hide Mask, OneBit;
    MaskIs(i);
    MaskOr(a, b, Mask(i));
  }

  lemma BitOfXor(a: bv8, b: bv8, i: nat)
    requires i < 8
    ensures Bit(a ^ b, i) <==> (Bit(a, i) <==> !Bit(b, i))
  {
    hide Mask, OneBit;
    MaskIs(i);
    MaskXor(a, b, Mask(i));
  }

  lemma BitOfNot(a: bv8, i: nat)
    requires i < 8
    ensures Bit(!a, i) <==> !Bit(a, i)
  {
    hide Mask, OneBit;
    MaskIs(i);
    MaskNot(a, Mask(i));
  }

  lemma BitsOfOps(a: bv8, b: bv8, i: nat)
    requires i < 8
    ensures Bit(OpByte(And, a, b), i) <==> Bit(a, i) && Bit(b, i)
    ensures Bit(OpByte(Or, a, b), i) <==> Bit(a, i) || Bit(b, i)
    ensures Bit(OpByte(Xor, a, b), i) <==> (Bit(a, i) <==> !Bit(b, i))
    ensures Bit(!a, i) <==> !Bit(a, i)
  {
    hide Bit;
    BitOfAnd(a, b, i);
    BitOfOr(a, b, i);
    BitOfXor(a, b, i);
    BitOfNot(a, i);
  }

  lemma BitPastEnd(src: Source, t: nat, i: nat)
    requires i < 8
    ensures Bit(At(src, t), i) <==> HasBit(src, t, i)
  {
    assert 0 & Mask(i) == 0;
  }

  /** AND, OR and XOR over the first n sources. */
  lemma {:induction false} FoldBits(op: Op, srcs: seq<Source>, t: nat, n: nat, i: nat)
    requires 1 <= n <= |srcs| && i < 8
    ensures op == And ==> (Bit(Fold(op, srcs, t, n), i) <==> forall k | 0 <= k < n :: HasBit(srcs[k], t, i))
    ensures op == Or ==> (Bit(Fold(op, srcs, t, n), i) <==> exists k | 0 <= k < n :: HasBit(srcs[k], t, i))
    ensures op == Xor ==> (Bit(Fold(op, srcs, t, n), i) <==> Holders(srcs, t, i, n) % 2 == 1)
    decreases n
  {
    hide Bit, HasBit, OpByte, At;
    BitPastEnd(srcs[n - 1], t, i);
    if n > 1 {
      FoldBits(op, srcs, t, n - 1, i);
      BitsOfOps(Fold(op, srcs, t, n - 1), At(srcs[n - 1], t), i);
    } else {
      assert Holders(srcs, t, i, 0) == 0;
    }
  }

  /** What BITOP promises of one bit of its result: for AND that every source reaches the byte
      and has the bit, for OR that some source does, for XOR that an odd number of them do,
      for NOT that the one source does not. */
  ghost predicate Promised(op: Op, srcs: seq<Source>, t: nat, i: nat, isSet: bool)
    requires srcs != [] && i < 8
  {
    match op
    case And => isSet <==> forall k | 0 <= k < |srcs| :: HasBit(srcs[k], t, i)
    case Or => isSet <==> exists k | 0 <= k < |srcs| :: HasBit(srcs[k], t, i)
    case Xor => isSet <==> Holders(srcs, t, i, |srcs|) % 2 == 1
    case Not => isSet <==> !HasBit(srcs[0], t, i)
  }

  lemma ResultBits(op: Op, srcs: seq<Source>, t: nat, i: nat)
    requires srcs != [] && i < 8
    ensures Promised(op, srcs, t, i, Bit(Result(op, srcs, t), i))
  {
    hide Bit, HasBit, OpByte, At;
    FoldBits(op, srcs, t, |srcs|, i);
    BitsOfOps(At(srcs[0], t), 0, i);
    BitPastEnd(srcs[0], t, i);
  }

  lemma {:induction false} MaxLenIsMax(srcs: seq<Source>)
    ensures forall k | 0 <= k < |srcs| && srcs[k].Some? :: |srcs[k].value| <= MaxLen(srcs)
    ensures MaxLen(srcs) == 0 || exists k | 0 <= k < |srcs| :: srcs[k].Some? && |srcs[k].value| == MaxLen(srcs)
    decreases |srcs|
  {
    if srcs != [] {
      var last := |srcs| - 1;
      MaxLenIsMax(srcs[..last]);
      if MaxLen(srcs) != 0 && MaxLen(srcs) == MaxLen(srcs[..last]) {
        var k :| 0 <= k < last && srcs[..last][k].Some? && |srcs[..last][k].value| == MaxLen(srcs);
        assert srcs[k].Some? && |srcs[k].value| == MaxLen(srcs);
      }
      forall k | 0 <= k < |srcs| && srcs[k].Some? ensures |srcs[k].value| <= MaxLen(srcs) {
        if k < last {
          assert srcs[..last][k] == srcs[k];
        }
      }
    }
  }

  method CopyFirst(src: seq<bv8>, res: array<bv8>, n: nat)
    requires n <= |src| && n <= res.Length
    modifies res
    ensures forall t | 0 <= t < n :: res[t] == src[t]
  {
    var t := 0;
    while t < n
      invariant t <= n && forall k | 0 <= k < t :: res[k] == src[k]
    {
      res[t] := src[t];
      t := t + 1;
    }
  }

  /** The fast path; it says where it stopped. */
  method FastPath(op: Op, srcs: seq<Source>, res: array<bv8>, minlen: nat) returns (j: nat)
    requires srcs != [] && minlen <= res.Length && AllReach(srcs, minlen) && (op == Not ==> |srcs| == 1)
    modifies res
    ensures j <= minlen && forall t | 0 <= t < j :: res[t] == Result(op, srcs, t)
  {
    hide Result;
    CopyFirst(srcs[0].value, res, minlen);
    j := 0;
    var left := minlen;
    while left >= 32
      invariant j + left == minlen
      invariant forall t | 0 <= t < j :: res[t] == Result(op, srcs, t)
      invariant forall t | j <= t < minlen :: res[t] == At(srcs[0], t)
    {
      FastBlock(op, srcs, res, j);
      j := j + 32;
      left := left - 32;
    }
  }

  /** bitopCommand: the result is as long as the longest source and each of its bits is what
      the operation promises, whatever path computed it. */
  method Bitop(op: Op, srcs: seq<Source>) returns (res: array<bv8>)
    requires srcs != [] && (op == Not ==> |srcs| == 1)
    ensures res.Length == MaxLen(srcs) && fresh(res)
    ensures forall k | 0 <= k < |srcs| && srcs[k].Some? :: |srcs[k].value| <= res.Length
    ensures res.Length == 0 || exists k | 0 <= k < |srcs| :: srcs[k].Some? && |srcs[k].value| == res.Length
    ensures forall t | 0 <= t < res.Length :: res[t] == Result(op, srcs, t)
    ensures forall t, i: nat | 0 <= t < res.Length && i < 8 :: Promised(op, srcs, t, i, Bit(res[t], i))
  {
    hide OpByte, MaxLen, Result, Promised, Bit;
    MaxLenIsMax(srcs);
    var minlen, maxlen := Lengths(srcs);
    res := new bv8[maxlen](_ => 0);
    var j := 0;
    if minlen >= 32 && |srcs| <= 16 {
      assert Len(srcs[0]) <= maxlen;
      assert AllReach(srcs, minlen);
      j := FastPath(op, srcs, res, minlen);
    }
    while j < maxlen
      invariant j <= maxlen
      invariant forall t | 0 <= t < j :: res[t] == Result(op, srcs, t)
    {
      var output := At(srcs[0], j);
      if op == Not {
        output := !output;
      }
      var i := 1;
      while i < |srcs|
        invariant 1 <= i <= |srcs|
        invariant op == Not ==> output == !At(srcs[0], j)
        invariant op != Not ==> output == Fold(op, srcs, j, i)
      {
        output := OpByte(op, output, At(srcs[i], j));
        i := i + 1;
      }
      ResultIs(op, srcs, j);
      res[j] := output;
      j := j + 1;
    }
    forall t, i: nat | 0 <= t < res.Length && i < 8 ensures Promised(op, srcs, t, i, Bit(res[t], i)) {
      ResultBits(op, srcs, t, i);
    }
  }

  lemma ResultIs(op: Op, srcs: seq<Source>, j: nat)
    requires srcs != []
    ensures Result(op, srcs, j) == if op == Not then !At(srcs[0], j) else Fold(op, srcs, j, |srcs|)
  {
  }
}
