/** The CRC64 of DUMP payloads: table steps against bit steps, and the damage it detects. */
module Crc64 {
  import opened BitOp

  /** The Jones polynomial 0xad93d23594c935a9, reflected. */
  const POLY: bv64 := 0x95AC_9329_AC4B_C9B5

  function Xor2(a: bv64, b: bv64): bv64 {
    a ^ b
  }

  predicate Odd(c: bv64) {
    c & 1 == 1
  }

  function Half(c: bv64): bv64 {
    c >> 1
  }

  function Feedback(on: bool): bv64 {
    if on then POLY else 0
  }

  function BitStep(c: bv64): bv64 {
    Xor2(Half(c), Feedback(Odd(c)))
  }

  function Steps(c: bv64, n: nat): bv64
    decreases n
  {
    if n == 0 then c else Steps(BitStep(c), n - 1)
  }

  function Wide(b: bv8): bv64 {
    b as bv64
  }

  /** The table of the source, by what generates it. */
  function Entry(i: bv8): bv64 {
    Steps(Wide(i), 8)
  }

  /** One round of the loop in crc64. */
  function ByteStep(crc: bv64, b: bv8): bv64 {
    Xor2(Entry(Low(crc) ^ b), Down(crc))
  }

  function Crc(crc: bv64, s: seq<bv8>): bv64
    decreases |s|
  {
    if s == [] then crc else Crc(ByteStep(crc, s[0]), s[1..])
  }

  /** The entries at the powers of two, as the source lists them; by linearity they fix all. */
  lemma Basis()
    ensures Entry(1) == 0x7AD8_70C8_3035_8979 && Entry(2) == 0xF5B0_E190_606B_12F2
    ensures Entry(4) == 0xC038_E573_9841_B68F && Entry(8) == 0xAB28_ECB4_6814_FE75
    ensures Entry(16) == 0x7D08_FF3B_88BE_6F81 && Entry(32) == 0xFA11_FE77_117C_DF02
    ensures Entry(64) == 0xDF7A_DABD_7A6E_2D6F && Entry(128) == 0x95AC_9329_AC4B_C9B5
  {
    Unfold(1);
    Unfold(2);
    Unfold(4);
    Unfold(8);
    Unfold(16);
    Unfold(32);
    Unfold(64);
    Unfold(128);
  }

  lemma EntryLinear(i: bv8, j: bv8)
    ensures Entry(i ^ j) == Xor2(Entry(i), Entry(j))
  {
    hide Xor2, Steps, Wide;
    WideXor(i, j);
    StepsLinear(Wide(i), Wide(j), 8);
  }

  lemma WideXor(i: bv8, j: bv8)
    ensures Wide(i ^ j) == Xor2(Wide(i), Wide(j))
  {
  }

  lemma Unfold(c: bv64)
    ensures Steps(c, 8) == BitStep(BitStep(BitStep(BitStep(BitStep(BitStep(BitStep(BitStep(c))))))))
  {
    hide BitStep;
    var c1 := BitStep(c);
    var c2 := BitStep(c1);
    var c3 := BitStep(c2);
    var c4 := BitStep(c3);
    var c5 := BitStep(c4);
    var c6 := BitStep(c5);
    var c7 := BitStep(c6);
    assert Steps(c7, 1) == BitStep(c7);
    assert Steps(c6, 2) == Steps(c7, 1);
    assert Steps(c4, 4) == Steps(c6, 2);
    assert Steps(c2, 6) == Steps(c4, 4);
  }

  lemma HalfLinear(x: bv64, y: bv64)
    ensures Half(Xor2(x, y)) == Xor2(Half(x), Half(y))
    ensures Odd(Xor2(x, y)) == (Odd(x) != Odd(y))
  {
  }

  lemma FeedbackLinear(a: bool, b: bool)
    ensures Feedback(a != b) == Xor2(Feedback(a), Feedback(b))
  {
  }

  lemma Swap(a: bv64, b: bv64, c: bv64, d: bv64)
    ensures Xor2(a ^ b, c ^ d) == Xor2(a ^ c, b ^ d)
  {
  }

  lemma XorIs(a: bv64, b: bv64)
    ensures Xor2(a, b) == a ^ b
  {
  }

  lemma XorSwap(a: bv64, b: bv64, c: bv64, d: bv64)
    ensures Xor2(Xor2(a, b), Xor2(c, d)) == Xor2(Xor2(a, c), Xor2(b, d))
  {
    hide Xor2;
    Swap(a, b, c, d);
    XorIs(a, b);
    XorIs(c, d);
    XorIs(a, c);
    XorIs(b, d);
  }

  lemma StepLinear(x: bv64, y: bv64)
    ensures BitStep(Xor2(x, y)) == Xor2(BitStep(x), BitStep(y))
  {
    hide Xor2, Half, Odd, Feedback;
    HalfLinear(x, y);
    FeedbackLinear(Odd(x), Odd(y));
    XorSwap(Half(x), Half(y), Feedback(Odd(x)), Feedback(Odd(y)));
  }

  lemma StepInjective(x: bv64, y: bv64)
    requires BitStep(x) == BitStep(y)
    ensures x == y
  {
  }

  lemma {:induction false} StepsLinear(x: bv64, y: bv64, n: nat)
    ensures Steps(Xor2(x, y), n) == Xor2(Steps(x, n), Steps(y, n))
    decreases n
  {
    hide Xor2, BitStep;
    if n > 0 {
      StepLinear(x, y);
      StepsLinear(BitStep(x), BitStep(y), n - 1);
    }
  }

  lemma {:induction false} StepsInjective(x: bv64, y: bv64, n: nat)
    requires Steps(x, n) == Steps(y, n)
    ensures x == y
    decreases n
  {
    hide BitStep;
    if n > 0 {
      StepsInjective(BitStep(x), BitStep(y), n - 1);
      StepInjective(x, y);
    }
  }

  lemma {:induction false} StepsAdd(x: bv64, m: nat, n: nat)
    ensures Steps(x, m + n) == Steps(Steps(x, m), n)
    decreases m
  {
    hide BitStep;
    if m > 0 {
      StepsAdd(BitStep(x), m - 1, n);
    }
  }

  function Up(y: bv64): bv64 {
    y << 8
  }

  function Double(y: bv64): bv64 {
    y << 1
  }

  predicate Room(y: bv64) {
    y < 0x8000_0000_0000_0000
  }

  lemma DoubleStep(y: bv64)
    requires Room(y)
    ensures BitStep(Double(y)) == y
  {
    hide BitStep, Double, Room;
    ShiftBack(y);
    StepOf(y << 1, y);
    DoubleIs(y);
  }

  lemma ShiftBack(y: bv64)
    requires Room(y)
    ensures (y << 1) >> 1 == y && (y << 1) & 1 == 0
  {
  }

  lemma StepOf(x: bv64, r: bv64)
    requires x >> 1 == r && x & 1 == 0
    ensures BitStep(x) == r
  {
  }

  lemma DoubleIs(y: bv64)
    ensures Double(y) == y << 1
  {
  }

  lemma {:induction false} DoubleSteps(y: bv64, k: nat)
    requires Rooms(y, k)
    ensures Steps(Doubles(y, k), k) == y
    decreases k
  {
    hide BitStep, Double, Room;
    if k > 0 {
      DoubleSteps(Double(y), k - 1);
      DoubleStep(y);
      StepsAdd(Doubles(y, k), k - 1, 1);
      assert Steps(Double(y), 1) == BitStep(Double(y));
    }
  }

  function Doubles(y: bv64, k: nat): bv64
    decreases k
  {
    if k == 0 then y else Doubles(Double(y), k - 1)
  }

  predicate Rooms(y: bv64, k: nat)
    decreases k
  {
    k == 0 || (Room(y) && Rooms(Double(y), k - 1))
  }

  lemma EightRooms(y: bv64)
    requires Holds(y, 7)
    ensures Rooms(y, 8) && Doubles(y, 8) == Up(y)
  {
    hide Double, Room, Up;
    var y1 := Double(y);
    var y2 := Double(y1);
    var y3 := Double(y2);
    var y4 := Double(y3);
    var y5 := Double(y4);
    var y6 := Double(y5);
    var y7 := Double(y6);
    Shifts(y);
    assert Rooms(y7, 1) && Doubles(y7, 1) == Up(y);
    assert Rooms(y6, 2) && Doubles(y6, 2) == Up(y);
    assert Rooms(y4, 4) && Doubles(y4, 4) == Up(y);
    assert Rooms(y2, 6) && Doubles(y2, 6) == Up(y);
  }

  lemma Shifts(y: bv64)
    requires Holds(y, 7)
    ensures Room(y) && Room(Double(y)) && Room(Double(Double(y))) && Room(Double(Double(Double(y))))
    ensures var z := Double(Double(Double(Double(y))));
            Room(z) && Room(Double(z)) && Room(Double(Double(z))) && Room(Double(Double(Double(z))))
            && Double(Double(Double(Double(z)))) == Up(y)
  {
  }

  lemma EightShifts(y: bv64)
    requires Holds(y, 7)
    ensures Steps(Up(y), 8) == y
  {
    hide Steps, Holds, Rooms, Doubles, Up;
    EightRooms(y);
    DoubleSteps(y, 8);
  }

  /** What comes in above the lowest byte waits for eight steps. */
  lemma Absorb(x: bv64, y: bv64)
    requires Holds(y, 7)
    ensures Steps(Xor2(x, Up(y)), 8) == Xor2(Steps(x, 8), y)
  {
    hide Xor2, Steps, Up, Holds;
    StepsLinear(x, Up(y), 8);
    EightShifts(y);
  }

  // ------------------------------------------------------------- a table step is eight bit steps

  lemma Apart(crc: bv64, b: bv64)
    ensures crc ^ b == ((crc & 0xFF) ^ b) ^ ((crc >> 8) << 8)
    ensures crc >> 8 < 0x100_0000_0000_0000
  {
  }

  lemma LowXor(crc: bv64, b: bv8)
    ensures Wide(Low(crc) ^ b) == (crc & 0xFF) ^ (b as bv64)
  {
  }

  lemma UpDown(crc: bv64)
    ensures Up(Down(crc)) == (crc >> 8) << 8
  {
  }

  lemma DownHolds(crc: bv64)
    ensures Holds(Down(crc), 7)
  {
  }

  lemma WideIs(b: bv8)
    ensures Wide(b) == b as bv64
  {
  }

  lemma Assemble(crc: bv64, b: bv8)
    ensures Xor2(crc, Wide(b)) == Xor2(Wide(Low(crc) ^ b), Up(Down(crc)))
  {
    hide Xor2, Wide, Low, Up, Down;
    Apart(crc, b as bv64);
    LowXor(crc, b);
    UpDown(crc);
    WideIs(b);
    XorIs(crc, b as bv64);
    XorIs((crc & 0xFF) ^ (b as bv64), (crc >> 8) << 8);
  }

  /** A lookup and a shift do what eight bit steps do. */
  lemma TableStep(crc: bv64, b: bv8)
    ensures ByteStep(crc, b) == Steps(Xor2(crc, Wide(b)), 8)
  {
    hide Xor2, Steps, Up, Down, Low, Holds, Wide;
    Assemble(crc, b);
    DownHolds(crc);
    Absorb(Wide(Low(crc) ^ b), Down(crc));
  }

  // ------------------------------------------------------------------ up to eight bytes

  /** Little endian. */
  function Word(w: seq<bv8>): bv64 {
    Load(w, 0, |w|)
  }

  lemma {:induction false} LoadShift(s: seq<bv8>, p: nat, n: nat)
    requires 0 < p && p + n <= |s|
    ensures Load(s, p, n) == Load(s[1..], p - 1, n)
    decreases n
  {
    hide Cat;
    if n > 0 {
      LoadShift(s, p + 1, n - 1);
    }
  }

  lemma CatIs(h: bv64, l: bv8)
    requires Holds(h, 7)
    ensures Cat(h, l) == Xor2(Wide(l), Up(h))
  {
    assert (h << 8) | (l as bv64) == (l as bv64) ^ (h << 8);
  }

  lemma XorAssociates(a: bv64, b: bv64, c: bv64)
    ensures Xor2(Xor2(a, b), c) == Xor2(a, Xor2(b, c))
  {
    hide Xor2;
    Associate(a, b, c);
    XorIs(a, b);
    XorIs(b, c);
  }

  lemma Associate(a: bv64, b: bv64, c: bv64)
    ensures Xor2(a ^ b, c) == Xor2(a, b ^ c)
  {
  }

  lemma XorZero(a: bv64)
    ensures Xor2(a, 0) == a && Xor2(a, a) == 0
  {
  }

  lemma WordCons(w: seq<bv8>)
    requires 0 < |w| <= 8
    ensures Word(w) == Xor2(Wide(w[0]), Up(Word(w[1..]))) && Holds(Word(w[1..]), 7)
  {
    hide Xor2, Up, Holds, Cat, Wide;
    var rest := w[1..];
    LoadShift(w, 1, |rest|);
    LoadHolds(rest, 0, |rest|);
    HoldsMore(Word(rest), |rest|);
    CatIs(Word(rest), w[0]);
  }

  /** Up to eight bytes act like one word fed in at once. */
  lemma {:induction false} WordSteps(c: bv64, w: seq<bv8>)
    requires |w| <= 8
    ensures Crc(c, w) == Steps(Xor2(c, Word(w)), 8 * |w|)
    decreases |w|
  {
    hide Xor2, Up, Holds, ByteStep, BitStep, Word, Wide;
    if w == [] {
      assert Word(w) == 0 by { NoWord(w); }
      XorZero(c);
    } else {
      var rest, b := w[1..], Wide(w[0]);
      var n := 8 * |rest|;
      WordCons(w);
      TableStep(c, w[0]);
      WordSteps(ByteStep(c, w[0]), rest);
      Absorb(Xor2(c, b), Word(rest));
      XorAssociates(c, b, Up(Word(rest)));
      StepsAdd(Xor2(c, Word(w)), 8, n);
      assert 8 * |w| == 8 + n;
    }
  }

  lemma NoWord(w: seq<bv8>)
    requires w == []
    ensures Word(w) == 0
  {
  }

  lemma SameWord(v: seq<bv8>, w: seq<bv8>)
    requires |v| == |w| <= 8 && Word(v) == Word(w)
    ensures v == w
  {
    hide Cat, ByteOf;
    forall i | 0 <= i < |v| ensures v[i] == w[i] {
      ByteOfLoad(v, 0, |v|, i);
      ByteOfLoad(w, 0, |w|, i);
    }
  }

  // ---------------------------------------------------------------------- what is detected

  lemma {:induction false} CrcConcat(c: bv64, a: seq<bv8>, b: seq<bv8>)
    ensures Crc(c, a + b) == Crc(Crc(c, a), b)
    decreases |a|
  {
    hide ByteStep;
    if a == [] {
      assert a + b == b;
    } else {
      assert (a + b)[1..] == a[1..] + b;
      CrcConcat(ByteStep(c, a[0]), a[1..], b);
    }
  }

  lemma XorCancels(a: bv64, b: bv64, c: bv64)
    requires Xor2(a, c) == Xor2(b, c) || Xor2(c, a) == Xor2(c, b)
    ensures a == b
  {
  }

  lemma {:induction false} StateInjective(c: bv64, d: bv64, s: seq<bv8>)
    requires Crc(c, s) == Crc(d, s)
    ensures c == d
    decreases |s|
  {
    hide ByteStep, Steps, Xor2, Wide;
    if s != [] {
      StateInjective(ByteStep(c, s[0]), ByteStep(d, s[0]), s[1..]);
      TableStep(c, s[0]);
      TableStep(d, s[0]);
      StepsInjective(Xor2(c, Wide(s[0])), Xor2(d, Wide(s[0])), 8);
      XorCancels(c, d, Wide(s[0]));
    }
  }

  /** Two strings of one length that differ only within eight consecutive bytes never have
      the same CRC. */
  lemma BurstDetected(a: seq<bv8>, v: seq<bv8>, w: seq<bv8>, b: seq<bv8>)
    requires |v| == |w| <= 8 && v != w
    ensures Crc(0, a + v + b) != Crc(0, a + w + b)
  {
    hide Crc, Steps, Xor2, Word;
    var c := Crc(0, a);
    CrcConcat(0, a, v);
    CrcConcat(0, a, w);
    CrcConcat(0, a + v, b);
    CrcConcat(0, a + w, b);
    WordSteps(c, v);
    WordSteps(c, w);
    if Crc(0, a + v + b) == Crc(0, a + w + b) {
      StateInjective(Crc(c, v), Crc(c, w), b);
      StepsInjective(Xor2(c, Word(v)), Xor2(c, Word(w)), 8 * |v|);
      XorCancels(Word(v), Word(w), c);
      SameWord(v, w);
      assert false;
    }
  }

  // ------------------------------------------------------------------------ dump payloads

  const RDB_VERSION: bv8 := 9

  function WordBytes(w: bv64): (r: seq<bv8>)
    ensures |r| == 8
  {
    seq(8, i requires 0 <= i < 8 => ByteOf(w, i))
  }

  /** createDumpPayload, from the serialized object on. */
  function Create(body: seq<bv8>): seq<bv8> {
    var data := body + [RDB_VERSION, 0];
    data + WordBytes(Crc(0, data))
  }

  /** verifyDumpPayload. */
  predicate Verify(p: seq<bv8>) {
    && |p| >= 10
    && p[|p| - 9] == 0 && p[|p| - 10] <= RDB_VERSION
    && WordBytes(Crc(0, p[..|p| - 8])) == p[|p| - 8..]
  }

  /** Every payload that is created is accepted. */
  lemma CreatedVerifies(body: seq<bv8>)
    ensures Verify(Create(body))
  {
    hide Crc, WordBytes;
    var data := body + [RDB_VERSION, 0];
    var p := Create(body);
    assert p[..|p| - 8] == data;
    assert p[|p| - 8..] == WordBytes(Crc(0, data));
    assert p[|p| - 9] == data[|data| - 1] && p[|p| - 10] == data[|data| - 2];
  }

  /** Whatever it holds, a payload with the right CRC is accepted exactly if the version in
      front of the CRC, low byte first, is at most 9; anything shorter than ten bytes is not. */
  lemma VersionDecides(body: seq<bv8>, low: bv8, high: bv8, p: seq<bv8>)
    ensures var data := body + [low, high];
            Verify(data + WordBytes(Crc(0, data))) <==> low as nat + 256 * (high as nat) <= 9
    ensures |p| < 10 ==> !Verify(p)
  {
    hide Crc, WordBytes;
    var data := body + [low, high];
    var p := data + WordBytes(Crc(0, data));
    assert p[..|p| - 8] == data;
    assert p[|p| - 8..] == WordBytes(Crc(0, data));
    assert p[|p| - 9] == data[|data| - 1] == high && p[|p| - 10] == data[|data| - 2] == low;
    SmallVersion(low, high);
  }

  lemma SmallVersion(low: bv8, high: bv8)
    ensures high == 0 && low <= RDB_VERSION <==> low as nat + 256 * (high as nat) <= 9
  {
    assert high == 0 <==> high as nat == 0;
    assert low <= 9 <==> low as nat <= 9;
  }

  function Downs(w: bv64, i: nat): bv64
    decreases i
  {
    if i == 0 then w else Downs(Down(w), i - 1)
  }

  lemma {:induction false} DownsByte(w: bv64, i: nat)
    ensures ByteOf(w, i) == Low(Downs(w, i)) && Downs(w, i + 1) == Down(Downs(w, i))
    decreases i
  {
    hide Down, Low;
    if i > 0 {
      DownsByte(Down(w), i - 1);
    }
  }

  lemma AllDown(w: bv64)
    ensures Downs(w, 8) == 0
  {
    hide Down;
    DownsByte(w, 7);
    DownsByte(w, 6);
    DownsByte(w, 5);
    DownsByte(w, 4);
    DownsByte(w, 3);
    DownsByte(w, 2);
    DownsByte(w, 1);
    DownsByte(w, 0);
    EightDown(w);
  }

  lemma EightDown(w: bv64)
    ensures Down(Down(Down(Down(Down(Down(Down(Down(w)))))))) == 0
  {
  }

  lemma CatLowDown(w: bv64)
    ensures Cat(Down(w), Low(w)) == w
  {
    assert ((w >> 8) << 8) | (((w & 0xFF) as bv8) as bv64) == w;
  }

  lemma {:induction false} Rebuild(w: bv64, i: nat)
    requires i <= 8
    ensures Load(WordBytes(w), i, 8 - i) == Downs(w, i)
    decreases 8 - i
  {
    hide Cat, ByteOf, Downs;
    if i == 8 {
      AllDown(w);
    } else {
      Rebuild(w, i + 1);
      DownsByte(w, i);
      CatLowDown(Downs(w, i));
    }
  }

  /** Eight bytes of a word read back as the word. */
  lemma ByteWord(w: bv64)
    ensures Word(WordBytes(w)) == w
  {
    hide WordBytes, Load;
    Rebuild(w, 0);
    assert Downs(w, 0) == w;
  }

  lemma {:induction false} ZeroSteps(n: nat)
    ensures Steps(0, n) == 0
    decreases n
  {
    if n > 0 {
      assert BitStep(0) == 0;
      ZeroSteps(n - 1);
    }
  }

  lemma XorIsZero(a: bv64, b: bv64)
    ensures Xor2(a, b) == 0 <==> a == b
  {
  }

  /** A string followed by its CRC has the CRC zero, and by nothing else of eight bytes. */
  lemma Residue(data: seq<bv8>, footer: seq<bv8>)
    requires |footer| == 8
    ensures WordBytes(Crc(0, data)) == footer <==> Crc(0, data + footer) == 0
  {
    hide Crc, Steps, Xor2, Word, WordBytes;
    var c := Crc(0, data);
    CrcConcat(0, data, footer);
    WordSteps(c, footer);
    XorIsZero(c, Word(footer));
    ByteWord(c);
    ZeroSteps(64);
    if Crc(0, data + footer) == 0 {
      StepsInjective(Xor2(c, Word(footer)), 0, 64);
      SameWord(WordBytes(c), footer);
    }
  }

  /** Of an accepted payload, no copy damaged within eight consecutive bytes is accepted,
      wherever the damage is: in the value, the version, the CRC itself, or across them. */
  lemma DamageRejected(a: seq<bv8>, v: seq<bv8>, w: seq<bv8>, b: seq<bv8>)
    requires |v| == |w| <= 8 && v != w && Verify(a + v + b)
    ensures !Verify(a + w + b)
  {
    hide Crc, WordBytes;
    var p, q := a + v + b, a + w + b;
    BurstDetected(a, v, w, b);
    var n := |p| - 8;
    Residue(p[..n], p[n..]);
    Residue(q[..n], q[n..]);
    assert p[..n] + p[n..] == p && q[..n] + q[n..] == q;
  }

  /** crc64. */
  method ComputeCrc(crc: bv64, s: seq<bv8>) returns (r: bv64)
    ensures r == Crc(crc, s)
  {
    hide ByteStep;
    r := crc;
    var j := 0;
    assert s[0..] == s;
    while j < |s|
      invariant j <= |s| && Crc(r, s[j..]) == Crc(crc, s)
    {
      assert s[j..][1..] == s[j + 1..];
      r := ByteStep(r, s[j]);
      j := j + 1;
    }
  }
}
