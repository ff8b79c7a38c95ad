/** Integers of any width at any bit offset of a string, and their overflow checks. */
module BitField {

  function Pow2(n: nat): (r: nat)
    ensures r > 0
  {
    if n == 0 then 1 else 2 * Pow2(n - 1)
  }

  const UINT64: nat := 0x1_0000_0000_0000_0000
  const INT64_MAX: int := 0x7FFF_FFFF_FFFF_FFFF
  const INT64_MIN: int := -0x8000_0000_0000_0000

  type uint64 = x: int | 0 <= x < UINT64
  type int64 = x: int | INT64_MIN <= x <= INT64_MAX

  /** Bit k of a number. */
  predicate Digit(v: nat, k: nat) {
    (v / Pow2(k)) % 2 == 1
  }

  // -------------------------------------------------------------------- bits of a string

  /** Bit 0 is the most significant bit of the first byte. */
  function Mask(k: nat): bv8
    requires k < 8
  {
    match k
    case 0 => 0x80
    case 1 => 0x40
    case 2 => 0x20
    case 3 => 0x10
    case 4 => 0x08
    case 5 => 0x04
    case 6 => 0x02
    case _ => 0x01
  }

  predicate BitAt(s: seq<bv8>, i: nat)
    requires i < 8 * |s|
  {
    s[i / 8] & Mask(i % 8) != 0
  }

  function WithBit(b: bv8, k: nat, on: bool): bv8
    requires k < 8
  {
    (b & !Mask(k)) | (if on then Mask(k) else 0)
  }

  lemma WithBitEffect(b: bv8, k: nat, on: bool, j: nat)
    requires k < 8 && j < 8
    ensures WithBit(b, k, on) & Mask(j) != 0 <==> if j == k then on else b & Mask(j) != 0
  {
  }

  lemma Written(s: seq<bv8>, t: seq<bv8>, o: nat, on: bool, i: nat)
    requires o < 8 * |s| && i < 8 * |s| && t == s[o / 8 := WithBit(s[o / 8], o % 8, on)]
    ensures BitAt(t, i) == if i == o then on else BitAt(s, i)
  {
    hide WithBit, Mask;
    if i / 8 == o / 8 {
      WithBitEffect(s[o / 8], o % 8, on, i % 8);
    }
  }

  /** setUnsignedBitfield: the bits of the field are those of the value, the others stay. */
  method SetUnsignedBitfield(p: array<bv8>, offset: nat, bits: nat, value: uint64)
    requires bits <= 64 && offset + bits <= 8 * p.Length
    modifies p
    ensures forall i | 0 <= i < 8 * p.Length ::
              BitAt(p[..], i) == if offset <= i < offset + bits then Digit(value, bits - 1 - (i - offset)) else BitAt(old(p[..]), i)
  {
    hide Digit, BitAt, WithBit;
    var j := 0;
    while j < bits
      invariant j <= bits
      invariant forall i | 0 <= i < 8 * p.Length ::
                  BitAt(p[..], i) == if offset <= i < offset + j then Digit(value, bits - 1 - (i - offset)) else BitAt(old(p[..]), i)
    {
      var bitval := Digit(value, bits - 1 - j);
      var o := offset + j;
      ghost var s := p[..];
      p[o / 8] := WithBit(p[o / 8], o % 8, bitval);
      forall i | 0 <= i < 8 * p.Length ensures BitAt(p[..], i) == if i == o then bitval else BitAt(s, i) {
        Written(s, p[..], o, bitval, i);
      }
      j := j + 1;
    }
  }

  /** The number that the bits of a field spell. */
  function Field(s: seq<bv8>, offset: nat, bits: nat): (r: nat)
    requires offset + bits <= 8 * |s|
    ensures r < Pow2(bits)
  {
    if bits == 0 then 0 else 2 * Field(s, offset, bits - 1) + (if BitAt(s, offset + bits - 1) then 1 else 0)
  }

  method GetUnsignedBitfield(p: array<bv8>, offset: nat, bits: nat) returns (value: nat)
    requires bits <= 64 && offset + bits <= 8 * p.Length
    ensures value == Field(p[..], offset, bits)
  {
    hide BitAt;
    value := 0;
    var j := 0;
    while j < bits
      invariant j <= bits && value == Field(p[..], offset, j)
    {
      value := 2 * value + (if BitAt(p[..], offset + j) then 1 else 0);
      j := j + 1;
    }
  }

  // -------------------------------------------------------------------- get after set

  lemma DigitUp(v: nat, k: nat)
    ensures Digit(v, k + 1) == Digit(v / 2, k)
  {
    assert Pow2(k + 1) == 2 * Pow2(k);
    DivDiv(v, Pow2(k));
  }

  lemma DivDiv(v: nat, p: nat)
    requires p > 0
    ensures v / (2 * p) == (v / 2) / p
  {
    var q, r := (v / 2) / p, (v / 2) % p;
    assert v == 2 * (q * p + r) + v % 2;
    assert v == (2 * p) * q + (2 * r + v % 2);
    assert 0 <= 2 * r + v % 2 < 2 * p;
    Quotient(v, 2 * p, q, 2 * r + v % 2);
  }

  lemma Product(d: int, k: int)
    requires d > 0
    ensures k >= 1 ==> d * k >= d
    ensures k <= -1 ==> d * k <= -d
  {
    if k >= 1 {
      assert d * k == d + d * (k - 1);
    } else if k <= -1 {
      assert d * k == -d + d * (k + 1);
    }
  }

  lemma Quotient(v: int, d: int, q: int, r: int)
    requires d > 0 && v == d * q + r && 0 <= r < d
    ensures v / d == q && v % d == r
  {
    var q1, r1 := v / d, v % d;
    var dq, dq1 := d * q, d * q1;
    assert dq1 + r1 == v;
    assert d * (q - q1) == dq - dq1;
    Product(d, q - q1);
  }

  lemma HalfMod(v: nat, p: nat)
    requires p > 0
    ensures v % (2 * p) == 2 * ((v / 2) % p) + v % 2
  {
    var q, r := (v / 2) / p, (v / 2) % p;
    assert v == 2 * (q * p + r) + v % 2;
    assert v == (2 * p) * q + (2 * r + v % 2);
    Quotient(v, 2 * p, q, 2 * r + v % 2);
  }

  /** A field that holds the low digits of a value spells the value reduced to its width. */
  lemma {:induction false} FieldOfDigits(s: seq<bv8>, offset: nat, bits: nat, v: nat)
    requires offset + bits <= 8 * |s|
    requires forall i | offset <= i < offset + bits :: BitAt(s, i) == Digit(v, bits - 1 - (i - offset))
    ensures Field(s, offset, bits) == v % Pow2(bits)
    decreases bits
  {
    hide BitAt, Digit;
    if bits > 0 {
      forall i | offset <= i < offset + (bits - 1) ensures BitAt(s, i) == Digit(v / 2, bits - 2 - (i - offset)) {
        DigitUp(v, bits - 2 - (i - offset));
      }
      FieldOfDigits(s, offset, bits - 1, v / 2);
      HalfMod(v, Pow2(bits - 1));
      LastDigit(v);
      assert BitAt(s, offset + bits - 1) == Digit(v, 0);
    }
  }

  lemma LastDigit(v: nat)
    ensures Digit(v, 0) == (v % 2 == 1)
  {
    assert v / 1 == v;
  }

  lemma {:induction false} FieldAgrees(s: seq<bv8>, t: seq<bv8>, offset: nat, bits: nat)
    requires |s| == |t| && offset + bits <= 8 * |s|
    requires forall i | offset <= i < offset + bits :: BitAt(s, i) == BitAt(t, i)
    ensures Field(s, offset, bits) == Field(t, offset, bits)
    decreases bits
  {
    hide BitAt;
    if bits > 0 {
      FieldAgrees(s, t, offset, bits - 1);
    }
  }

  /** Setting a field, then reading it back and reading any field beside it. */
  method SetThenGet(p: array<bv8>, offset: nat, bits: nat, value: uint64, other: nat, width: nat)
    returns (got: nat, beside: nat)
    requires bits <= 64 && offset + bits <= 8 * p.Length && width <= 64 && other + width <= 8 * p.Length
    requires other + width <= offset || offset + bits <= other
    modifies p
    ensures got == value % Pow2(bits)
    ensures beside == Field(old(p[..]), other, width)
  {
    hide BitAt, Digit, Field;
    ghost var s := p[..];
    SetUnsignedBitfield(p, offset, bits, value);
    FieldOfDigits(p[..], offset, bits, value);
    FieldAgrees(p[..], s, other, width);
    got := GetUnsignedBitfield(p, offset, bits);
    beside := GetUnsignedBitfield(p, other, width);
  }

  // --------------------------------------------------------------------- signed fields

  /** getSignedBitfield on what getUnsignedBitfield returned, for widths 1 to 63. */
  function SignExtend(u: nat, bits: nat): int
    requires 1 <= bits
  {
    if Digit(u, bits - 1) then u - Pow2(bits) else u
  }

  predicate Fits(v: int, bits: nat)
    requires bits >= 1
  {
    0 - Pow2(bits - 1) <= v < Pow2(bits - 1)
  }

  /** Two's complement: of all numbers that agree with v modulo 2^bits, the one that fits. */
  ghost predicate Reduced(x: int, v: int, bits: nat)
    requires bits >= 1
  {
    Fits(x, bits) && (x - v) % Pow2(bits) == 0
  }

  lemma TopDigit(u: nat, bits: nat)
    requires 1 <= bits && u < Pow2(bits)
    ensures Digit(u, bits - 1) == (u >= Pow2(bits - 1))
  {
    var p := Pow2(bits - 1);
    if u >= p {
      Quotient(u, p, 1, u - p);
    } else {
      Quotient(u, p, 0, u);
    }
  }

  lemma ModOf(a: int, d: int)
    requires d > 0
    ensures (a % d - a) % d == 0
  {
    Quotient(a % d - a, d, -(a / d), 0);
  }

  lemma SignExtendReduces(v: int, u: nat, bits: nat)
    requires 1 <= bits && u < Pow2(bits) && (u - v) % Pow2(bits) == 0
    ensures Reduced(SignExtend(u, bits), v, bits)
  {
    hide Digit;
    TopDigit(u, bits);
    var d := Pow2(bits);
    var q := (u - v) / d;
    Quotient(u - d - v, d, q - 1, 0);
  }

  lemma ReducedUnique(x: int, y: int, v: int, bits: nat)
    requires bits >= 1 && Reduced(x, v, bits) && Reduced(y, v, bits)
    ensures x == y
  {
    var d := Pow2(bits);
    var a, b := (x - v) / d, (y - v) / d;
    assert x - y == d * a - d * b;
    assert d * (a - b) == d * a - d * b;
    Product(d, a - b);
  }

  lemma {:induction false} PowDivides(n: nat, m: nat, v: int)
    requires n <= m
    ensures (v % Pow2(m) - v) % Pow2(n) == 0
    decreases m - n
  {
    if n == m {
      ModOf(v, Pow2(n));
    } else {
      PowDivides(n + 1, m, v);
      var w := v % Pow2(m) - v;
      Quotient(w, Pow2(n), 2 * (w / Pow2(n + 1)), 0);
    }
  }

  /** setSignedBitfield then getSignedBitfield: the value reduced to the field, so the value
      itself exactly when it fits. */
  method SetThenGetSigned(p: array<bv8>, offset: nat, bits: nat, value: int64) returns (got: int)
    requires 1 <= bits <= 63 && offset + bits <= 8 * p.Length
    modifies p
    ensures Reduced(got, value, bits)
    ensures got == value <==> Fits(value, bits)
  {
    hide BitAt, Digit, Field, SignExtend;
    var uv: uint64 := value % UINT64;
    SetUnsignedBitfield(p, offset, bits, uv);
    FieldOfDigits(p[..], offset, bits, uv);
    var u := GetUnsignedBitfield(p, offset, bits);
    TwoPow64();
    PowDivides(bits, 64, value);
    ModOf(uv, Pow2(bits));
    SumOfMultiples(u - uv, uv - value, Pow2(bits));
    SignExtendReduces(value, u, bits);
    got := SignExtend(u, bits);
    if Fits(value, bits) {
      ReducedUnique(got, value, value, bits);
    }
  }

  lemma SumOfMultiples(a: int, b: int, d: int)
    requires d > 0 && a % d == 0 && b % d == 0
    ensures (a + b) % d == 0
  {
    var x, y := a / d, b / d;
    assert d * (x + y) == d * x + d * y;
    Quotient(a + b, d, x + y, 0);
  }

  lemma TwoPow64()
    ensures Pow2(64) == UINT64 && Pow2(63) == INT64_MAX + 1
  {
    assert Pow2(8) == 256;
    assert Pow2(16) == 65536 by { PowSum(8, 8); }
    assert Pow2(32) == 65536 * 65536 by { PowSum(16, 16); }
    PowSum(32, 32);
    assert Pow2(64) == 2 * Pow2(63);
  }

  lemma {:induction false} PowSum(a: nat, b: nat)
    ensures Pow2(a + b) == Pow2(a) * Pow2(b)
    decreases b
  {
    if b > 0 {
      PowSum(a, b - 1);
      assert Pow2(a) * (2 * Pow2(b - 1)) == 2 * (Pow2(a) * Pow2(b - 1));
    }
  }

  lemma {:induction false} PowGrows(a: nat, b: nat)
    requires a <= b
    ensures Pow2(a) <= Pow2(b)
    decreases b - a
  {
    if a < b {
      PowGrows(a, b - 1);
    }
  }

  // ------------------------------------------------------------------- overflow checks

  datatype Mode = Wrap | Sat | Fail

  /** The return value, and the limit if one is stored. */
  datatype Check = Check(code: int, limit: int)

  function ToInt64(v: int): int64 {
    var u := v % UINT64;
    if u <= INT64_MAX then u else u - UINT64
  }

  /** checkUnsignedBitfieldOverflow, for widths 1 to 63; the limit is 0 where none is stored. */
  function UnsignedOverflow(value: uint64, incr: int64, bits: nat, mode: Mode): Check
    requires 1 <= bits <= 63
  {
    var max := Pow2(bits) - 1;
    var maxincr, minincr := ToInt64(max - value), ToInt64(0 - value);
    var wrapped := ((value + incr) % UINT64) % Pow2(bits);
    if value > max || (incr > 0 && incr > maxincr) then
      (match mode case Wrap => Check(1, wrapped) case Sat => Check(1, max) case Fail => Check(1, 0))
    else if incr < 0 && incr < minincr then
      (match mode case Wrap => Check(1, wrapped) case Sat => Check(-1, 0) case Fail => Check(-1, 0))
    else Check(0, 0)
  }

  lemma InRange(v: int)
    requires INT64_MIN <= v <= INT64_MAX
    ensures ToInt64(v) == v
  {
  }

  lemma SmallPow(bits: nat)
    requires bits <= 63
    ensures Pow2(bits) <= INT64_MAX + 1
  {
    PowGrows(bits, 63);
    TwoPow64();
  }

  lemma ModIs(v: int, d: int, x: int)
    requires d > 0 && 0 <= x < d && (x - v) % d == 0
    ensures v % d == x
  {
    var q := (x - v) / d;
    var dq := d * q;
    assert x - v == dq;
    assert d * (0 - q) == 0 - dq;
    Quotient(v, d, 0 - q, x);
  }

  lemma LowBits(v: int, bits: nat)
    requires bits <= 64
    ensures (v % UINT64) % Pow2(bits) == v % Pow2(bits)
  {
    hide Pow2;
    TwoPow64();
    var d, u := Pow2(bits), v % UINT64;
    PowDivides(bits, 64, v);
    ModOf(u, d);
    SumOfMultiples(u % d - u, u - v, d);
    ModIs(v, d, u % d);
  }

  /** From a value that fits: an overflow is reported exactly when the sum leaves the field,
      and the limit is the sum modulo 2^bits, or the nearest bound. The direction is
      reported too, except that wrapping always reports an overflow. */
  lemma UnsignedExact(value: uint64, incr: int64, bits: nat, mode: Mode)
    requires 1 <= bits <= 63 && value < Pow2(bits)
    ensures var r, sum := UnsignedOverflow(value, incr, bits, mode), value + incr;
            && (r.code != 0 <==> !(0 <= sum < Pow2(bits)))
            && (r.code != 0 && mode.Wrap? ==> r == Check(1, sum % Pow2(bits)))
            && (r.code != 0 && mode.Sat? ==> r == if sum < 0 then Check(-1, 0) else Check(1, Pow2(bits) - 1))
            && (r.code != 0 && mode.Fail? ==> r.code == if sum < 0 then -1 else 1)
  {
    SmallPow(bits);
    InRange(Pow2(bits) - 1 - value);
    InRange(0 - value);
    LowBits(value + incr, bits);
  }

  /** A value that does not fit is always an overflow, whatever the increment. */
  lemma UnsignedTooBig(value: uint64, incr: int64, bits: nat, mode: Mode)
    requires 1 <= bits <= 63 && value >= Pow2(bits)
    ensures UnsignedOverflow(value, incr, bits, mode).code == 1
    ensures mode.Wrap? ==> UnsignedOverflow(value, incr, bits, mode).limit == (value + incr) % Pow2(bits)
  {
    LowBits(value + incr, bits);
  }

  /** checkSignedBitfieldOverflow; wrapping for widths up to 63. */
  function SignedOverflow(value: int64, incr: int64, bits: nat, mode: Mode): Check
    requires 1 <= bits <= 64 && (mode.Wrap? ==> bits <= 63)
  {
    var max, min := Pow2(bits - 1) - 1, 0 - Pow2(bits - 1);
    var maxincr, minincr := ToInt64(max - value), ToInt64(min - value);
    if value > max || (bits != 64 && incr > maxincr) || (value >= 0 && incr > 0 && incr > maxincr) then
      (match mode case Wrap => Check(1, WrapSigned(value, incr, bits)) case Sat => Check(1, max) case Fail => Check(1, 0))
    else if value < min || (bits != 64 && incr < minincr) || (value < 0 && incr < 0 && incr < minincr) then
      (match mode case Wrap => Check(1, WrapSigned(value, incr, bits)) case Sat => Check(-1, min) case Fail => Check(-1, 0))
    else Check(0, 0)
  }

  /** The addition on unsigned words; then the bits above the field are all set or all clear. */
  function WrapSigned(value: int64, incr: int64, bits: nat): int
    requires 1 <= bits <= 63
  {
    var c := (value + incr) % UINT64;
    if Digit(c, bits - 1) then c % Pow2(bits) - Pow2(bits) else c % Pow2(bits)
  }

  lemma {:induction false} DigitOfMod(c: nat, k: nat, bits: nat)
    requires k < bits
    ensures Digit(c % Pow2(bits), k) == Digit(c, k)
    decreases k
  {
    hide Digit;
    if k == 0 {
      LastDigit(c);
      LastDigit(c % Pow2(bits));
      HalfMod(c, Pow2(bits - 1));
    } else {
      DigitUp(c, k - 1);
      DigitUp(c % Pow2(bits), k - 1);
      HalfMod(c, Pow2(bits - 1));
      DigitOfMod(c / 2, k - 1, bits - 1);
    }
  }

  lemma WrapReduces(value: int64, incr: int64, bits: nat)
    requires 1 <= bits <= 63
    ensures Reduced(WrapSigned(value, incr, bits), value + incr, bits)
  {
    hide Digit;
    var c := (value + incr) % UINT64;
    var u := c % Pow2(bits);
    DigitOfMod(c, bits - 1, bits);
    LowBits(value + incr, bits);
    ModOf(value + incr, Pow2(bits));
    SignExtendReduces(value + incr, u, bits);
  }

  /** The signed check, from a value that fits. */
  lemma SignedExact(value: int64, incr: int64, bits: nat, mode: Mode)
    requires 1 <= bits <= 64 && (mode.Wrap? ==> bits <= 63) && Fits(value, bits)
    ensures var r, sum := SignedOverflow(value, incr, bits, mode), value + incr;
            && (r.code != 0 <==> !Fits(sum, bits))
            && (r.code != 0 && mode.Wrap? ==> r.code == 1 && Reduced(r.limit, sum, bits))
            && (r.code != 0 && mode.Sat? ==> r == if sum < 0 then Check(-1, 0 - Pow2(bits - 1)) else Check(1, Pow2(bits - 1) - 1))
            && (r.code != 0 && mode.Fail? ==> r.code == if sum < 0 then -1 else 1)
  {
    hide WrapSigned, ToInt64;
    var max, min := Pow2(bits - 1) - 1, 0 - Pow2(bits - 1);
    SmallPow(bits - 1);
    TwoPow64();
    if bits <= 63 {
      PowGrows(bits - 1, 62);
      assert Pow2(63) == 2 * Pow2(62);
      InRange(max - value);
      InRange(min - value);
      WrapReduces(value, incr, bits);
    } else if value >= 0 {
      InRange(max - value);
    } else {
      InRange(min - value);
    }
  }

  /** BITFIELD SET checks a value that need not fit, with no increment. Wrapping reduces the
      value. The other modes are right but for one case: far below the minimum the room up to
      the maximum wraps around, and the value is taken for one above it. */
  lemma SignedSet(value: int64, bits: nat, mode: Mode)
    requires 1 <= bits <= 63
    ensures var r := SignedOverflow(value, 0, bits, mode);
            && (r.code == 0 <==> Fits(value, bits))
            && (r.code != 0 && mode.Wrap? ==> r.code == 1 && Reduced(r.limit, value, bits))
            && (value >= Pow2(bits - 1) ==> r.code == 1)
            && (value < 0 - Pow2(bits - 1) && !mode.Wrap? ==> (r.code == -1 <==> Pow2(bits - 1) - 1 - value <= INT64_MAX))
  {
    hide SignedOverflow, Reduced;
    if mode.Wrap? {
      SetWraps(value, bits);
    } else {
      SetChecks(value, bits, mode);
    }
  }

  lemma SetWraps(value: int64, bits: nat)
    requires 1 <= bits <= 63
    ensures var r := SignedOverflow(value, 0, bits, Wrap);
            if Fits(value, bits) then r.code == 0 else r.code == 1 && Reduced(r.limit, value, bits)
  {
    hide WrapSigned, ToInt64;
    SmallPow(bits - 1);
    TwoPow64();
    PowGrows(bits - 1, 62);
    assert Pow2(63) == 2 * Pow2(62);
    WrapReduces(value, 0, bits);
    assert value + 0 == value;
    var max, min := Pow2(bits - 1) - 1, 0 - Pow2(bits - 1);
    if min <= value <= max {
      InRange(max - value);
      InRange(min - value);
    }
  }

  lemma SetChecks(value: int64, bits: nat, mode: Mode)
    requires 1 <= bits <= 63 && !mode.Wrap?
    ensures var r := SignedOverflow(value, 0, bits, mode);
            && (r.code == 0 <==> Fits(value, bits))
            && (value >= Pow2(bits - 1) ==> r.code == 1)
            && (value < 0 - Pow2(bits - 1) ==> (r.code == -1 <==> Pow2(bits - 1) - 1 - value <= INT64_MAX))
  {
    SmallPow(bits - 1);
    TwoPow64();
    PowGrows(bits - 1, 62);
    assert Pow2(63) == 2 * Pow2(62);
    var max, min := Pow2(bits - 1) - 1, 0 - Pow2(bits - 1);
    if max - value <= INT64_MAX {
      InRange(max - value);
    }
    if min <= value <= max {
      InRange(min - value);
    }
  }

  /** The smallest number, set in a saturating field of eight bits, becomes the largest. */
  lemma SaturatesTheWrongWay()
    ensures SignedOverflow(INT64_MIN, 0, 8, Sat) == Check(1, 127)
  {
    assert Pow2(7) == 128;
    assert ToInt64(127 - INT64_MIN) < 0;
  }
}
