/**
 The text of the append only file: decimal numbers, lines, and commands as arrays of
 binary-safe strings, printed by catAppendOnlyGenericCommand and read back by the
 loader. A file is a string; any character may occur in an argument.
 */
module AofFormat {
  import opened Strings

  // -------------------------------------------------------------------- decimals

  function Digit(d: nat): char
    requires d < 10
  {
    ['0', '1', '2', '3', '4', '5', '6', '7', '8', '9'][d]
  }

  predicate IsDigit(c: char) {
    '0' <= c <= '9'
  }

  function DigitValue(c: char): (d: nat)
    requires IsDigit(c)
    ensures d < 10
  {
    c as int - '0' as int
  }

  /** ll2string for a length or a count. */
  function Dec(n: nat): (s: string)
    ensures s != [] && forall i | 0 <= i < |s| :: IsDigit(s[i])
  {
    if n < 10 then [Digit(n)] else Dec(n / 10) + [Digit(n % 10)]
  }

  function ParseDigits(s: string, acc: nat): nat {
    if s != [] && IsDigit(s[0]) then ParseDigits(s[1..], acc * 10 + DigitValue(s[0])) else acc
  }

  /** strtol in base 10: blanks, a sign, digits; whatever follows is ignored. */
  function Atoi(s: string): int {
    if s != [] && IsSpace(s[0]) then Atoi(s[1..])
    else if s != [] && s[0] == '-' then -(ParseDigits(s[1..], 0) as int)
    else if s != [] && s[0] == '+' then ParseDigits(s[1..], 0)
    else ParseDigits(s, 0)
  }

  function Pow10(k: nat): nat {
    if k == 0 then 1 else 10 * Pow10(k - 1)
  }

  lemma {:induction false} DecLength(n: nat, k: nat)
    requires n < Pow10(k) && k > 0
    ensures |Dec(n)| <= k
  {
    if n >= 10 { DecLength(n / 10, k - 1); }
  }

  lemma NineteenDigits()
    ensures Pow10(19) == 10_000_000_000_000_000_000
  {
    assert Pow10(2) == 100;
    assert Pow10(4) == 10_000;
    assert Pow10(6) == 1_000_000;
    assert Pow10(8) == 100_000_000;
    assert Pow10(10) == 10_000_000_000;
    assert Pow10(12) == 1_000_000_000_000;
    assert Pow10(14) == 100_000_000_000_000;
    assert Pow10(16) == 10_000_000_000_000_000;
    assert Pow10(18) == 1_000_000_000_000_000_000;
  }

  lemma DigitsMatch(d: nat)
    requires d < 10
    ensures IsDigit(Digit(d)) && DigitValue(Digit(d)) == d
  {
  }

  lemma {:induction false} ParseDec(n: nat, rest: string)
    ensures ParseDigits(Dec(n) + rest, 0) == ParseDigits(rest, n)
  {
    DigitsMatch(n % 10);
    var d := [Digit(n % 10)];
    if n < 10 {
      assert (Dec(n) + rest)[1..] == rest;
    } else {
      ParseDec(n / 10, d + rest);
      assert Dec(n) + rest == Dec(n / 10) + (d + rest);
      assert (d + rest)[1..] == rest;
    }
  }

  /** Reading back a printed number, whatever follows its last digit. */
  lemma AtoiDec(n: nat, rest: string)
    requires rest != [] ==> !IsDigit(rest[0])
    ensures Atoi(Dec(n) + rest) == n
  {
    ParseDec(n, rest);
    assert (Dec(n) + rest)[0] == Dec(n)[0];
  }

  lemma {:induction false} ParseGrows(s: string, acc: nat)
    requires forall i | 0 <= i < |s| :: IsDigit(s[i])
    ensures ParseDigits(s, acc) >= acc
  {
    if s != [] { ParseGrows(s[1..], acc * 10 + DigitValue(s[0])); }
  }

  lemma {:induction false} DecLeads(n: nat)
    requires n > 0
    ensures Dec(n)[0] != '0'
  {
    if n >= 10 { DecLeads(n / 10); }
  }

  /** A cut number still reads as a positive one. */
  lemma AtoiCutDec(n: nat, k: nat)
    requires n > 0 && 0 < k <= |Dec(n)|
    ensures Atoi(Dec(n)[..k]) >= 1
  {
    var s := Dec(n)[..k];
    DecLeads(n);
    assert s[0] == Dec(n)[0];
    ParseGrows(s[1..], DigitValue(s[0]));
  }

  // ----------------------------------------------------------------------- lines

  /** How much of `s` fgets takes: through the first newline, but at most `limit` characters. */
  function LineLength(s: string, limit: nat): (k: nat)
    ensures k <= |s| && k <= limit
    ensures s != [] && limit > 0 ==> k > 0
    decreases limit
  {
    if s == [] || limit == 0 then 0
    else if s[0] == '\n' then 1
    else 1 + LineLength(s[1..], limit - 1)
  }

  lemma {:induction false} LineEnds(line: string, rest: string, limit: nat)
    requires |line| < limit && '\n' !in line
    ensures LineLength(line + "\n" + rest, limit) == |line| + 1
    decreases |line|
  {
    var s := line + "\n" + rest;
    if line != [] {
      assert s[0] == line[0] && s[1..] == line[1..] + "\n" + rest;
      assert forall c | c in line[1..] :: c in line;
      LineEnds(line[1..], rest, limit - 1);
    }
  }

  lemma {:induction false} LineCut(s: string, limit: nat)
    requires |s| <= limit && '\n' !in s
    ensures LineLength(s, limit) == |s|
  {
    if s != [] {
      assert forall c | c in s[1..] :: c in s;
      LineCut(s[1..], limit - 1);
    }
  }

  // -------------------------------------------------------------------- commands

  type Argv = seq<string>

  const CRLF := "\r\n"

  function Bulk(a: string): string {
    "$" + Dec(|a|) + CRLF + a + CRLF
  }

  function Bulks(argv: Argv): string {
    if argv == [] then "" else Bulk(argv[0]) + Bulks(argv[1..])
  }

  /** One command as the file holds it. */
  function Print(argv: Argv): string {
    "*" + Dec(|argv|) + CRLF + Bulks(argv)
  }

  /** A whole log. */
  function PrintAll(log: seq<Argv>): string {
    if log == [] then "" else Print(log[0]) + PrintAll(log[1..])
  }

  lemma {:induction false} PrintAllConcat(a: seq<Argv>, b: seq<Argv>)
    ensures PrintAll(a + b) == PrintAll(a) + PrintAll(b)
  {
    if a == [] {
      assert a + b == b;
    } else {
      assert (a + b)[1..] == a[1..] + b;
      PrintAllConcat(a[1..], b);
      assert Print(a[0]) + (PrintAll(a[1..]) + PrintAll(b)) == PrintAll(a) + PrintAll(b);
    }
  }

  lemma {:induction false} BulksAppend(argv: Argv, a: string)
    ensures Bulks(argv + [a]) == Bulks(argv) + Bulk(a)
  {
    if argv == [] {
      assert argv + [a] == [a] && [a][1..] == [];
      assert Bulks([a]) == Bulk(a) + "";
    } else {
      assert (argv + [a])[1..] == argv[1..] + [a];
      BulksAppend(argv[1..], a);
      assert Bulk(argv[0]) + (Bulks(argv[1..]) + Bulk(a)) == Bulks(argv) + Bulk(a);
    }
  }

  /** How the file looks. */
  lemma PrintedText()
    ensures Print(["DEL", "k"]) == "*2\r\n$3\r\nDEL\r\n$1\r\nk\r\n"
  {
    hide Bulk;
    var argv := ["DEL", "k"];
    assert argv[1..] == ["k"] && ["k"][1..] == [];
    assert Bulks(["k"]) == Bulk("k") + "";
    BulkText();
    assert Dec(2) == "2";
  }

  lemma BulkText()
    ensures Bulk("DEL") == "$3\r\nDEL\r\n" && Bulk("k") == "$1\r\nk\r\n"
  {
    assert Dec(3) == "3" && Dec(1) == "1";
  }

  /** catAppendOnlyGenericCommand: append the command to `dst`. */
  method CatGenericCommand(dst: string, argv: Argv) returns (r: string)
    ensures r == dst + Print(argv)
  {
    hide Dec, Bulks;
    r := dst + "*" + Dec(|argv|) + CRLF;
    ghost var head := "*" + Dec(|argv|) + CRLF;
    var j := 0;
    assert argv[..0] == [];
    NoBulks();
    assert r == dst + (head + Bulks(argv[..0]));
    while j < |argv|
      invariant 0 <= j <= |argv|
      invariant r == dst + (head + Bulks(argv[..j]))
    {
      r := r + "$" + Dec(|argv[j]|) + CRLF;
      r := r + argv[j];
      r := r + CRLF;
      BulksAppend(argv[..j], argv[j]);
      assert argv[..j + 1] == argv[..j] + [argv[j]];
      assert r == dst + (head + (Bulks(argv[..j]) + Bulk(argv[j])));
      j := j + 1;
    }
    assert argv[..j] == argv;
  }

  lemma NoBulks()
    ensures Bulks([]) == ""
  {
  }

  /** What C can count and size: an int of arguments, each within a signed long. */
  predicate Printable(argv: Argv) {
    1 <= |argv| < 0x8000_0000 && forall i | 0 <= i < |argv| :: |argv[i]| < 0x8000_0000_0000_0000
  }
}
