/**
 A user as one line of text: the rules joined by blanks, as ACLDescribeUser returns them, and
 sdssplitargs, with which ACL LOAD takes the line apart again.
 */
module AclText {
  import opened Wrappers
  import opened Strings
  import opened Acl
  import R = AclRoundTrip

  // --------------------------------------------------------------------------- splitting

  /** What ends a word outside quotes, besides the end of the line. */
  predicate IsBlank(c: char) {
    c == ' ' || c == '\n' || c == '\r' || c == '\t'
  }

  predicate IsHex(c: char) {
    '0' <= c <= '9' || 'a' <= c <= 'f' || 'A' <= c <= 'F'
  }

  function HexDigit(c: char): (d: nat)
    ensures d < 16
  {
    if '0' <= c <= '9' then c as int - '0' as int
    else if 'a' <= c <= 'f' then c as int - 'a' as int + 10
    else if 'A' <= c <= 'F' then c as int - 'A' as int + 10
    else 0
  }

  function Escaped(c: char): char {
    match c
    case 'n' => '\n'
    case 'r' => '\r'
    case 't' => '\t'
    case 'b' => 8 as char
    case 'a' => 7 as char
    case _ => c
  }

  datatype Quotes = Outside | Double | Single

  /** The end of the C string. */
  predicate AtEnd(s: string) {
    s == [] || s[0] == '\0'
  }

  /** The inner loop of sdssplitargs: the word, and what is left of the line behind it. */
  function Word(s: string, quotes: Quotes, current: string): (r: Option<(string, string)>)
    ensures r.Some? ==> |r.value.1| <= |s| && (!AtEnd(s) ==> |r.value.1| < |s|)
    decreases |s|
  {
    if AtEnd(s) then if quotes.Outside? then Some((current, s)) else None
    else
      match quotes
      case Outside =>
        if IsBlank(s[0]) then Some((current, s[1..]))
        else if s[0] == '"' then Word(s[1..], Double, current)
        else if s[0] == '\'' then Word(s[1..], Single, current)
        else Word(s[1..], Outside, current + [s[0]])
      case Double =>
        if s[0] == '\\' && |s| > 3 && s[1] == 'x' && IsHex(s[2]) && IsHex(s[3]) then
          Word(s[4..], Double, current + [(HexDigit(s[2]) * 16 + HexDigit(s[3])) as char])
        else if s[0] == '\\' && !AtEnd(s[1..]) then Word(s[2..], Double, current + [Escaped(s[1])])
        else if s[0] == '"' then Closed(s[1..], current)
        else Word(s[1..], Double, current + [s[0]])
      case Single =>
        if s[0] == '\\' && |s| > 1 && s[1] == '\'' then Word(s[2..], Single, current + ['\''])
        else if s[0] == '\'' then Closed(s[1..], current)
        else Word(s[1..], Single, current + [s[0]])
  }

  /** A closing quote must be followed by a blank or by nothing. */
  function Closed(rest: string, current: string): Option<(string, string)> {
    if !AtEnd(rest) && !IsSpace(rest[0]) then None else Some((current, rest))
  }

  function SkipSpace(s: string): (r: string)
    ensures |r| <= |s| && (r != [] ==> !IsSpace(r[0]))
  {
    if s != [] && IsSpace(s[0]) then SkipSpace(s[1..]) else s
  }

  /** sdssplitargs: the words of a line, or nothing if its quotes do not match. */
  function SplitArgs(s: string): Option<seq<string>>
    decreases |s|
  {
    var p := SkipSpace(s);
    if AtEnd(p) then Some([])
    else
      match Word(p, Outside, "")
      case None => None
      case Some(w) =>
        match SplitArgs(w.1)
        case None => None
        case Some(words) => Some([w.0] + words)
  }

  // ----------------------------------------------------------------------------- joining

  function Joined(texts: seq<string>): string {
    if texts == [] then "" else if |texts| == 1 then texts[0] else texts[0] + " " + Joined(texts[1..])
  }

  predicate Special(c: char) {
    IsBlank(c) || c == '\0' || c == '"' || c == '\''
  }

  /** No blank, no quote and no NUL. */
  predicate Clean(text: string) {
    forall i | 0 <= i < |text| :: !Special(text[i])
  }

  predicate AllClean(texts: seq<string>) {
    forall i | 0 <= i < |texts| :: Clean(texts[i])
  }

  predicate Starts(texts: seq<string>) {
    forall i | 0 <= i < |texts| :: texts[i] != [] && !IsSpace(texts[i][0])
  }

  /** Every word with the blank behind it. */
  function Weight(texts: seq<string>): nat {
    if texts == [] then 0 else |texts[0]| + 1 + Weight(texts[1..])
  }

  lemma {:induction false} JoinedLength(texts: seq<string>)
    requires texts != []
    ensures |Joined(texts)| + 1 == Weight(texts)
    decreases |texts|
  {
    if |texts| > 1 {
      JoinedLength(texts[1..]);
    }
  }

  // ---------------------------------------------------------------- what a word costs

  lemma {:induction false} PlainPart(a: string, b: string, current: string)
    requires Clean(a)
    ensures Word(a + b, Outside, current) == Word(b, Outside, current + a)
    decreases |a|
  {
    hide Closed;
    if a == [] {
      assert a + b == b && current + a == current;
    } else {
      assert (a + b)[0] == a[0] && (a + b)[1..] == a[1..] + b;
      PlainPart(a[1..], b, current + [a[0]]);
      assert current + [a[0]] + a[1..] == current + a;
    }
  }

  /** Inside quotes: the closing quote is read and gives nothing. */
  lemma {:induction false} QuoteCosts(s: string, quotes: Quotes, current: string)
    requires !quotes.Outside?
    ensures var r := Word(s, quotes, current); r.Some? ==> |r.value.0| + |r.value.1| < |current| + |s|
    decreases |s|
  {
    hide Escaped, HexDigit;
    if !AtEnd(s) {
      if quotes.Double? {
        if s[0] == '\\' && |s| > 3 && s[1] == 'x' && IsHex(s[2]) && IsHex(s[3]) {
          QuoteCosts(s[4..], Double, current + [(HexDigit(s[2]) * 16 + HexDigit(s[3])) as char]);
        } else if s[0] == '\\' && !AtEnd(s[1..]) {
          QuoteCosts(s[2..], Double, current + [Escaped(s[1])]);
        } else if s[0] != '"' {
          QuoteCosts(s[1..], Double, current + [s[0]]);
        }
      } else {
        if s[0] == '\\' && |s| > 1 && s[1] == '\'' {
          QuoteCosts(s[2..], Single, current + ['\'']);
        } else if s[0] != '\'' {
          QuoteCosts(s[1..], Single, current + [s[0]]);
        }
      }
    }
  }

  /** No character comes from nowhere, and a word that is not the last took a blank or quotes. */
  lemma {:induction false} WordCosts(s: string, current: string)
    ensures var r := Word(s, Outside, current);
            r.Some? ==> |r.value.0| + |r.value.1| <= |current| + |s|
                        && (|r.value.0| + |r.value.1| == |current| + |s| ==> AtEnd(r.value.1))
    decreases |s|
  {
    if !AtEnd(s) && !IsBlank(s[0]) {
      if s[0] == '"' {
        QuoteCosts(s[1..], Double, current);
      } else if s[0] == '\'' {
        QuoteCosts(s[1..], Single, current);
      } else {
        WordCosts(s[1..], current + [s[0]]);
      }
    }
  }

  lemma NoWords(s: string)
    requires AtEnd(s)
    ensures SplitArgs(s) == Some([])
  {
  }

  lemma {:induction false} SplitCosts(s: string)
    ensures SplitArgs(s).Some? ==> Weight(SplitArgs(s).value) <= |s| + 1
    decreases |s|
  {
    hide Word;
    var p := SkipSpace(s);
    if !AtEnd(p) && Word(p, Outside, "").Some? {
      var w := Word(p, Outside, "").value;
      WordCosts(p, "");
      SplitCosts(w.1);
      if SplitArgs(w.1).Some? {
        var words := SplitArgs(w.1).value;
        assert ([w.0] + words)[1..] == words;
        if AtEnd(w.1) {
          NoWords(w.1);
        }
      }
    }
  }

  /** A word in quotes makes the line too short for the words it gives. */
  lemma QuotedFirst(a: string, b: string)
    requires Clean(a) && b != [] && (b[0] == '"' || b[0] == '\'')
    requires a + b != [] && !IsSpace((a + b)[0])
    ensures SplitArgs(a + b).Some? ==> Weight(SplitArgs(a + b).value) <= |a + b|
  {
    hide Word;
    var s := a + b;
    assert SkipSpace(s) == s && !AtEnd(s) by { if a != [] { assert s[0] == a[0]; } }
    PlainPart(a, b, "");
    assert "" + a == a;
    var quotes := if b[0] == '"' then Double else Single;
    assert Word(b, Outside, a) == Word(b[1..], quotes, a) by { OpenQuote(b, a); }
    QuoteCosts(b[1..], quotes, a);
    if SplitArgs(s).Some? {
      var w := Word(s, Outside, "").value;
      SplitCosts(w.1);
      var words := SplitArgs(w.1).value;
      assert ([w.0] + words)[1..] == words;
    }
  }

  lemma OpenQuote(b: string, current: string)
    requires b != [] && (b[0] == '"' || b[0] == '\'')
    ensures Word(b, Outside, current) == Word(b[1..], if b[0] == '"' then Double else Single, current)
  {
  }

  // ------------------------------------------------------------------------ both ways

  lemma OneWord(a: string, b: string)
    requires Clean(a) && a != [] && !IsSpace(a[0]) && (b != [] ==> b[0] == ' ')
    ensures SplitArgs(a + b) == (var more := SplitArgs(if b == [] then [] else b[1..]);
                                 if more.None? then None else Some([a] + more.value))
  {
    var s := a + b;
    assert s[0] == a[0] && SkipSpace(s) == s && !AtEnd(s);
    PlainPart(a, b, "");
    assert "" + a == a;
  }

  lemma {:induction false} CleanSplits(texts: seq<string>)
    requires Starts(texts) && AllClean(texts)
    ensures SplitArgs(Joined(texts)) == Some(texts)
    decreases |texts|
  {
    hide SplitArgs, Clean;
    if texts == [] {
      NoWords("");
    } else if |texts| == 1 {
      assert Joined(texts) == texts[0] + "";
      OneWord(texts[0], "");
      NoWords("");
      assert [texts[0]] + [] == texts;
    } else {
      var b := " " + Joined(texts[1..]);
      assert Joined(texts) == texts[0] + b && b[1..] == Joined(texts[1..]);
      OneWord(texts[0], b);
      CleanSplits(texts[1..]);
      assert [texts[0]] + texts[1..] == texts;
    }
  }

  lemma FirstSpecial(text: string) returns (p: nat)
    requires !Clean(text)
    ensures p < |text| && Special(text[p]) && Clean(text[..p])
  {
    p := 0;
    while !Special(text[p])
      invariant p < |text| && Clean(text[..p])
      invariant exists i | p <= i < |text| :: Special(text[i])
      decreases |text| - p
    {
      p := p + 1;
    }
  }

  /** A first text that is cut by a blank or the end of the C string, or eaten by a quote. */
  lemma DirtyFirst(text: string, b: string, texts: seq<string>)
    requires !Clean(text) && text != [] && !IsSpace(text[0]) && texts != [] && texts[0] == text
    requires Weight(texts) == |text + b| + 1
    ensures SplitArgs(text + b) != Some(texts)
  {
    hide Word, Weight, Clean;
    var p := FirstSpecial(text);
    var a, rest := text[..p], text[p..] + b;
    assert text + b == a + rest && rest[0] == text[p];
    if text[p] == '"' || text[p] == '\'' {
      QuotedFirst(a, rest);
    } else {
      CutWord(a, rest);
    }
  }

  lemma CutWord(a: string, rest: string)
    requires Clean(a) && rest != [] && (IsBlank(rest[0]) || rest[0] == '\0')
    requires !IsSpace((a + rest)[0])
    ensures var r := SplitArgs(a + rest); r.Some? && r.value != [] ==> r.value[0] == a
  {
    var s := a + rest;
    assert SkipSpace(s) == s;
    PlainPart(a, rest, "");
    assert "" + a == a;
  }

  lemma {:induction false} SplitsOnlyClean(texts: seq<string>)
    requires Starts(texts) && !AllClean(texts)
    ensures SplitArgs(Joined(texts)) != Some(texts)
    decreases |texts|
  {
    hide SplitArgs, Clean;
    JoinedLength(texts);
    var b := if |texts| == 1 then "" else " " + Joined(texts[1..]);
    assert Joined(texts) == texts[0] + b;
    if !Clean(texts[0]) {
      DirtyFirst(texts[0], b, texts);
    } else {
      OneWord(texts[0], b);
      var i :| 0 <= i < |texts| && !Clean(texts[i]);
      assert texts[1..][i - 1] == texts[i];
      SplitsOnlyClean(texts[1..]);
      assert b[1..] == Joined(texts[1..]);
      if SplitArgs(b[1..]).Some? {
        assert ([texts[0]] + SplitArgs(b[1..]).value)[1..] == SplitArgs(b[1..]).value;
      }
    }
  }

  /** Splitting undoes joining exactly when no text holds a blank, a quote or a NUL. */
  lemma SplitUndoesJoin(texts: seq<string>)
    requires Starts(texts)
    ensures SplitArgs(Joined(texts)) == Some(texts) <==> AllClean(texts)
  {
    hide SplitArgs, Joined, Clean;
    if AllClean(texts) {
      CleanSplits(texts);
    } else {
      SplitsOnlyClean(texts);
    }
  }

  // ------------------------------------------------------------------ a user in one line

  lemma TextStarts(rule: Rule)
    requires R.Printable(rule)
    ensures Text(rule) != [] && !IsSpace(Text(rule)[0])
  {
    hide CString, IsHash, ValidName, R.IsCategory;
  }

  lemma {:induction false} TextsStart(rules: seq<Rule>)
    requires R.AllPrintable(rules)
    ensures Starts(Texts(rules))
    decreases |rules|
  {
    hide Text, R.Printable, IsSpace;
    if rules != [] {
      TextStarts(rules[0]);
      TextsStart(rules[1..]);
    }
  }

  /** Whatever rules made a user, the line that describes it splits into the rules it was
      joined from exactly when none of them holds a blank, a quote or a NUL; then applying
      them to a fresh user rebuilds it. */
  lemma LineRebuilds(t: Table, hash: Hash, ops: seq<string>)
    requires ValidTable(t) && R.GoodHash(hash) && SetAll(t, hash, NEW_USER, ops).Ok?
    ensures var u := SetAll(t, hash, NEW_USER, ops).user;
            var texts := Texts(Describe(t, u));
            var split := SplitArgs(Joined(texts));
            && (split == Some(texts) <==> AllClean(texts))
            && (AllClean(texts) ==> SetAll(t, hash, NEW_USER, split.value) == Ok(R.Normal(u)))
  {
    hide SetUser, Describe, Texts, Joined, SplitArgs, R.Normal, AllClean, Starts;
    R.FreshIsGood(t);
    R.SetAllKeeps(t, hash, NEW_USER, ops);
    var u := SetAll(t, hash, NEW_USER, ops).user;
    R.DescriptionApplies(t, hash, u);
    TextsStart(Describe(t, u));
    SplitUndoesJoin(Texts(Describe(t, u)));
    R.DescriptionRebuilds(t, hash, ops);
  }

  const PATTERN := "a +@all"

  /** A pattern that ACL SETUSER accepts and that the line does not bring back. */
  lemma PatternLost(t: Table, hash: Hash)
    requires ValidTable(t) && R.GoodHash(hash)
    ensures var u := SetAll(t, hash, NEW_USER, ["~" + PATTERN]);
            && u == Ok(NEW_USER.(patterns := [PATTERN]))
            && var texts := Texts(Describe(t, u.user)); SplitArgs(Joined(texts)) != Some(texts)
  {
    hide SplitArgs, Joined, DescribeCommands, SetUser, Parse, R.GoodHash, ValidTable;
    OnePattern(t, hash, PATTERN);
    LineRebuilds(t, hash, ["~" + PATTERN]);
    var u := NEW_USER.(patterns := [PATTERN]);
    var texts := Texts(Describe(t, u));
    SecondText(t, u, PATTERN);
    assert Special(texts[1][2]);
  }

  lemma SecondText(t: Table, u: User, p: string)
    requires u == NEW_USER.(patterns := [p])
    ensures |Texts(Describe(t, u))| > 1 && Texts(Describe(t, u))[1] == "~" + p
  {
    hide DescribeCommands;
    assert [p][1..] == [];
    assert PatternRules([p]) == [AddPattern(p)];
    var rules := Describe(t, u);
    assert rules == [Off, AddPattern(p)] + DescribeCommands(t, u);
    assert rules[1..] == [AddPattern(p)] + DescribeCommands(t, u);
    assert Texts(rules[1..])[0] == "~" + p;
  }

  /** What follows the blank comes back as a rule of its own. */
  lemma PatternFallsApart()
    ensures SplitArgs(Joined(["off", "~" + PATTERN, "-@all"])) == Some(["off", "~a", "+@all", "-@all"])
  {
    hide SplitArgs, Joined;
    var words := ["off", "~a", "+@all", "-@all"];
    JoinFour(words[0], words[1], words[2], words[3]);
    JoinThree("off", "~" + PATTERN, "-@all");
    assert "~a" + " " + ("+@all" + " " + "-@all") == "~" + PATTERN + " " + "-@all";
    SplitUndoesJoin(words);
  }

  lemma JoinThree(a: string, b: string, c: string)
    ensures Joined([a, b, c]) == a + " " + (b + " " + c)
  {
    assert [a, b, c][1..] == [b, c] && [b, c][1..] == [c];
    assert Joined([b, c]) == b + " " + c;
  }

  lemma JoinFour(a: string, b: string, c: string, d: string)
    ensures Joined([a, b, c, d]) == a + " " + (b + " " + (c + " " + d))
  {
    assert [a, b, c, d][1..] == [b, c, d];
    JoinThree(b, c, d);
  }

  lemma OnePattern(t: Table, hash: Hash, p: string)
    requires '\0' !in p && p != "*"
    ensures SetAll(t, hash, NEW_USER, ["~" + p]) == Ok(NEW_USER.(patterns := [p]))
  {
    hide SetUser, Parse;
    var rules := [AddPattern(p)];
    assert rules[1..] == [];
    assert Texts(rules) == ["~" + p];
    R.ReadBack(t, hash, NEW_USER, rules);
    assert NEW_USER.patterns + [p] == [p];
    assert ApplyAll(t, hash, NEW_USER, rules) == Ok(NEW_USER.(patterns := [p]));
  }

  // ------------------------------------------------------------------------- the loops

  function Spaced(texts: seq<string>): string {
    if texts == [] then "" else texts[0] + " " + Spaced(texts[1..])
  }

  lemma {:induction false} SpacedIs(texts: seq<string>)
    requires texts != []
    ensures Spaced(texts) == Joined(texts) + " "
    decreases |texts|
  {
    if |texts| > 1 {
      SpacedIs(texts[1..]);
      assert texts[0] + " " + (Joined(texts[1..]) + " ") == texts[0] + " " + Joined(texts[1..]) + " ";
    }
  }

  /** Every text and a blank, and the last blank trimmed. */
  method JoinTexts(texts: seq<string>) returns (line: string)
    ensures line == Joined(texts)
  {
    hide Joined;
    line := "";
    assert texts[0..] == texts;
    for i := 0 to |texts|
      invariant line + Spaced(texts[i..]) == Spaced(texts)
    {
      assert texts[i..][0] == texts[i] && texts[i..][1..] == texts[i + 1..];
      line := line + texts[i] + " ";
    }
    assert line + "" == line && texts[|texts|..] == [];
    if texts == [] {
      NothingJoined();
    } else {
      SpacedIs(texts);
      line := line[..|line| - 1];
    }
  }

  lemma NothingJoined()
    ensures Joined([]) == ""
  {
  }

  /** sdssplitargs with its flags for the quotes: the outer loop over the words, the inner one
      over the characters of a word. */
  method SplitLine(line: string) returns (vector: Option<seq<string>>)
    ensures vector == SplitArgs(line)
  {
    hide Word;
    var p, words := line, [];
    assert SplitArgs(line).Some? ==> words + SplitArgs(line).value == SplitArgs(line).value;
    while true
      invariant SplitArgs(line) == (var more := SplitArgs(p); if more.None? then None else Some(words + more.value))
      decreases |p|
    {
      ghost var before := p;
      p := SkipBlanks(p);
      if AtEnd(p) {
        assert words + [] == words;
        return Some(words);
      }
      var w := ReadWord(p);
      if w.None? {
        return None;
      }
      ghost var more := SplitArgs(w.value.1);
      if more.Some? {
        assert words + ([w.value.0] + more.value) == words + [w.value.0] + more.value;
      }
      words := words + [w.value.0];
      p := w.value.1;
    }
  }

  method SkipBlanks(s: string) returns (p: string)
    ensures p == SkipSpace(s)
  {
    p := s;
    while p != [] && IsSpace(p[0])
      invariant SkipSpace(p) == SkipSpace(s)
      decreases |p|
    {
      p := p[1..];
    }
  }

  method ReadWord(s: string) returns (r: Option<(string, string)>)
    ensures r == Word(s, Outside, "")
  {
    hide Escaped, HexDigit;
    var p, current, inq, insq := s, "", false, false;
    while !AtEnd(p)
      invariant !(inq && insq)
      invariant Word(p, if inq then Double else if insq then Single else Outside, current) == Word(s, Outside, "")
      decreases |p|
    {
      if inq {
        if p[0] == '\\' && |p| > 3 && p[1] == 'x' && IsHex(p[2]) && IsHex(p[3]) {
          current := current + [(HexDigit(p[2]) * 16 + HexDigit(p[3])) as char];
          p := p[3..];
        } else if p[0] == '\\' && !AtEnd(p[1..]) {
          p := p[1..];
          current := current + [Escaped(p[0])];
        } else if p[0] == '"' {
          return Closed(p[1..], current);
        } else {
          current := current + [p[0]];
        }
      } else if insq {
        if p[0] == '\\' && |p| > 1 && p[1] == '\'' {
          p := p[1..];
          current := current + ['\''];
        } else if p[0] == '\'' {
          return Closed(p[1..], current);
        } else {
          current := current + [p[0]];
        }
      } else if IsBlank(p[0]) {
        return Some((current, p[1..]));
      } else if p[0] == '"' {
        inq := true;
      } else if p[0] == '\'' {
        insq := true;
      } else {
        current := current + [p[0]];
      }
      p := p[1..];
    }
    return if inq || insq then None else Some((current, p));
  }
}
