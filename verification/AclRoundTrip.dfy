/**
 What ACLSetUser keeps over every sequence of rules, and the round trip: the rules
 ACLDescribeUser prints rebuild the user they describe.
 */
module AclRoundTrip {
  import opened Wrappers
  import opened Strings
  import opened Acl

  // ------------------------------------------------------------------ the invariant

  predicate Distinct(s: seq<string>) {
    forall i, j | 0 <= i < j < |s| :: s[i] != s[j]
  }

  predicate DistinctNoCase(s: seq<string>) {
    forall i, j | 0 <= i < j < |s| :: !EqualNoCase(s[i], s[j])
  }

  predicate HasId(t: Table, id: nat) {
    exists k | 0 <= k < |t| :: t[k].id == id
  }

  predicate GoodPasswords(u: User) {
    && Distinct(u.passwords)
    && (forall i | 0 <= i < |u.passwords| :: IsHash(u.passwords[i]))
    && (u.nopass ==> u.passwords == [])
  }

  predicate GoodPatterns(u: User) {
    && Distinct(u.patterns)
    && (forall i | 0 <= i < |u.patterns| :: CString(u.patterns[i]) != "*")
    && (u.allkeys ==> u.patterns == [])
  }

  predicate GoodBits(t: Table, u: User) {
    && u.bits <= AllBits()
    && (u.allcommands ==> u.bits == AllBits())
    && (forall i | i in AllBits() && !HasId(t, i) :: i in u.bits <==> FUTURE in u.bits)
  }

  predicate GoodSubs(subs: seq<string>) {
    && subs != []
    && DistinctNoCase(subs)
    && forall i | 0 <= i < |subs| :: subs[i] != [] && '\0' !in subs[i]
  }

  predicate GoodSubcommands(t: Table, u: User) {
    forall id | id in u.subcommands :: HasId(t, id) && id !in u.bits && GoodSubs(u.subcommands[id])
  }

  predicate Good(t: Table, u: User) {
    && u.enabled != u.disabled
    && GoodPasswords(u)
    && GoodPatterns(u)
    && GoodBits(t, u)
    && GoodSubcommands(t, u)
  }

  ghost predicate GoodHash(hash: Hash) {
    forall p :: IsHash(hash(p))
  }

  lemma IdIsIn(t: Table, name: string)
    requires Knows(t, name)
    ensures HasId(t, IdOf(t, name))
  {
  }

  lemma IdBelow(t: Table, id: nat)
    requires ValidTable(t) && HasId(t, id)
    ensures id < FUTURE
  {
  }

  lemma CategoryIds(t: Table, category: string)
    ensures forall id | id in IdsIn(t, category) :: HasId(t, id)
  {
  }

  /** Setting or clearing the bits of commands in the table, dropping their subcommands. */
  lemma TouchKeeps(t: Table, u: User, ids: set<nat>, on: bool, v: User)
    requires ValidTable(t) && GoodBits(t, u) && GoodSubcommands(t, u)
    requires forall id | id in ids :: HasId(t, id)
    requires v.bits == (if on then u.bits + ids else u.bits - ids)
    requires v.allcommands == (u.allcommands && (on || ids == {}))
    requires v.subcommands == u.subcommands - ids
    ensures GoodBits(t, v) && GoodSubcommands(t, v)
  {
    forall id | id in ids ensures id < FUTURE {
      IdBelow(t, id);
    }
    if v.allcommands {
      assert v.bits == AllBits();
    }
  }

  lemma MoreSubs(subs: seq<string>, sub: string)
    requires subs == [] || GoodSubs(subs)
    requires sub != [] && '\0' !in sub && !Lists(subs, sub)
    ensures GoodSubs(subs + [sub])
  {
    hide EqualNoCase;
    var all := subs + [sub];
    forall i, j | 0 <= i < j < |all| ensures !EqualNoCase(all[i], all[j]) {
      if j == |subs| {
        assert all[i] == subs[i] && all[j] == sub;
      }
    }
  }

  lemma AddSubKeeps(t: Table, u: User, id: nat, sub: string)
    requires ValidTable(t) && GoodBits(t, u) && GoodSubcommands(t, u)
    requires HasId(t, id) && id !in u.bits && sub != [] && '\0' !in sub
    ensures GoodBits(t, SetBit(AddSub(u, id, sub), id, false))
    ensures GoodSubcommands(t, SetBit(AddSub(u, id, sub), id, false))
  {
    hide EqualNoCase, GoodSubs, Lists, HasId;
    IdBelow(t, id);
    var v := SetBit(AddSub(u, id, sub), id, false);
    assert v.bits == u.bits;
    var subs := if id in u.subcommands then u.subcommands[id] else [];
    if !Lists(subs, sub) {
      MoreSubs(subs, sub);
    }
  }

  lemma RemoveKeeps(s: seq<string>, x: string)
    requires x in s && Distinct(s)
    ensures Distinct(Remove(s, x))
    ensures forall i | 0 <= i < |Remove(s, x)| :: Remove(s, x)[i] in s
  {
    var r, f := Remove(s, x), Find(s, x);
    forall i | 0 <= i < |r| ensures r[i] == s[if i < f then i else i + 1] {}
  }

  lemma PasswordsKept(t: Table, hash: Hash, u: User, rule: Rule)
    requires GoodHash(hash) && Good(t, u) && (rule.AddPass? || rule.DelPass?)
    requires Apply(t, hash, u, rule).Ok?
    ensures Good(t, Apply(t, hash, u, rule).user)
  {
    if rule.DelPass? {
      var p := if rule.hashed then rule.pass else hash(rule.pass);
      RemoveKeeps(u.passwords, p);
      forall q | q in u.passwords ensures IsHash(q) {}
    }
  }

  /** Passwords and patterns do not look at the commands. */
  lemma OnlyCommands(t: Table, u: User, v: User)
    requires Good(t, u) && v == u.(bits := v.bits, subcommands := v.subcommands, allcommands := v.allcommands)
    requires GoodBits(t, v) && GoodSubcommands(t, v)
    ensures Good(t, v)
  {
    hide GoodBits, GoodSubcommands, Distinct, IsHash;
  }

  lemma CategoryKept(t: Table, u: User, category: string, add: bool)
    requires ValidTable(t) && Good(t, u)
    ensures Good(t, SetCategory(t, u, category, add))
  {
    hide IdsIn, GoodBits, GoodSubcommands, HasId, GoodPasswords, GoodPatterns;
    var v := SetCategory(t, u, category, add);
    CategoryIds(t, category);
    TouchKeeps(t, u, IdsIn(t, category), add, v);
    OnlyCommands(t, u, v);
  }

  lemma CommandKept(t: Table, u: User, id: nat, add: bool)
    requires ValidTable(t) && Good(t, u) && HasId(t, id)
    ensures Good(t, ResetSubs(SetBit(u, id, add), id))
  {
    hide GoodBits, GoodSubcommands, HasId, GoodPasswords, GoodPatterns, ValidTable;
    IdBelow(t, id);
    var v := ResetSubs(SetBit(u, id, add), id);
    TouchKeeps(t, u, {id}, add, v);
    OnlyCommands(t, u, v);
  }

  lemma CommandsKept(t: Table, hash: Hash, u: User, rule: Rule)
    requires ValidTable(t) && Good(t, u)
    requires rule.AddCommand? || rule.AddSubcommand? || rule.DelCommand? || rule.Category?
    requires rule.AddSubcommand? ==> '\0' !in rule.sub
    requires Apply(t, hash, u, rule).Ok?
    ensures Good(t, Apply(t, hash, u, rule).user)
  {
    hide FindCategory, SetCategory, SetBit, ResetSubs, AddSub, GoodBits, GoodSubcommands, IdOf, HasId, ApplyWord, Knows, ValidTable;
    if rule.Category? {
      CategoryKept(t, u, FindCategory(rule.name, 0).value, rule.add);
    } else {
      var id := IdOf(t, rule.name);
      IdIsIn(t, rule.name);
      if rule.AddSubcommand? {
        AddSubKeeps(t, u, id, rule.sub);
        SubOnlyCommands(u, id, rule.sub);
        OnlyCommands(t, u, SetBit(AddSub(u, id, rule.sub), id, false));
      } else {
        CommandKept(t, u, id, rule.AddCommand?);
      }
    }
  }

  lemma SubOnlyCommands(u: User, id: nat, sub: string)
    ensures var v := SetBit(AddSub(u, id, sub), id, false);
            v == u.(bits := v.bits, subcommands := v.subcommands, allcommands := v.allcommands)
  {
  }

  lemma ParsedSub(op: string)
    requires Parse(op).AddSubcommand?
    ensures '\0' !in Parse(op).sub
  {
    hide EqualNoCase, CString, IndexOf;
    var c := CString(op);
    assert forall i | 0 <= i < |c| :: c[i] != '\0';
  }

  lemma ParsedPattern(op: string)
    requires Parse(op).AddPattern?
    ensures CString(Parse(op).pattern) != "*"
  {
    hide EqualNoCase, CString, IndexOf;
    assert op == "~" + op[1..];
    CStringCons('~', op[1..]);
    Same("~*");
    assert "~" + "*" == "~*";
  }

  lemma ParsedParts(op: string)
    ensures Parse(op).AddSubcommand? ==> '\0' !in Parse(op).sub
    ensures Parse(op).AddPattern? ==> CString(Parse(op).pattern) != "*"
  {
    hide Parse;
    if Parse(op).AddSubcommand? {
      ParsedSub(op);
    } else if Parse(op).AddPattern? {
      ParsedPattern(op);
    }
  }

  lemma CStringCons(c: char, s: string)
    requires c != '\0'
    ensures CString([c] + s) == [c] + CString(s)
  {
    assert ([c] + s)[1..] == s;
  }

  /** Every rule text, accepted or not, leaves a good user good. */
  lemma SetUserKeeps(t: Table, hash: Hash, u: User, op: string)
    requires ValidTable(t) && GoodHash(hash) && Good(t, u)
    ensures SetUser(t, hash, u, op).Ok? ==> Good(t, SetUser(t, hash, u, op).user)
  {
    hide CString, EqualNoCase, IdOf, Remove, BitsBelow, IdsIn;
    var rule := Parse(op);
    ParsedParts(op);
    if Apply(t, hash, u, rule).Ok? {
      if rule.AddPass? || rule.DelPass? {
        PasswordsKept(t, hash, u, rule);
      } else if rule.AddCommand? || rule.AddSubcommand? || rule.DelCommand? || rule.Category? {
        CommandsKept(t, hash, u, rule);
      } else {
        OthersKept(t, hash, u, rule);
      }
    }
  }

  lemma OthersKept(t: Table, hash: Hash, u: User, rule: Rule)
    requires ValidTable(t) && Good(t, u)
    requires !rule.AddPass? && !rule.DelPass? && !rule.AddCommand? && !rule.AddSubcommand? && !rule.DelCommand? && !rule.Category?
    requires rule.AddPattern? ==> CString(rule.pattern) != "*"
    requires Apply(t, hash, u, rule).Ok?
    ensures Good(t, Apply(t, hash, u, rule).user)
  {
    hide CString, IdOf, Remove, BitsBelow, IdsIn;
  }

  lemma {:induction false} SetAllKeeps(t: Table, hash: Hash, u: User, ops: seq<string>)
    requires ValidTable(t) && GoodHash(hash) && Good(t, u)
    ensures SetAll(t, hash, u, ops).Ok? ==> Good(t, SetAll(t, hash, u, ops).user)
    decreases |ops|
  {
    if ops != [] {
      SetUserKeeps(t, hash, u, ops[0]);
      var r := SetUser(t, hash, u, ops[0]);
      if r.Ok? {
        SetAllKeeps(t, hash, r.user, ops[1..]);
      }
    }
  }

  // ------------------------------------------------------------- printed rules read back

  predicate IsCategory(name: string) {
    exists j | 0 <= j < |CATEGORIES| :: CATEGORIES[j] == name
  }

  predicate Printable(rule: Rule) {
    match rule
    case On | Off | AllKeys | AllCommands | NoCommands | NoPass => true
    case AddPass(hashed, pass) => hashed && IsHash(pass)
    case AddPattern(p) => CString(p) != "*"
    case AddCommand(name) => ValidName(name)
    case DelCommand(name) => ValidName(name)
    case AddSubcommand(name, sub) => ValidName(name) && '\0' !in sub
    case Category(_, name) => IsCategory(name)
    case _ => false
  }

  predicate AllPrintable(rules: seq<Rule>) {
    forall i | 0 <= i < |rules| :: Printable(rules[i])
  }

  lemma Differ(a: string, b: string, i: nat)
    requires i < |a| && i < |b| && LowerChar(a[i]) != LowerChar(b[i])
    ensures !EqualNoCase(a, b)
  {
    assert Lower(a)[i] != Lower(b)[i];
  }

  predicate IsWord(c: string) {
    || EqualNoCase(c, "on") || EqualNoCase(c, "off") || EqualNoCase(c, "allkeys") || EqualNoCase(c, "resetkeys")
    || EqualNoCase(c, "allcommands") || EqualNoCase(c, "nocommands") || EqualNoCase(c, "nopass")
    || EqualNoCase(c, "resetpass") || EqualNoCase(c, "reset")
  }

  lemma SignIsNoWord(c: string)
    requires c != [] && (c[0] == '#' || c[0] == '~' || c[0] == '+' || c[0] == '-')
    ensures !IsWord(c)
    ensures c[0] != '~' ==> !EqualNoCase(c, "~*")
    ensures c[0] != '+' ==> !EqualNoCase(c, "+@all")
    ensures c[0] != '-' ==> !EqualNoCase(c, "-@all")
  {
    hide EqualNoCase;
    Differ(c, "on", 0);
    Differ(c, "off", 0);
    Differ(c, "allkeys", 0);
    Differ(c, "resetkeys", 0);
    Differ(c, "allcommands", 0);
    Differ(c, "nocommands", 0);
    Differ(c, "nopass", 0);
    Differ(c, "resetpass", 0);
    Differ(c, "reset", 0);
    if c[0] != '~' { Differ(c, "~*", 0); }
    if c[0] != '+' { Differ(c, "+@all", 0); }
    if c[0] != '-' { Differ(c, "-@all", 0); }
  }

  lemma LowerOf(s: string)
    requires forall i | 0 <= i < |s| :: !('A' <= s[i] <= 'Z')
    ensures Lower(s) == s
  {
  }

  lemma CategoryLetters(name: string)
    requires IsCategory(name)
    ensures forall i | 0 <= i < |name| :: 'a' <= name[i] <= 'z'
  {
  }

  lemma NotAll(name: string)
    requires IsCategory(name)
    ensures |name| != 3 || name[0] != 'a'
  {
  }

  lemma CategoryNames(name: string)
    requires IsCategory(name)
    ensures Lower(name) == name && '\0' !in name && !EqualNoCase(name, "all")
  {
    hide EqualNoCase, IsCategory;
    CategoryLetters(name);
    LowerOf(name);
    NotAll(name);
    if |name| == 3 {
      Differ(name, "all", 0);
    } else {
      DifferInLength(name, "all");
    }
  }

  lemma DifferInLength(a: string, b: string)
    requires |a| != |b|
    ensures !EqualNoCase(a, b)
  {
    assert |Lower(a)| != |Lower(b)|;
  }

  lemma {:induction false} CategoryFound(name: string, j: nat)
    requires exists i | j <= i < |CATEGORIES| :: CATEGORIES[i] == name
    ensures FindCategory(name, j) == Some(name)
    decreases |CATEGORIES| - j
  {
    assert IsCategory(name);
    CategoryNames(name);
    if EqualNoCase(name, CATEGORIES[j]) {
      assert IsCategory(CATEGORIES[j]);
      CategoryNames(CATEGORIES[j]);
    } else {
      CategoryFound(name, j + 1);
    }
  }

  lemma ParseWord(rule: Rule)
    requires Printable(rule) && (rule.On? || rule.Off? || rule.NoPass?)
    ensures Parse(Text(rule)) == rule
  {
    hide EqualNoCase;
    var c := Text(rule);
    assert EqualNoCase(c, c) by { Same(c); }
    assert '\0' !in c;
    DifferInLength("off", "on");
    DifferInLength("nopass", "on");
    DifferInLength("nopass", "off");
    DifferInLength("nopass", "allkeys");
    DifferInLength("nopass", "~*");
    DifferInLength("nopass", "resetkeys");
    DifferInLength("nopass", "allcommands");
    DifferInLength("nopass", "+@all");
    DifferInLength("nopass", "nocommands");
    DifferInLength("nopass", "-@all");
  }

  lemma Same(c: string)
    ensures EqualNoCase(c, c)
  {
  }

  lemma ParseSign(rule: Rule)
    requires Printable(rule) && (rule.AllKeys? || rule.AllCommands? || rule.NoCommands? || rule.AddPattern? || rule.AddPass?)
    ensures Parse(Text(rule)) == rule
  {
    hide EqualNoCase, CString;
    var op := Text(rule);
    CStringCons(op[0], op[1..]);
    assert op == [op[0]] + op[1..];
    SignIsNoWord(CString(op));
    Same(op);
    if rule.AddPattern? {
      NotStar(CString(op));
    }
  }

  lemma NotStar(c: string)
    requires c != [] && c[0] == '~' && c[1..] != "*"
    ensures !EqualNoCase(c, "~*")
  {
    if |c| == 2 {
      Differ(c, "~*", 1);
    } else {
      DifferInLength(c, "~*");
    }
  }

  lemma ParseCommand(rule: Rule)
    requires Printable(rule) && (rule.AddCommand? || rule.DelCommand? || rule.AddSubcommand?)
    ensures Parse(Text(rule)) == rule
  {
    hide EqualNoCase, CString;
    var op := Text(rule);
    assert op[1] == rule.name[0];
    assert '\0' !in op;
    SignIsNoWord(op);
    Differ(op, "+@all", 1);
    Differ(op, "-@all", 1);
    if rule.AddSubcommand? {
      var body := op[1..];
      assert body == rule.name + "|" + rule.sub;
      var bar := IndexOf(body, '|');
      assert body[|rule.name|] == '|';
      assert bar == |rule.name|;
    }
  }

  lemma ParseCategory(rule: Rule)
    requires Printable(rule) && rule.Category?
    ensures Parse(Text(rule)) == rule
  {
    hide EqualNoCase, CString;
    var op := Text(rule);
    CategoryNames(rule.name);
    assert '\0' !in op;
    SignIsNoWord(op);
    var all := if rule.add then "+@all" else "-@all";
    assert op[2..] == rule.name && all[2..] == "all";
    TailsDiffer(op, all);
  }

  lemma TailsDiffer(a: string, b: string)
    requires |a| >= 2 && |b| >= 2 && !EqualNoCase(a[2..], b[2..])
    ensures !EqualNoCase(a, b)
  {
    assert Lower(a[2..]) == Lower(a)[2..];
    assert Lower(b[2..]) == Lower(b)[2..];
  }

  /** Each printed rule is read back as itself. */
  lemma ParseText(rule: Rule)
    requires Printable(rule)
    ensures Parse(Text(rule)) == rule
  {
    hide Parse, Text, EqualNoCase, CString;
    match rule {
      case On => ParseWord(rule);
      case Off => ParseWord(rule);
      case NoPass => ParseWord(rule);
      case AddCommand(_) => ParseCommand(rule);
      case DelCommand(_) => ParseCommand(rule);
      case AddSubcommand(_, _) => ParseCommand(rule);
      case Category(_, _) => ParseCategory(rule);
      case _ => ParseSign(rule);
    }
  }

  lemma {:induction false} ReadBack(t: Table, hash: Hash, u: User, rules: seq<Rule>)
    requires AllPrintable(rules)
    ensures SetAll(t, hash, u, Texts(rules)) == ApplyAll(t, hash, u, rules)
    decreases |rules|
  {
    hide Parse, Text, Apply, Printable;
    if rules != [] {
      ParseText(rules[0]);
      assert Texts(rules)[1..] == Texts(rules[1..]);
      var r := Apply(t, hash, u, rules[0]);
      if r.Ok? {
        ReadBack(t, hash, r.user, rules[1..]);
      }
    }
  }

  // ------------------------------------------------------------------- the printed rules

  lemma {:induction false} ApplyConcat(t: Table, hash: Hash, u: User, a: seq<Rule>, b: seq<Rule>)
    requires ApplyAll(t, hash, u, a).Ok?
    ensures ApplyAll(t, hash, u, a + b) == ApplyAll(t, hash, ApplyAll(t, hash, u, a).user, b)
    decreases |a|
  {
    hide Apply;
    if a == [] {
      assert a + b == b;
    } else {
      assert (a + b)[1..] == a[1..] + b;
      ApplyConcat(t, hash, Apply(t, hash, u, a[0]).user, a[1..], b);
    }
  }

  lemma {:induction false} PassRulesApply(t: Table, hash: Hash, u: User, ps: seq<string>)
    requires Distinct(u.passwords + ps)
    requires forall i | 0 <= i < |ps| :: IsHash(ps[i])
    ensures AllPrintable(PassRules(ps))
    ensures ApplyAll(t, hash, u, PassRules(ps))
         == Ok(u.(passwords := u.passwords + ps, nopass := u.nopass && ps == []))
    decreases |ps|
  {
    hide IsHash;
    if ps == [] {
      assert u.passwords + ps == u.passwords;
    } else {
      var all := u.passwords + ps;
      assert ps[0] == all[|u.passwords|];
      assert forall i | 0 <= i < |u.passwords| :: u.passwords[i] == all[i];
      assert ps[0] !in u.passwords;
      var u1 := u.(nopass := false, passwords := u.passwords + [ps[0]]);
      assert u1.passwords + ps[1..] == all;
      assert PassRules(ps)[1..] == PassRules(ps[1..]);
      PassRulesApply(t, hash, u1, ps[1..]);
    }
  }

  lemma {:induction false} PatternRulesApply(t: Table, hash: Hash, u: User, ps: seq<string>)
    requires !u.allkeys && Distinct(u.patterns + ps)
    requires forall i | 0 <= i < |ps| :: CString(ps[i]) != "*"
    ensures AllPrintable(PatternRules(ps))
    ensures ApplyAll(t, hash, u, PatternRules(ps)) == Ok(u.(patterns := u.patterns + ps))
    decreases |ps|
  {
    hide CString, Apply;
    if ps == [] {
      assert u.patterns + ps == u.patterns;
    } else {
      var all := u.patterns + ps;
      assert ps[0] == all[|u.patterns|];
      assert forall i | 0 <= i < |u.patterns| :: u.patterns[i] == all[i];
      assert ps[0] !in u.patterns;
      var u1 := u.(patterns := u.patterns + [ps[0]]);
      assert u1.patterns + ps[1..] == all;
      NewPattern(t, hash, u, ps[0]);
      assert PatternRules(ps)[1..] == PatternRules(ps[1..]);
      PatternRulesApply(t, hash, u1, ps[1..]);
    }
  }

  lemma NewPattern(t: Table, hash: Hash, u: User, p: string)
    requires !u.allkeys && p !in u.patterns
    ensures Apply(t, hash, u, AddPattern(p)) == Ok(u.(patterns := u.patterns + [p]))
  {
  }

  /** While u is being rebuilt as v: the flag is up only over a full bitmap, and down only
      when u lacks a bit. */
  predicate Tracks(u: User, v: User) {
    if v.allcommands then v.bits == AllBits() else u.bits != AllBits()
  }

  lemma {:induction false} CountPositive(t: Table, u: User, category: string, on: bool, k: nat) returns (l: nat)
    requires CountBits(t, u, category, on, k) > 0
    ensures k <= l < |t| && (t[l].id in u.bits) == on
    decreases |t| - k
  {
    if category in t[k].categories && (t[k].id in u.bits) == on {
      l := k;
    } else {
      l := CountPositive(t, u, category, on, k + 1);
    }
  }

  lemma WorthwhileRemoval(t: Table, u: User, category: string)
    requires ValidTable(t) && Worthwhile(t, u, false, category)
    ensures u.bits != AllBits()
  {
    var l := CountPositive(t, u, category, false, 0);
    assert t[l].id in AllBits();
  }

  lemma {:induction false} CategoryRulesApply(t: Table, hash: Hash, u: User, v: User, additive: bool, names: seq<string>)
    returns (w: User)
    requires ValidTable(t) && v.subcommands == map[] && Tracks(u, v)
    requires forall i | 0 <= i < |names| :: IsCategory(names[i])
    ensures AllPrintable(CategoryRules(t, u, additive, names))
    ensures ApplyAll(t, hash, v, CategoryRules(t, u, additive, names)) == Ok(w)
    ensures w == v.(bits := CategoryBits(t, u, additive, names, v.bits), allcommands := w.allcommands)
    ensures Tracks(u, w)
    decreases |names|
  {
    hide Worthwhile, IdsIn, Apply, Tracks, Printable, ValidTable, IsCategory;
    if names == [] {
      w := v;
    } else if !Worthwhile(t, u, additive, names[0]) {
      assert CategoryRules(t, u, additive, names) == CategoryRules(t, u, additive, names[1..]);
      w := CategoryRulesApply(t, hash, u, v, additive, names[1..]);
    } else {
      var v1 := CategoryStep(t, hash, u, v, additive, names[0]);
      w := CategoryRulesApply(t, hash, u, v1, additive, names[1..]);
      assert CategoryRules(t, u, additive, names)[1..] == CategoryRules(t, u, additive, names[1..]);
    }
  }

  lemma CategoryStep(t: Table, hash: Hash, u: User, v: User, additive: bool, category: string) returns (v1: User)
    requires ValidTable(t) && v.subcommands == map[] && Tracks(u, v)
    requires IsCategory(category) && Worthwhile(t, u, additive, category)
    ensures Printable(Category(additive, category))
    ensures Apply(t, hash, v, Category(additive, category)) == Ok(v1)
    ensures v1.subcommands == map[] && Tracks(u, v1)
    ensures v1 == v.(bits := v1.bits, allcommands := v1.allcommands)
    ensures v1.bits == (if additive then v.bits + IdsIn(t, category) else v.bits - IdsIn(t, category))
  {
    hide EqualNoCase, CountBits, IdsIn;
    CategoryFound(category, 0);
    v1 := SetCategory(t, v, category, additive);
    CategoryIds(t, category);
    forall id | id in IdsIn(t, category) ensures id in AllBits() {
      IdBelow(t, id);
    }
    if !additive {
      WorthwhileRemoval(t, u, category);
    }
    assert v1.subcommands == map[];
  }

  // ------------------------------------------------------------------ the final pass

  /** The subcommands of u on the first k commands of the table. */
  function SubsUpTo(t: Table, u: User, k: nat): map<nat, seq<string>>
    requires k <= |t|
  {
    map id | id in u.subcommands && HasId(t[..k], id) :: u.subcommands[id]
  }

  lemma UniqueName(t: Table, k: nat, l: nat)
    requires ValidTable(t) && k < |t| && l < |t| && EqualNoCase(t[k].name, t[l].name)
    ensures k == l
  {
  }

  lemma SameId(t: Table, name: string, k: nat)
    requires ValidTable(t) && k < |t| && t[k].name == name
    ensures Knows(t, name) && IdOf(t, name) == t[k].id
  {
    Same(name);
    var l :| 0 <= l < |t| && EqualNoCase(t[l].name, name) && IdOf(t, name) == t[l].id;
    UniqueName(t, l, k);
  }

  lemma SubStep(t: Table, hash: Hash, v: User, k: nat, sub: string)
    requires ValidTable(t) && k < |t| && t[k].id !in v.bits && !v.allcommands
    requires sub != [] && '\0' !in sub && !Lists(Listed(v, t[k].id), sub)
    ensures Printable(AddSubcommand(t[k].name, sub))
    ensures Apply(t, hash, v, AddSubcommand(t[k].name, sub))
         == Ok(v.(subcommands := v.subcommands[t[k].id := Listed(v, t[k].id) + [sub]]))
  {
    hide EqualNoCase, IdOf, Lists;
    SameId(t, t[k].name, k);
    assert v.bits == v.bits - {t[k].id};
  }

  lemma NotListed(a: seq<string>, b: seq<string>)
    requires b != [] && DistinctNoCase(a + b)
    ensures !Lists(a, b[0])
  {
    hide EqualNoCase;
    assert (a + b)[|a|] == b[0];
    assert forall i | 0 <= i < |a| :: (a + b)[i] == a[i];
  }

  lemma {:induction false} SubRulesApply(t: Table, hash: Hash, v: User, k: nat, subs: seq<string>)
    requires ValidTable(t) && k < |t| && t[k].id !in v.bits && !v.allcommands
    requires forall i | 0 <= i < |subs| :: subs[i] != [] && '\0' !in subs[i]
    requires DistinctNoCase(Listed(v, t[k].id) + subs)
    ensures AllPrintable(SubRules(t[k].name, subs))
    ensures ApplyAll(t, hash, v, SubRules(t[k].name, subs))
         == Ok(if subs == [] then v else v.(subcommands := v.subcommands[t[k].id := Listed(v, t[k].id) + subs]))
    decreases |subs|
  {
    hide EqualNoCase, Apply, Lists, Printable, ValidTable, DistinctNoCase;
    if subs != [] {
      var id, before := t[k].id, Listed(v, t[k].id);
      NotListed(before, subs);
      SubStep(t, hash, v, k, subs[0]);
      var v1 := v.(subcommands := v.subcommands[id := before + [subs[0]]]);
      assert Listed(v1, id) + subs[1..] == before + subs;
      assert SubRules(t[k].name, subs)[1..] == SubRules(t[k].name, subs[1..]);
      SubRulesApply(t, hash, v1, k, subs[1..]);
      if |subs| == 1 {
        assert subs == [subs[0]];
      } else {
        assert v1.subcommands[id := before + subs] == v.subcommands[id := before + subs];
      }
    }
  }

  function Listed(v: User, id: nat): seq<string> {
    if id in v.subcommands then v.subcommands[id] else []
  }

  /** What the final pass has rebuilt before it looks at the k-th command. */
  predicate Rebuilt(t: Table, u: User, v: User, k: nat)
    requires k <= |t|
  {
    v.subcommands == SubsUpTo(t, u, k) && Tracks(u, v)
  }

  lemma OneMore(t: Table, k: nat, id: nat)
    requires k < |t|
    ensures HasId(t[..k + 1], id) <==> HasId(t[..k], id) || id == t[k].id
  {
    if HasId(t[..k], id) {
      var l :| 0 <= l < k && t[..k][l].id == id;
      assert t[..k + 1][l].id == id;
    }
    assert t[..k + 1][k] == t[k];
    assert forall l | 0 <= l < k :: t[..k + 1][l] == t[..k][l];
  }

  lemma SubsStep(t: Table, u: User, k: nat)
    requires ValidTable(t) && k < |t|
    ensures t[k].id !in SubsUpTo(t, u, k)
    ensures SubsUpTo(t, u, k + 1)
         == if t[k].id in u.subcommands then SubsUpTo(t, u, k)[t[k].id := u.subcommands[t[k].id]] else SubsUpTo(t, u, k)
  {
    forall id ensures HasId(t[..k + 1], id) <==> HasId(t[..k], id) || id == t[k].id {
      OneMore(t, k, id);
    }
    assert !HasId(t[..k], t[k].id);
  }

  /** The first part of a command's rules: its bit becomes that of u. */
  lemma NoRules(t: Table, hash: Hash, v: User)
    ensures ApplyAll(t, hash, v, []) == Ok(v)
  {
  }

  lemma OneRule(t: Table, hash: Hash, v: User, rule: Rule)
    ensures ApplyAll(t, hash, v, [rule]) == Apply(t, hash, v, rule)
  {
    hide Apply;
    assert [rule][1..] == [];
  }

  /** What switching one command on or off does. */
  lemma BitRules(t: Table, hash: Hash, v: User, k: nat)
    requires ValidTable(t) && k < |t|
    ensures var c := t[k];
            && c.id in AllBits() && Printable(AddCommand(c.name)) && Printable(DelCommand(c.name))
            && ApplyAll(t, hash, v, [AddCommand(c.name)])
               == Ok(v.(bits := v.bits + {c.id}, subcommands := v.subcommands - {c.id}))
            && ApplyAll(t, hash, v, [DelCommand(c.name)])
               == Ok(v.(bits := v.bits - {c.id}, allcommands := false, subcommands := v.subcommands - {c.id}))
  {
    hide EqualNoCase, IdOf, ApplyAll;
    SameId(t, t[k].name, k);
    OneRule(t, hash, v, AddCommand(t[k].name));
    OneRule(t, hash, v, DelCommand(t[k].name));
  }

  lemma BitStep(t: Table, hash: Hash, u: User, v: User, k: nat) returns (w: User)
    requires ValidTable(t) && k < |t| && Tracks(u, v) && t[k].id !in v.subcommands
    ensures AllPrintable(BitRule(u, t[k], v.bits))
    ensures ApplyAll(t, hash, v, BitRule(u, t[k], v.bits)) == Ok(w)
    ensures w == v.(bits := FixBit(u, t[k].id, v.bits), allcommands := w.allcommands)
    ensures Tracks(u, w)
  {
    hide EqualNoCase, IdOf, Apply, ValidTable, ApplyAll;
    var c := t[k];
    BitRules(t, hash, v, k);
    assert ApplyAll(t, hash, v, []) == Ok(v) by { NoRules(t, hash, v); }
    assert v.subcommands - {c.id} == v.subcommands;
    if (c.id in u.bits) == (c.id in v.bits) {
      w := v;
      assert FixBit(u, c.id, v.bits) == v.bits;
    } else if c.id in u.bits {
      w := v.(bits := v.bits + {c.id});
      assert w.allcommands ==> w.bits == AllBits();
    } else {
      w := v.(bits := v.bits - {c.id}, allcommands := false);
    }
  }

  lemma CommandStep(t: Table, hash: Hash, u: User, v: User, k: nat) returns (w: User)
    requires ValidTable(t) && GoodSubcommands(t, u) && k < |t| && Rebuilt(t, u, v, k)
    ensures AllPrintable(CommandRule(u, t[k], v.bits))
    ensures ApplyAll(t, hash, v, CommandRule(u, t[k], v.bits)) == Ok(w)
    ensures w == v.(bits := FixBit(u, t[k].id, v.bits), allcommands := w.allcommands, subcommands := w.subcommands)
    ensures Rebuilt(t, u, w, k + 1)
  {
    hide EqualNoCase, IdOf, Apply, ValidTable, Printable, HasId, DistinctNoCase;
    var c := t[k];
    SubsStep(t, u, k);
    var v1 := BitStep(t, hash, u, v, k);
    if c.id in u.subcommands {
      var subs := u.subcommands[c.id];
      LacksBit(t, u, k);
      assert Listed(v1, c.id) + subs == subs;
      assert !v1.allcommands by { KnownId(t, k); }
      SubRulesApply(t, hash, v1, k, subs);
      ApplyConcat(t, hash, v, BitRule(u, c, v.bits), SubRules(c.name, subs));
      w := v1.(subcommands := v1.subcommands[c.id := subs]);
    } else {
      w := v1;
      assert CommandRule(u, c, v.bits) == BitRule(u, c, v.bits);
    }
  }

  lemma KnownId(t: Table, k: nat)
    requires ValidTable(t) && k < |t|
    ensures t[k].id in AllBits()
  {
  }

  lemma LacksBit(t: Table, u: User, k: nat)
    requires k < |t| && GoodSubcommands(t, u) && t[k].id in u.subcommands
    ensures t[k].id !in u.bits && GoodSubs(u.subcommands[t[k].id])
  {
  }

  lemma {:induction false} CommandRulesApply(t: Table, hash: Hash, u: User, v: User, k: nat) returns (w: User)
    requires ValidTable(t) && GoodSubcommands(t, u) && k <= |t| && Rebuilt(t, u, v, k)
    ensures AllPrintable(CommandRules(t, u, v.bits, k))
    ensures ApplyAll(t, hash, v, CommandRules(t, u, v.bits, k)) == Ok(w)
    ensures w == v.(bits := CommandBits(t, u, v.bits, k), allcommands := w.allcommands, subcommands := w.subcommands)
    ensures Rebuilt(t, u, w, |t|)
    decreases |t| - k
  {
    hide Apply, ValidTable, Printable, GoodSubcommands, CommandRule, FixBit, Rebuilt;
    if k == |t| {
      w := v;
    } else {
      var v1 := CommandStep(t, hash, u, v, k);
      w := CommandRulesApply(t, hash, u, v1, k + 1);
      ApplyConcat(t, hash, v, CommandRule(u, t[k], v.bits), CommandRules(t, u, v1.bits, k + 1));
    }
  }

  // ---------------------------------------------------------------- the rebuilt bitmap

  lemma OneLess(t: Table, k: nat, id: nat)
    requires k < |t|
    ensures HasId(t[k..], id) <==> id == t[k].id || HasId(t[k + 1..], id)
  {
    if HasId(t[k + 1..], id) {
      var l :| 0 <= l < |t| - k - 1 && t[k + 1..][l].id == id;
      assert t[k..][l + 1].id == id;
    }
    assert t[k..][0] == t[k];
    assert forall l | 0 < l < |t[k..]| :: t[k..][l] == t[k + 1..][l - 1];
  }

  lemma {:induction false} CommandBitsAt(t: Table, u: User, bits: set<nat>, k: nat, id: nat)
    requires ValidTable(t) && k <= |t|
    ensures id in CommandBits(t, u, bits, k) <==> if HasId(t[k..], id) then id in u.bits else id in bits
    decreases |t| - k
  {
    if k < |t| {
      CommandBitsAt(t, u, FixBit(u, t[k].id, bits), k + 1, id);
      OneLess(t, k, id);
      OneLess(t, k, t[k].id);
    }
  }

  lemma {:induction false} CategoryBitsAt(t: Table, u: User, additive: bool, names: seq<string>, bits: set<nat>, id: nat)
    requires !HasId(t, id)
    ensures id in CategoryBits(t, u, additive, names, bits) <==> id in bits
    decreases |names|
  {
    hide Worthwhile, IdsIn;
    if names != [] {
      CategoryIds(t, names[0]);
      var ids := IdsIn(t, names[0]);
      var bits1 := if !Worthwhile(t, u, additive, names[0]) then bits
                   else if additive then bits + ids else bits - ids;
      CategoryBitsAt(t, u, additive, names[1..], bits1, id);
    }
  }

  /** The predicted bitmap is the user's bitmap exactly when every bit that belongs to no
      command of the table agrees with the bit of future commands. */
  lemma PredictionIsExact(t: Table, u: User)
    requires ValidTable(t) && u.bits <= AllBits()
    ensures FakeBits(t, u) == u.bits <==> forall i | i in AllBits() && !HasId(t, i) :: i in u.bits <==> FUTURE in u.bits
  {
    hide CategoryBits, CommandBits, FakeBits, HasId;
    forall id: nat ensures id in FakeBits(t, u) <==> if HasId(t, id) then id in u.bits else id in StartBits(u) {
      FakeBit(t, u, id);
    }
    if FakeBits(t, u) != u.bits {
      var id :| !(id in FakeBits(t, u) <==> id in u.bits);
      assert !HasId(t, id) && id in AllBits();
    }
  }

  lemma FakeBit(t: Table, u: User, id: nat)
    requires ValidTable(t)
    ensures id in FakeBits(t, u) <==> if HasId(t, id) then id in u.bits else id in StartBits(u)
  {
    hide CategoryBits, CommandBits;
    var additive := FUTURE !in u.bits;
    var mid := CategoryBits(t, u, additive, CATEGORIES, StartBits(u));
    CommandBitsAt(t, u, mid, 0, id);
    assert t[0..] == t;
    if !HasId(t, id) {
      CategoryBitsAt(t, u, additive, CATEGORIES, StartBits(u), id);
    }
  }

  /** For a user made by rules over this table the panic after the comparison is dead code. */
  lemma PredictionHolds(t: Table, u: User)
    requires ValidTable(t) && GoodBits(t, u)
    ensures FakeBits(t, u) == u.bits
  {
    hide FakeBits, HasId;
    PredictionIsExact(t, u);
  }

  /** It fails once a command that was allowed by name has left the table, as the commands
      of a module do when it is unloaded. */
  lemma UnloadedCommand(hash: Hash)
    ensures var t := [Command("m.get", 0, {}, true)];
            var u := SetAll(t, hash, NEW_USER, ["+m.get"]);
            u.Ok? && FakeBits(t, u.user) == u.user.bits && FakeBits([], u.user) != u.user.bits
  {
    hide Parse, EqualNoCase, IdOf, FakeBits, BitsBelow, ValidName;
    var t := [Command("m.get", 0, {}, true)];
    var rules := [AddCommand("m.get")];
    assert rules[1..] == [] && Text(rules[0]) == "+m.get" && Texts(rules) == ["+m.get"];
    assert ValidName("m.get") by { PlainName(); }
    ReadBack(t, hash, NEW_USER, rules);
    SameId(t, "m.get", 0);
    var u := NEW_USER.(bits := {0});
    assert NEW_USER.bits + {0} == u.bits && NEW_USER.subcommands - {0} == NEW_USER.subcommands;
    assert ApplyAll(t, hash, NEW_USER, rules) == Ok(u);
    assert t[0].id == 0 && HasId(t, 0) && !HasId([], 0);
    PredictionIsExact(t, u);
    PredictionIsExact([], u);
  }

  lemma PlainName()
    ensures ValidName("m.get")
  {
  }

  lemma AllSubs(t: Table, u: User)
    requires GoodSubcommands(t, u)
    ensures SubsUpTo(t, u, |t|) == u.subcommands
  {
    assert t[..|t|] == t;
  }

  lemma NoSubs(t: Table, u: User)
    ensures SubsUpTo(t, u, 0) == map[]
  {
  }

  /** The command rules, from a user without subcommands, whatever its bitmap. */
  lemma CommandsRebuilt(t: Table, hash: Hash, u: User, v: User)
    requires ValidTable(t) && GoodBits(t, u) && GoodSubcommands(t, u)
    ensures AllPrintable(DescribeCommands(t, u))
    ensures ApplyAll(t, hash, v, DescribeCommands(t, u))
         == Ok(v.(bits := u.bits, allcommands := u.bits == AllBits(), subcommands := u.subcommands))
  {
    hide CategoryRules, CategoryBits, CommandRules, CommandBits, ValidTable, GoodSubcommands, HasId, BitsBelow, SubsUpTo;
    var additive := FUTURE !in u.bits;
    var first := [if additive then NoCommands else AllCommands];
    var v0 := v.(bits := StartBits(u), allcommands := !additive, subcommands := map[]);
    assert ApplyAll(t, hash, v, first) == Ok(v0);
    assert Tracks(u, v0);
    assert forall i | 0 <= i < |CATEGORIES| :: IsCategory(CATEGORIES[i]);
    var v1 := CategoryRulesApply(t, hash, u, v0, additive, CATEGORIES);
    NoSubs(t, u);
    var v2 := CommandRulesApply(t, hash, u, v1, 0);
    PredictionHolds(t, u);
    AllSubs(t, u);
    var cats := CategoryRules(t, u, additive, CATEGORIES);
    var cmds := CommandRules(t, u, v1.bits, 0);
    ApplyConcat(t, hash, v, first, cats);
    ApplyConcat(t, hash, v, first + cats, cmds);
  }

  // --------------------------------------------------------------------- the round trip

  lemma FlagsRebuilt(t: Table, hash: Hash, u: User)
    requires Good(t, u)
    ensures AllPrintable(DescribeFlags(u))
    ensures ApplyAll(t, hash, NEW_USER, DescribeFlags(u))
         == Ok(NEW_USER.(enabled := u.enabled, disabled := u.disabled, nopass := u.nopass))
  {
    hide GoodPasswords, GoodPatterns, GoodBits, GoodSubcommands;
    var a := [if u.enabled then On else Off];
    assert DescribeFlags(u) == a + (if u.nopass then [NoPass] else []);
    assert ApplyAll(t, hash, NEW_USER, a) == Ok(NEW_USER.(enabled := u.enabled, disabled := u.disabled));
    ApplyConcat(t, hash, NEW_USER, a, if u.nopass then [NoPass] else []);
  }

  lemma KeysRebuilt(t: Table, hash: Hash, u: User, v: User)
    requires GoodPatterns(u) && !v.allkeys && v.patterns == []
    ensures AllPrintable(DescribeKeys(u))
    ensures ApplyAll(t, hash, v, DescribeKeys(u)) == Ok(v.(allkeys := u.allkeys, patterns := u.patterns))
  {
    hide CString;
    if !u.allkeys {
      assert v.patterns + u.patterns == u.patterns;
      PatternRulesApply(t, hash, v, u.patterns);
    }
  }

  /** What a user comes back as: itself, but with the flag up whenever no bit is missing. */
  function Normal(u: User): User {
    u.(allcommands := u.bits == AllBits())
  }

  lemma DescriptionApplies(t: Table, hash: Hash, u: User)
    requires ValidTable(t) && Good(t, u)
    ensures AllPrintable(Describe(t, u))
    ensures ApplyAll(t, hash, NEW_USER, Describe(t, u)) == Ok(Normal(u))
  {
    hide DescribeFlags, PassRules, DescribeKeys, DescribeCommands, ValidTable, Apply, Printable, IsHash, CString;
    FlagsRebuilt(t, hash, u);
    var v1 := NEW_USER.(enabled := u.enabled, disabled := u.disabled, nopass := u.nopass);
    assert v1.passwords + u.passwords == u.passwords;
    PassRulesApply(t, hash, v1, u.passwords);
    var v2 := v1.(passwords := u.passwords);
    KeysRebuilt(t, hash, u, v2);
    var v3 := v2.(allkeys := u.allkeys, patterns := u.patterns);
    CommandsRebuilt(t, hash, u, v3);
    var a, b, c := DescribeFlags(u), PassRules(u.passwords), DescribeKeys(u);
    ApplyConcat(t, hash, NEW_USER, a, b);
    ApplyConcat(t, hash, NEW_USER, a + b, c);
    ApplyConcat(t, hash, NEW_USER, a + b + c, DescribeCommands(t, u));
  }

  /** Whatever rules made a user, the texts ACLDescribeUser prints are all accepted by
      ACLSetUser, in order, on a fresh user, and rebuild it. */
  lemma DescriptionRebuilds(t: Table, hash: Hash, ops: seq<string>)
    requires ValidTable(t) && GoodHash(hash)
    requires SetAll(t, hash, NEW_USER, ops).Ok?
    ensures var u := SetAll(t, hash, NEW_USER, ops).user;
            SetAll(t, hash, NEW_USER, Texts(Describe(t, u))) == Ok(Normal(u))
  {
    hide SetUser, ApplyAll, Apply, Describe, Texts, Normal;
    FreshIsGood(t);
    SetAllKeeps(t, hash, NEW_USER, ops);
    var u := SetAll(t, hash, NEW_USER, ops).user;
    DescriptionApplies(t, hash, u);
    ReadBack(t, hash, NEW_USER, Describe(t, u));
  }

  lemma FreshIsGood(t: Table)
    ensures Good(t, NEW_USER)
  {
  }

  /** The rebuilt user differs from the described one exactly when that one has every bit
      set without the ALLCOMMANDS flag. */
  lemma RebuiltIsSame(t: Table, u: User)
    requires Good(t, u)
    ensures Normal(u) == u <==> u.allcommands || u.bits != AllBits()
  {
  }

  /** Such a user exists: all commands, less one, plus that one again. */
  lemma FlagComesBack(hash: Hash)
    ensures var t := [Command("get", 0, {"read"}, false)];
            var u := SetAll(t, hash, NEW_USER, ["+@all", "-get", "+get"]);
            ValidTable(t) && u.Ok? && !u.user.allcommands && Normal(u.user) != u.user
  {
    hide Parse, EqualNoCase, IdOf, Apply, Texts, ApplyAll, BitsBelow;
    var t := [Command("get", 0, {"read"}, false)];
    var rules := [AllCommands, DelCommand("get"), AddCommand("get")];
    Three(rules[0], rules[1], rules[2]);
    assert Text(rules[1]) == "-get" && Text(rules[2]) == "+get";
    assert Texts(rules) == ["+@all", "-get", "+get"];
    ReadBack(t, hash, NEW_USER, rules);
    SameId(t, "get", 0);
    var u1 := NEW_USER.(bits := AllBits(), allcommands := true);
    var u2 := u1.(bits := AllBits() - {0}, allcommands := false);
    var u3 := u2.(bits := AllBits());
    assert u2.bits + {0} == u3.bits;
    assert Apply(t, hash, NEW_USER, rules[0]) == Ok(u1) by { StartAll(t, hash); }
    OneCommand(t, hash, u1, u2, false);
    OneCommand(t, hash, u2, u3, true);
    ApplyThree(t, hash, NEW_USER, u1, u2, u3, rules[0], rules[1], rules[2]);
  }

  lemma Three(a: Rule, b: Rule, c: Rule)
    ensures Texts([a, b, c]) == [Text(a), Text(b), Text(c)]
  {
    hide Text;
    assert [a, b, c][1..] == [b, c] && [b, c][1..] == [c] && [c][1..] == [];
    assert Texts([c]) == [Text(c)];
    assert Texts([b, c]) == [Text(b), Text(c)];
  }

  lemma ApplyThree(t: Table, hash: Hash, u: User, u1: User, u2: User, u3: User, a: Rule, b: Rule, c: Rule)
    requires Apply(t, hash, u, a) == Ok(u1) && Apply(t, hash, u1, b) == Ok(u2) && Apply(t, hash, u2, c) == Ok(u3)
    ensures ApplyAll(t, hash, u, [a, b, c]) == Ok(u3)
  {
    hide Apply;
    assert [a, b, c][1..] == [b, c] && [b, c][1..] == [c] && [c][1..] == [];
    assert ApplyAll(t, hash, u2, [c]) == Ok(u3);
  }

  lemma StartAll(t: Table, hash: Hash)
    ensures Apply(t, hash, NEW_USER, AllCommands) == Ok(NEW_USER.(bits := AllBits(), allcommands := true))
  {
  }

  lemma OneCommand(t: Table, hash: Hash, u: User, v: User, on: bool)
    requires Knows(t, "get") && IdOf(t, "get") == 0 && u.subcommands == map[]
    requires v == u.(bits := if on then u.bits + {0} else u.bits - {0}, allcommands := on && u.allcommands)
    ensures Apply(t, hash, u, if on then AddCommand("get") else DelCommand("get")) == Ok(v)
  {
    assert u.subcommands - {0} == u.subcommands;
  }

  /** The command part of ACLCheckCommandPerm. */
  predicate MayRun(u: User, id: nat, args: seq<string>) {
    || u.allcommands
    || id in u.bits
    || (args != [] && id in u.subcommands && Lists(u.subcommands[id], args[0]))
  }

  /** No command of the table is allowed to the one and denied to the other. */
  lemma SamePermissions(t: Table, u: User, k: nat, args: seq<string>)
    requires ValidTable(t) && Good(t, u) && k < |t|
    ensures MayRun(Normal(u), t[k].id, args) == MayRun(u, t[k].id, args)
  {
  }

  /** "reset" undoes every rule. */
  lemma ResetIsFresh(t: Table, hash: Hash, u: User)
    ensures SetUser(t, hash, u, "reset") == Ok(NEW_USER)
  {
    hide EqualNoCase;
    Same("reset");
    DifferInLength("reset", "on");
    DifferInLength("reset", "off");
    DifferInLength("reset", "allkeys");
    DifferInLength("reset", "~*");
    DifferInLength("reset", "resetkeys");
    DifferInLength("reset", "allcommands");
    Differ("reset", "+@all", 0);
    DifferInLength("reset", "nocommands");
    Differ("reset", "-@all", 0);
    DifferInLength("reset", "nopass");
    DifferInLength("reset", "resetpass");
    assert '\0' !in "reset";
  }
}
