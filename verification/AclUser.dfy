/** A user as the server holds it, updated in place, and its description computed with the
    help of a second, fake user. */
module AclUser {
  import opened Wrappers
  import opened Strings
  import opened Acl
  import R = AclRoundTrip
  import X = AclText

  lemma IdsStep(t: Table, category: string, k: nat)
    requires k < |t|
    ensures IdsIn(t[..k + 1], category)
         == IdsIn(t[..k], category) + (if !t[k].isModule && category in t[k].categories then {t[k].id} else {})
  {
    var a, b := t[..k], t[..k + 1];
    assert forall l | 0 <= l < k :: a[l] == b[l];
    assert b[k] == t[k];
    forall id | id in IdsIn(a, category) ensures id in IdsIn(b, category) {
      var l :| 0 <= l < k && !a[l].isModule && category in a[l].categories && a[l].id == id;
      assert b[l].id == id;
    }
  }

  lemma CategoryStep(t: Table, u: User, category: string, on: bool, k: nat)
    requires ValidTable(t) && k < |t|
    ensures SetCategory(t[..k + 1], u, category, on)
         == if !t[k].isModule && category in t[k].categories
            then ResetSubs(SetBit(SetCategory(t[..k], u, category, on), t[k].id, on), t[k].id)
            else SetCategory(t[..k], u, category, on)
  {
    hide IdsIn;
    IdsStep(t, category, k);
    var ids, id := IdsIn(t[..k], category), t[k].id;
    assert u.subcommands - ids - {id} == u.subcommands - (ids + {id});
    assert u.bits - ids - {id} == u.bits - (ids + {id});
    assert u.bits + ids + {id} == u.bits + (ids + {id});
    assert ids + {} == ids;
  }

  lemma NoCategory(u: User, category: string, on: bool)
    ensures SetCategory([], u, category, on) == u
  {
    assert IdsIn([], category) == {};
    assert u.subcommands - {} == u.subcommands;
  }

  lemma {:induction false} TextsConcat(a: seq<Rule>, b: seq<Rule>)
    ensures Texts(a + b) == Texts(a) + Texts(b)
    decreases |a|
  {
    if a == [] {
      assert a + b == b;
    } else {
      assert (a + b)[1..] == a[1..] + b;
      TextsConcat(a[1..], b);
    }
  }

  class AclUser {
    var enabled: bool
    var disabled: bool
    var allkeys: bool
    var allcommands: bool
    var nopass: bool
    var passwords: seq<string>
    var patterns: seq<string>
    const allowed: array<bool>
    var subcommands: map<nat, seq<string>>

    ghost predicate Valid()
      reads this
    {
      allowed.Length == BITS
    }

    ghost function Bits(): set<nat>
      reads allowed
    {
      set i: nat | i < allowed.Length && allowed[i]
    }

    ghost function View(): User
      reads this, allowed
    {
      User(enabled, disabled, allkeys, allcommands, nopass, passwords, patterns, Bits(), subcommands)
    }

    constructor ()
      ensures Valid() && View() == NEW_USER && fresh(allowed)
    {
      enabled, disabled, allkeys, allcommands, nopass := false, true, false, false, false;
      passwords, patterns, subcommands := [], [], map[];
      allowed := new bool[BITS](_ => false);
    }

    method GetBit(id: nat) returns (on: bool)
      requires Valid()
      ensures on == (id in View().bits)
    {
      on := id < BITS && allowed[id];
    }

    method SetCommandBit(id: nat, on: bool)
      requires Valid()
      modifies this`allcommands, allowed
      ensures View() == SetBit(old(View()), id, on)
    {
      if !on {
        allcommands := false;
      }
      if id < BITS {
        allowed[id] := on;
      }
      assert Bits() == SetBit(old(View()), id, on).bits;
    }

    method Fill(on: bool)
      requires Valid()
      modifies allowed
      ensures Bits() == if on then AllBits() else {}
    {
      var i := 0;
      while i < BITS
        invariant i <= BITS
        invariant forall k | 0 <= k < i :: allowed[k] == on
      {
        allowed[i] := on;
        i := i + 1;
      }
    }

    method SetBitsForCategory(t: Table, name: string, on: bool) returns (ok: bool)
      requires Valid() && ValidTable(t)
      modifies this`allcommands, this`subcommands, allowed
      ensures ok == FindCategory(name, 0).Some?
      ensures View() == if ok then SetCategory(t, old(View()), FindCategory(name, 0).value, on) else old(View())
    {
      hide SetCategory, SetBit, FindCategory, ValidTable;
      var category := FindCategory(name, 0);
      if category.None? {
        return false;
      }
      var k := 0;
      ghost var u := View();
      NoCategory(u, category.value, on);
      while k < |t|
        invariant k <= |t|
        invariant View() == SetCategory(t[..k], u, category.value, on)
      {
        CategoryStep(t, u, category.value, on, k);
        if !t[k].isModule && category.value in t[k].categories {
          SetCommandBit(t[k].id, on);
          subcommands := subcommands - {t[k].id};
        }
        k := k + 1;
      }
      assert t[..k] == t;
      ok := true;
    }

    method AddAllowedSubcommand(id: nat, sub: string)
      modifies this`subcommands
      ensures View() == AddSub(old(View()), id, sub)
    {
      var subs := if id in subcommands then subcommands[id] else [];
      var items := 0;
      while items < |subs|
        invariant items <= |subs|
        invariant !Lists(subs[..items], sub)
      {
        if EqualNoCase(subs[items], sub) {
          return;
        }
        assert subs[..items + 1] == subs[..items] + [subs[items]];
        items := items + 1;
      }
      assert subs[..items] == subs;
      subcommands := subcommands[id := subs + [sub]];
    }

    method CountCategoryBits(t: Table, category: string) returns (on: nat, off: nat)
      requires Valid()
      ensures on == CountBits(t, View(), category, true, 0)
      ensures off == CountBits(t, View(), category, false, 0)
    {
      on, off := 0, 0;
      var k := 0;
      while k < |t|
        invariant k <= |t|
        invariant on + CountBits(t, View(), category, true, k) == CountBits(t, View(), category, true, 0)
        invariant off + CountBits(t, View(), category, false, k) == CountBits(t, View(), category, false, 0)
      {
        if category in t[k].categories {
          var b := GetBit(t[k].id);
          if b {
            on := on + 1;
          } else {
            off := off + 1;
          }
        }
        k := k + 1;
      }
    }

    /** The branches of ACLSetUser that change the command bitmap. */
    method SetCommands(t: Table, hash: Hash, rule: Rule) returns (err: Option<Errno>)
      requires Valid() && ValidTable(t)
      requires rule.AddCommand? || rule.AddSubcommand? || rule.DelCommand? || rule.Category?
      modifies this`allcommands, this`subcommands, allowed
      ensures Reflects(Apply(t, hash, old(View()), rule), old(View()), View(), err)
    {
      if rule.Category? {
        var ok := SetBitsForCategory(t, rule.name, rule.add);
        return if ok then None else Some(ENOENT);
      }
      if !Knows(t, rule.name) {
        return Some(ENOENT);
      }
      var id := IdOf(t, rule.name);
      if rule.AddSubcommand? {
        if rule.sub == [] {
          return Some(EINVAL);
        }
        var on := GetBit(id);
        if on {
          return Some(EBUSY);
        }
        AddAllowedSubcommand(id, rule.sub);
        SetCommandBit(id, false);
      } else {
        SetCommandBit(id, rule.AddCommand?);
        subcommands := subcommands - {id};
      }
      err := None;
    }

    /** The branches that compare the rule with a fixed word. */
    method SetWord(t: Table, hash: Hash, rule: Rule)
      requires Valid() && IsWord(rule)
      modifies this, allowed
      ensures Apply(t, hash, old(View()), rule) == Ok(View())
      decreases rule.Reset?
    {
      match rule {
        case On => enabled, disabled := true, false;
        case Off => enabled, disabled := false, true;
        case AllKeys => allkeys, patterns := true, [];
        case ResetKeys => allkeys, patterns := false, [];
        case AllCommands =>
          Fill(true);
          allcommands, subcommands := true, map[];
        case NoCommands =>
          Fill(false);
          allcommands, subcommands := false, map[];
        case NoPass => nopass, passwords := true, [];
        case ResetPass => nopass, passwords := false, [];
        case Reset =>
          SetWord(t, hash, ResetPass);
          SetWord(t, hash, ResetKeys);
          SetWord(t, hash, Off);
          SetWord(t, hash, NoCommands);
      }
    }

    /** The branches that keep the lists of passwords and of key patterns. */
    method SetLists(t: Table, hash: Hash, rule: Rule) returns (err: Option<Errno>)
      requires rule.AddPass? || rule.DelPass? || rule.AddPattern?
      modifies this`passwords, this`patterns, this`nopass
      ensures Reflects(Apply(t, hash, old(View()), rule), old(View()), View(), err)
    {
      err := None;
      match rule {
        case AddPass(hashed, pass) =>
          if hashed && !IsHash(pass) {
            return Some(EBADMSG);
          }
          var p := if hashed then pass else hash(pass);
          if p !in passwords {
            passwords := passwords + [p];
          }
          nopass := false;
        case DelPass(hashed, pass) =>
          if hashed && |pass| != HASH_LEN {
            return Some(EBADMSG);
          }
          var p := if hashed then pass else hash(pass);
          if p !in passwords {
            return Some(ENODEV);
          }
          passwords := Remove(passwords, p);
        case AddPattern(p) =>
          if allkeys {
            return Some(EEXIST);
          }
          if p !in patterns {
            patterns := patterns + [p];
          }
      }
    }

    /** ACLSetUser: the rule takes effect, or an error is reported and nothing changes. */
    method Set(t: Table, hash: Hash, op: string) returns (err: Option<Errno>)
      requires Valid() && ValidTable(t)
      modifies this, allowed
      ensures Reflects(SetUser(t, hash, old(View()), op), old(View()), View(), err)
    {
      var rule := Parse(op);
      if IsWord(rule) {
        SetWord(t, hash, rule);
        err := None;
      } else if rule.AddPass? || rule.DelPass? || rule.AddPattern? {
        err := SetLists(t, hash, rule);
      } else if rule.Unknown? {
        err := Some(EINVAL);
      } else {
        err := SetCommands(t, hash, rule);
      }
    }

    /** ACLDescribeUserCommandRules: the fake user ends with the bitmap of this one, so the
        comparison after the loops never fails. */
    method DescribeCommandRules(t: Table, hash: Hash) returns (rules: seq<string>)
      requires Valid() && ValidTable(t) && R.GoodBits(t, View())
      ensures rules == Texts(DescribeCommands(t, View()))
    {
      hide CategoryRules, CategoryBits, CommandRules, CommandBits, ValidTable, R.GoodBits, Apply, SetUser, Texts, BitsBelow, R.IsCategory;
      var fake := new AclUser();
      var future := GetBit(FUTURE);
      var additive := !future;
      var op := if additive then "-@all" else "+@all";
      Sign(t, hash, fake.View(), additive);
      var err := fake.Set(t, hash, op);
      Categories();
      var cats := DescribeCategories(t, hash, additive, CATEGORIES, fake);
      ghost var bits := fake.View().bits;
      var cmds := DescribeCommandList(t, fake);
      rules := [op] + cats + cmds;
      assert fake.View().bits == View().bits by {
        R.PredictionHolds(t, View());
      }
      Printed(t, View(), bits);
    }

    /** ACLDescribeUser. */
    method DescribeUser(t: Table, hash: Hash) returns (rules: seq<string>)
      requires Valid() && ValidTable(t) && R.GoodBits(t, View())
      ensures rules == Texts(Describe(t, View()))
    {
      hide DescribeCommands, Texts, PassRules, PatternRules, ValidTable, R.GoodBits;
      rules := (if enabled then ["on"] else []) + (if disabled then ["off"] else []) + (if nopass then ["nopass"] else []);
      FlagsPrinted(View());
      var pass := DescribePasswords(passwords);
      var keys := ["~*"];
      if allkeys {
        StarPrinted();
      } else {
        keys := DescribePatterns(patterns);
      }
      var cmds := DescribeCommandRules(t, hash);
      rules := rules + pass + keys + cmds;
      AllPrinted(t, View());
    }

    /** The string it returns. */
    method DescribeLine(t: Table, hash: Hash) returns (line: string)
      requires Valid() && ValidTable(t) && R.GoodBits(t, View())
      ensures line == X.Joined(Texts(Describe(t, View())))
    {
      hide Describe, Texts, X.Joined, ValidTable, R.GoodBits;
      var rules := DescribeUser(t, hash);
      line := X.JoinTexts(rules);
    }

    method DescribeCategories(t: Table, hash: Hash, additive: bool, names: seq<string>, fake: AclUser)
      returns (rules: seq<string>)
      requires Valid() && ValidTable(t) && fake.Valid() && fake != this && fake.allowed != allowed
      requires forall j | 0 <= j < |names| :: R.IsCategory(names[j])
      modifies fake, fake.allowed
      ensures rules == Texts(CategoryRules(t, View(), additive, names))
      ensures fake.View().bits == CategoryBits(t, View(), additive, names, old(fake.View().bits))
    {
      hide ValidTable, SetUser, CategoryRules, CategoryBits, IdsIn, Texts, R.IsCategory;
      rules := [];
      var j := 0;
      ghost var u := View();
      assert names[0..] == names;
      while j < |names|
        invariant j <= |names| && View() == u
        invariant rules + Texts(CategoryRules(t, u, additive, names[j..])) == Texts(CategoryRules(t, u, additive, names))
        invariant CategoryBits(t, u, additive, names[j..], fake.View().bits)
               == CategoryBits(t, u, additive, names, old(fake.View().bits))
      {
        var more := DescribeCategory(t, hash, additive, names, j, fake);
        rules := rules + more;
        j := j + 1;
      }
      NothingLeft(t, u, additive, fake.View().bits);
      assert names[j..] == [];
    }

    /** One round of the category pass. */
    method DescribeCategory(t: Table, hash: Hash, additive: bool, names: seq<string>, j: nat, fake: AclUser)
      returns (rules: seq<string>)
      requires Valid() && ValidTable(t) && fake.Valid() && fake != this && fake.allowed != allowed
      requires j < |names| && R.IsCategory(names[j])
      modifies fake, fake.allowed
      ensures Texts(CategoryRules(t, View(), additive, names[j..]))
           == rules + Texts(CategoryRules(t, View(), additive, names[j + 1..]))
      ensures CategoryBits(t, View(), additive, names[j..], old(fake.View().bits))
           == CategoryBits(t, View(), additive, names[j + 1..], fake.View().bits)
    {
      hide ValidTable, SetUser, CategoryRules, CategoryBits, IdsIn, Texts, R.IsCategory;
      rules := [];
      var on, off := CountCategoryBits(t, names[j]);
      CategoryPrinted(t, View(), additive, names, j, fake.View().bits);
      if (additive && on > off) || (!additive && off > on) {
        var op := (if additive then "+@" else "-@") + names[j];
        CategoryText(t, hash, fake.View(), additive, names[j]);
        var err := fake.Set(t, hash, op);
        rules := [op];
      }
    }

    method DescribeCommandList(t: Table, fake: AclUser) returns (rules: seq<string>)
      requires Valid() && ValidTable(t) && fake.Valid() && fake != this && fake.allowed != allowed
      modifies fake, fake.allowed
      ensures rules == Texts(CommandRules(t, View(), old(fake.View().bits), 0))
      ensures fake.View().bits == CommandBits(t, View(), old(fake.View().bits), 0)
    {
      hide ValidTable, CommandRules, CommandBits, Texts, SubRules;
      rules := [];
      var k := 0;
      ghost var u := View();
      while k < |t|
        invariant k <= |t| && View() == u
        invariant rules + Texts(CommandRules(t, u, fake.View().bits, k)) == Texts(CommandRules(t, u, old(fake.View().bits), 0))
        invariant CommandBits(t, u, fake.View().bits, k) == CommandBits(t, u, old(fake.View().bits), 0)
      {
        var more := DescribeCommand(t, k, fake);
        rules := rules + more;
        k := k + 1;
      }
      NoCommandLeft(t, u, fake.View().bits);
    }

    /** One round of the final pass. */
    method DescribeCommand(t: Table, k: nat, fake: AclUser) returns (rules: seq<string>)
      requires Valid() && ValidTable(t) && fake.Valid() && fake != this && fake.allowed != allowed && k < |t|
      modifies fake, fake.allowed
      ensures fake.View().bits == FixBit(View(), t[k].id, old(fake.View().bits))
      ensures Texts(CommandRules(t, View(), old(fake.View().bits), k))
           == rules + Texts(CommandRules(t, View(), fake.View().bits, k + 1))
      ensures CommandBits(t, View(), old(fake.View().bits), k) == CommandBits(t, View(), fake.View().bits, k + 1)
    {
      hide CommandRules, CommandBits, Texts, SubRules, BitRule;
      rules := [];
      var userbit := GetBit(t[k].id);
      var fakebit := fake.GetBit(t[k].id);
      if userbit != fakebit {
        rules := [(if userbit then "+" else "-") + t[k].name];
        fake.SetCommandBit(t[k].id, userbit);
      }
      BitPrinted(View(), t[k], old(fake.View().bits));
      assert fake.View().bits == FixBit(View(), t[k].id, old(fake.View().bits));
      CommandPrinted(t, View(), old(fake.View().bits), k);
      if !userbit && t[k].id in subcommands {
        var subs := DescribeSubcommands(t[k].name, subcommands[t[k].id]);
        rules := rules + subs;
      }
    }
  }

  method DescribePasswords(passwords: seq<string>) returns (rules: seq<string>)
    ensures rules == Texts(PassRules(passwords))
  {
    rules := [];
    var i := 0;
    assert passwords[0..] == passwords;
    while i < |passwords|
      invariant i <= |passwords|
      invariant rules + Texts(PassRules(passwords[i..])) == Texts(PassRules(passwords))
    {
      rules := rules + ["#" + passwords[i]];
      assert passwords[i..][1..] == passwords[i + 1..];
      TextsConcat([AddPass(true, passwords[i])], PassRules(passwords[i + 1..]));
      i := i + 1;
    }
  }

  method DescribePatterns(patterns: seq<string>) returns (rules: seq<string>)
    ensures rules == Texts(PatternRules(patterns))
  {
    rules := [];
    var i := 0;
    assert patterns[0..] == patterns;
    while i < |patterns|
      invariant i <= |patterns|
      invariant rules + Texts(PatternRules(patterns[i..])) == Texts(PatternRules(patterns))
    {
      rules := rules + ["~" + patterns[i]];
      assert patterns[i..][1..] == patterns[i + 1..];
      TextsConcat([AddPattern(patterns[i])], PatternRules(patterns[i + 1..]));
      i := i + 1;
    }
  }

  method DescribeSubcommands(name: string, subs: seq<string>) returns (rules: seq<string>)
    ensures rules == Texts(SubRules(name, subs))
  {
    rules := [];
    var i := 0;
    assert subs[0..] == subs;
    while i < |subs|
      invariant i <= |subs|
      invariant rules + Texts(SubRules(name, subs[i..])) == Texts(SubRules(name, subs))
    {
      rules := rules + ["+" + name + "|" + subs[i]];
      assert subs[i..][1..] == subs[i + 1..];
      TextsConcat([AddSubcommand(name, subs[i])], SubRules(name, subs[i + 1..]));
      i := i + 1;
    }
  }

  predicate IsWord(rule: Rule) {
    || rule.On? || rule.Off? || rule.AllKeys? || rule.ResetKeys? || rule.AllCommands? || rule.NoCommands?
    || rule.NoPass? || rule.ResetPass? || rule.Reset?
  }

  lemma CategoryPrinted(t: Table, u: User, additive: bool, names: seq<string>, j: nat, bits: set<nat>)
    requires j < |names|
    ensures Texts(CategoryRules(t, u, additive, names[j..]))
         == (if Worthwhile(t, u, additive, names[j]) then [(if additive then "+@" else "-@") + names[j]] else [])
            + Texts(CategoryRules(t, u, additive, names[j + 1..]))
    ensures CategoryBits(t, u, additive, names[j..], bits)
         == CategoryBits(t, u, additive, names[j + 1..],
              if !Worthwhile(t, u, additive, names[j]) then bits
              else if additive then bits + IdsIn(t, names[j]) else bits - IdsIn(t, names[j]))
  {
    hide Worthwhile, IdsIn;
    assert names[j..][1..] == names[j + 1..];
    TextsConcat([Category(additive, names[j])], CategoryRules(t, u, additive, names[j + 1..]));
    assert Texts([Category(additive, names[j])]) == [Text(Category(additive, names[j]))];
    assert [] + CategoryRules(t, u, additive, names[j + 1..]) == CategoryRules(t, u, additive, names[j + 1..]);
  }

  lemma Categories()
    ensures forall j | 0 <= j < |CATEGORIES| :: R.IsCategory(CATEGORIES[j])
  {
  }

  lemma NothingLeft(t: Table, u: User, additive: bool, bits: set<nat>)
    ensures Texts(CategoryRules(t, u, additive, [])) == [] && CategoryBits(t, u, additive, [], bits) == bits
  {
  }

  lemma NoCommandLeft(t: Table, u: User, bits: set<nat>)
    ensures Texts(CommandRules(t, u, bits, |t|)) == [] && CommandBits(t, u, bits, |t|) == bits
  {
  }

  lemma BitPrinted(u: User, c: Command, bits: set<nat>)
    ensures Texts(BitRule(u, c, bits))
         == if (c.id in u.bits) == (c.id in bits) then [] else [(if c.id in u.bits then "+" else "-") + c.name]
  {
    var rules := BitRule(u, c, bits);
    assert rules != [] ==> Texts(rules) == [Text(rules[0])] + Texts([]);
  }

  lemma CommandPrinted(t: Table, u: User, bits: set<nat>, k: nat)
    requires k < |t|
    ensures Texts(CommandRules(t, u, bits, k))
         == Texts(BitRule(u, t[k], bits))
            + (if t[k].id !in u.bits && t[k].id in u.subcommands
               then Texts(SubRules(t[k].name, u.subcommands[t[k].id])) else [])
            + Texts(CommandRules(t, u, FixBit(u, t[k].id, bits), k + 1))
    ensures CommandBits(t, u, bits, k) == CommandBits(t, u, FixBit(u, t[k].id, bits), k + 1)
  {
    hide Text, SubRules, BitRule;
    var c := t[k];
    var subs := if c.id !in u.bits && c.id in u.subcommands then SubRules(c.name, u.subcommands[c.id]) else [];
    TextsConcat(CommandRule(u, c, bits), CommandRules(t, u, FixBit(u, c.id, bits), k + 1));
    TextsConcat(BitRule(u, c, bits), subs);
    assert Texts([]) == [];
  }

  lemma Printed(t: Table, u: User, bits: set<nat>)
    requires bits == CategoryBits(t, u, FUTURE !in u.bits, CATEGORIES, StartBits(u))
    ensures Texts(DescribeCommands(t, u))
         == [if FUTURE !in u.bits then "-@all" else "+@all"]
            + Texts(CategoryRules(t, u, FUTURE !in u.bits, CATEGORIES))
            + Texts(CommandRules(t, u, bits, 0))
  {
    hide CategoryRules, CommandRules, CategoryBits, BitsBelow, StartBits;
    var first := [if FUTURE !in u.bits then NoCommands else AllCommands];
    var cats := CategoryRules(t, u, FUTURE !in u.bits, CATEGORIES);
    TextsConcat(first, cats);
    TextsConcat(first + cats, CommandRules(t, u, bits, 0));
    assert Texts(first) == [Text(first[0])];
  }

  lemma FlagsPrinted(u: User)
    ensures Texts(DescribeFlags(u))
         == (if u.enabled then ["on"] else []) + (if u.disabled then ["off"] else []) + (if u.nopass then ["nopass"] else [])
  {
    var a := if u.enabled then [On] else [];
    var b := if u.disabled then [Off] else [];
    var c := if u.nopass then [NoPass] else [];
    TextsConcat(a, b);
    TextsConcat(a + b, c);
  }

  lemma StarPrinted()
    ensures Texts([AllKeys]) == ["~*"]
  {
  }

  lemma AllPrinted(t: Table, u: User)
    ensures Texts(Describe(t, u))
         == Texts(DescribeFlags(u)) + Texts(PassRules(u.passwords)) + Texts(DescribeKeys(u)) + Texts(DescribeCommands(t, u))
  {
    hide Texts, DescribeFlags, PassRules, DescribeKeys, DescribeCommands;
    var a, b, c := DescribeFlags(u), PassRules(u.passwords), DescribeKeys(u);
    TextsConcat(a, b);
    TextsConcat(a + b, c);
    TextsConcat(a + b + c, DescribeCommands(t, u));
  }

  /** The outcome of a rule, seen on the object. */
  predicate Reflects(r: Outcome, before: User, after: User, err: Option<Errno>) {
    match r
    case Ok(u) => err == None && after == u
    case Err(e) => err == Some(e) && after == before
  }

  lemma Sign(t: Table, hash: Hash, v: User, additive: bool)
    ensures SetUser(t, hash, v, if additive then "-@all" else "+@all")
         == Ok(v.(bits := if additive then {} else AllBits(), allcommands := !additive, subcommands := map[]))
  {
    hide Parse;
    R.ParseText(if additive then NoCommands else AllCommands);
  }

  lemma CategoryText(t: Table, hash: Hash, v: User, additive: bool, category: string)
    requires R.IsCategory(category)
    ensures SetUser(t, hash, v, (if additive then "+@" else "-@") + category)
         == Ok(SetCategory(t, v, category, additive))
  {
    hide Parse, SetCategory;
    R.ParseText(Category(additive, category));
    R.CategoryFound(category, 0);
  }
}
