/** What each rule text of ACLSetUser does, rule by rule: the whole new user, or the error. */
module AclRules {
  import opened Wrappers
  import opened Strings
  import opened Acl
  import R = AclRoundTrip

  lemma Words()
    ensures Lower("on") == "on" && Lower("off") == "off" && Lower("allkeys") == "allkeys" && Lower("~*") == "~*"
    ensures Lower("resetkeys") == "resetkeys" && Lower("allcommands") == "allcommands" && Lower("+@all") == "+@all"
    ensures Lower("nocommands") == "nocommands" && Lower("-@all") == "-@all" && Lower("nopass") == "nopass"
    ensures Lower("resetpass") == "resetpass" && Lower("reset") == "reset"
  {
  }

  lemma FirstLower(s: string)
    requires s != []
    ensures Lower(s) != [] && Lower(s)[0] == LowerChar(s[0])
  {
  }

  /** The words, in whatever letters: what becomes of the user. */
  lemma WordRules(t: Table, hash: Hash, u: User, op: string)
    ensures var word, r := Lower(CString(op)), SetUser(t, hash, u, op);
            && (word == "on" ==> r == Ok(u.(enabled := true, disabled := false)))
            && (word == "off" ==> r == Ok(u.(enabled := false, disabled := true)))
            && (word == "allkeys" || word == "~*" ==> r == Ok(u.(allkeys := true, patterns := [])))
            && (word == "resetkeys" ==> r == Ok(u.(allkeys := false, patterns := [])))
            && (word == "nopass" ==> r == Ok(u.(nopass := true, passwords := [])))
            && (word == "resetpass" ==> r == Ok(u.(nopass := false, passwords := [])))
  {
    hide Lower, CString, AllBits, IndexOf, Knows, FindCategory;
    Words();
  }

  lemma AllRules(t: Table, hash: Hash, u: User, op: string)
    ensures var word, r := Lower(CString(op)), SetUser(t, hash, u, op);
            && (word == "allcommands" || word == "+@all" ==>
                  && r.Ok? && r.user == u.(bits := r.user.bits, allcommands := true, subcommands := map[])
                  && forall id: nat :: id in r.user.bits <==> id < BITS)
            && (word == "nocommands" || word == "-@all" ==>
                  r == Ok(u.(bits := {}, allcommands := false, subcommands := map[])))
  {
    hide Lower, CString, BitsBelow, IndexOf, Knows, FindCategory;
    Words();
  }

  /** "reset" is "resetpass", "resetkeys", "off" and "-@all", one after the other. */
  lemma ResetRule(t: Table, hash: Hash, u: User, op: string)
    requires Lower(CString(op)) == "reset"
    ensures SetUser(t, hash, u, op) == SetAll(t, hash, u, ["resetpass", "resetkeys", "off", "-@all"])
    ensures SetUser(t, hash, u, op) == Ok(NEW_USER)
  {
    hide SetUser, Lower, SetAll, CString;
    ResetIs(t, hash, u, op);
    var u1 := u.(nopass := false, passwords := []);
    var u2 := u1.(allkeys := false, patterns := []);
    var u3 := u2.(enabled := false, disabled := true);
    FourWords(t, hash, u);
    FourWords(t, hash, u1);
    FourWords(t, hash, u2);
    FourWords(t, hash, u3);
    Four(t, hash, u, u1, u2, u3, NEW_USER, "resetpass", "resetkeys", "off", "-@all");
  }

  lemma FourWords(t: Table, hash: Hash, u: User)
    ensures SetUser(t, hash, u, "resetpass") == Ok(u.(nopass := false, passwords := []))
    ensures SetUser(t, hash, u, "resetkeys") == Ok(u.(allkeys := false, patterns := []))
    ensures SetUser(t, hash, u, "off") == Ok(u.(enabled := false, disabled := true))
    ensures SetUser(t, hash, u, "-@all") == Ok(u.(bits := {}, allcommands := false, subcommands := map[]))
  {
    hide SetUser, Lower, CString;
    Words();
    WordRules(t, hash, u, "resetpass");
    WordRules(t, hash, u, "resetkeys");
    WordRules(t, hash, u, "off");
    AllRules(t, hash, u, "-@all");
  }

  lemma ResetIs(t: Table, hash: Hash, u: User, op: string)
    requires Lower(CString(op)) == "reset"
    ensures SetUser(t, hash, u, op) == Ok(NEW_USER)
  {
    hide Lower, CString, AllBits, IndexOf, Knows, FindCategory;
    Words();
    FirstLower(CString(op));
  }

  const WORDS := {"on", "off", "allkeys", "resetkeys", "allcommands", "nocommands", "nopass", "resetpass", "reset"}

  /** A text that is no word and begins with no sign is refused. */
  lemma NoRule(t: Table, hash: Hash, u: User, op: string)
    requires Lower(CString(op)) !in WORDS && (CString(op) == [] || CString(op)[0] !in "><#!~+-")
    ensures SetUser(t, hash, u, op) == Err(EINVAL)
  {
    hide Lower, CString, AllBits, IndexOf, Knows, FindCategory;
    Words();
    var c := CString(op);
    if c != [] {
      FirstLower(c);
    }
  }

  lemma Four(t: Table, hash: Hash, u: User, u1: User, u2: User, u3: User, u4: User, a: string, b: string, c: string, d: string)
    requires SetUser(t, hash, u, a) == Ok(u1) && SetUser(t, hash, u1, b) == Ok(u2)
    requires SetUser(t, hash, u2, c) == Ok(u3) && SetUser(t, hash, u3, d) == Ok(u4)
    ensures SetAll(t, hash, u, [a, b, c, d]) == Ok(u4)
  {
    hide SetUser;
    assert [a, b, c, d][1..] == [b, c, d] && [b, c, d][1..] == [c, d] && [c, d][1..] == [d] && [d][1..] == [];
    assert SetAll(t, hash, u3, [d]) == Ok(u4);
    assert SetAll(t, hash, u2, [c, d]) == Ok(u4);
  }

  // --------------------------------------------------------------- passwords and patterns

  /** 64 hexadecimal digits in small letters. */
  predicate HashText(p: string) {
    |p| == 64 && forall i | 0 <= i < |p| :: p[i] in "0123456789abcdef"
  }

  /** A text that begins with a sign is none of the words. */
  lemma Signed(op: string)
    requires op != [] && op[0] in "><#!"
    ensures Parse(op) == if op[0] == '>' || op[0] == '#' then AddPass(op[0] == '#', op[1..]) else DelPass(op[0] == '!', op[1..])
  {
    hide Lower, IndexOf;
    Words();
    var c := CString(op);
    assert c != [] && c[0] == op[0];
    FirstLower(c);
  }

  /** A password is added once, at the end, and the user needs one from then on. A hash is taken
      as it is if it is one. */
  lemma AddPassword(t: Table, hash: Hash, u: User, p: string)
    ensures var add := x => Ok(u.(nopass := false, passwords := if x in u.passwords then u.passwords else u.passwords + [x]));
            && SetUser(t, hash, u, ">" + p) == add(hash(p))
            && SetUser(t, hash, u, "#" + p) == if HashText(p) then add(p) else Err(EBADMSG)
  {
    hide Parse, CString, Lower;
    Signed(">" + p);
    Signed("#" + p);
    assert (">" + p)[1..] == p && ("#" + p)[1..] == p;
    HashTexts(p);
  }

  lemma HashTexts(p: string)
    ensures HashText(p) <==> IsHash(p)
  {
    var digits := "0123456789abcdef";
    forall c: char ensures c in digits <==> 'a' <= c <= 'f' || '0' <= c <= '9' {
      assert c in digits <==> c in ['0', '1', '2', '3', '4', '5', '6', '7', '8', '9', 'a', 'b', 'c', 'd', 'e', 'f'];
    }
  }

  /** One password less, the others in their order. */
  ghost predicate WithoutOne(old_: seq<string>, x: string, new_: seq<string>) {
    exists i | 0 <= i < |old_| :: old_[i] == x && new_ == old_[..i] + old_[i + 1..]
  }

  /** What a removal has to do to the passwords, and to nothing else. */
  ghost predicate Forgets(u: User, x: string, r: Outcome) {
    if x !in u.passwords then r == Err(ENODEV)
    else
      && r.Ok? && r.user == u.(passwords := r.user.passwords)
      && WithoutOne(u.passwords, x, r.user.passwords)
      && (R.Distinct(u.passwords) ==> x !in r.user.passwords)
  }

  lemma Forgotten(t: Table, hash: Hash, u: User, hashed: bool, p: string)
    requires hashed ==> |p| == 64
    ensures Forgets(u, if hashed then p else hash(p), Apply(t, hash, u, DelPass(hashed, p)))
  {
    hide Find, Remove, R.Distinct, WithoutOne;
    var x := if hashed then p else hash(p);
    if x in u.passwords {
      Removed(u.passwords, x);
    }
  }

  /** A password is removed if it is there; otherwise the error says that it is not. */
  lemma RemovePassword(t: Table, hash: Hash, u: User, p: string)
    ensures Forgets(u, hash(p), SetUser(t, hash, u, "<" + p))
    ensures |p| == 64 ==> Forgets(u, p, SetUser(t, hash, u, "!" + p))
    ensures |p| != 64 ==> SetUser(t, hash, u, "!" + p) == Err(EBADMSG)
  {
    hide Parse, CString, Lower, Find, Forgets, Remove;
    Signed("<" + p);
    Signed("!" + p);
    assert ("<" + p)[1..] == p && ("!" + p)[1..] == p;
    Forgotten(t, hash, u, false, p);
    if |p| == 64 {
      Forgotten(t, hash, u, true, p);
    }
  }

  /** A user made by rules, whichever they were, knows no password after its removal. */
  lemma RemovedForGood(t: Table, hash: Hash, ops: seq<string>, p: string)
    requires ValidTable(t) && R.GoodHash(hash)
    ensures var u := SetAll(t, hash, NEW_USER, ops);
            u.Ok? ==>
              && var r := SetUser(t, hash, u.user, "<" + p);
              if hash(p) in u.user.passwords then r.Ok? && hash(p) !in r.user.passwords else r == Err(ENODEV)
  {
    hide SetAll, SetUser, Lower, CString, WithoutOne;
    assert R.Good(t, NEW_USER);
    R.SetAllKeeps(t, hash, NEW_USER, ops);
    var u := SetAll(t, hash, NEW_USER, ops);
    if u.Ok? {
      assert R.Distinct(u.user.passwords);
      RemovePassword(t, hash, u.user, p);
    }
  }

  lemma Removed(s: seq<string>, x: string)
    requires x in s
    ensures WithoutOne(s, x, Remove(s, x))
    ensures R.Distinct(s) ==> x !in Remove(s, x)
  {
    var f := Find(s, x);
    assert s[f] == x && Remove(s, x) == s[..f] + s[f + 1..];
    if R.Distinct(s) {
      forall i | 0 <= i < |Remove(s, x)| ensures Remove(s, x)[i] != x {
        assert Remove(s, x)[i] == s[if i < f then i else i + 1];
      }
    }
  }

  /** A pattern is added once, at the end, unless all keys are allowed already; "*" allows them. */
  lemma PatternRule(t: Table, hash: Hash, u: User, p: string)
    ensures SetUser(t, hash, u, "~" + p) ==
            if CString(p) == "*" then Ok(u.(allkeys := true, patterns := []))
            else if u.allkeys then Err(EEXIST)
            else Ok(u.(patterns := if p in u.patterns then u.patterns else u.patterns + [p]))
  {
    hide Parse, CString, Text, Lower;
    if CString(p) == "*" {
      R.CStringCons('~', p);
      Words();
      WordRules(t, hash, u, "~" + p);
    } else {
      R.ParseText(AddPattern(p));
      PatternText(p);
    }
  }

  lemma PatternText(p: string)
    ensures Text(AddPattern(p)) == "~" + p
  {
  }

  // ---------------------------------------------------------------------------- commands

  /** The name can stand alone behind a sign. */
  predicate Plain(name: string) {
    name != [] && name[0] != '@' && '|' !in name && '\0' !in name
  }

  /** Command k of the table bears the name, in whatever letters. */
  predicate Bears(t: Table, k: nat, name: string)
    requires k < |t|
  {
    Lower(t[k].name) == Lower(name)
  }

  lemma CommandTexts(name: string, sub: string)
    requires Plain(name) && '\0' !in sub
    ensures Parse("+" + name) == AddCommand(name) && Parse("-" + name) == DelCommand(name)
    ensures Parse("+" + name + "|" + sub) == AddSubcommand(name, sub)
  {
    hide Parse, Text;
    R.ParseText(AddCommand(name));
    R.ParseText(DelCommand(name));
    R.ParseText(AddSubcommand(name, sub));
    assert Text(AddCommand(name)) == "+" + name && Text(DelCommand(name)) == "-" + name
        && Text(AddSubcommand(name, sub)) == "+" + name + "|" + sub by { CommandText(name, sub); }
  }

  lemma CommandText(name: string, sub: string)
    ensures Text(AddCommand(name)) == "+" + name && Text(DelCommand(name)) == "-" + name
    ensures Text(AddSubcommand(name, sub)) == "+" + name + "|" + sub
  {
  }

  lemma Alike(a: string, b: string, c: string)
    ensures EqualNoCase(a, b) <==> Lower(a) == Lower(b)
    ensures EqualNoCase(a, b) && EqualNoCase(c, b) ==> EqualNoCase(a, c)
  {
  }

  lemma TheId(t: Table, k: nat, name: string)
    requires ValidTable(t) && k < |t| && Bears(t, k, name)
    ensures Knows(t, name) && IdOf(t, name) == t[k].id && t[k].id < BITS
  {
    hide IdOf, EqualNoCase;
    assert EqualNoCase(t[k].name, name) by { Alike(t[k].name, name, name); }
    var l :| 0 <= l < |t| && EqualNoCase(t[l].name, name) && IdOf(t, name) == t[l].id;
    Alike(t[k].name, name, t[l].name);
    R.UniqueName(t, k, l);
  }

  lemma NobodyBears(t: Table, name: string)
    requires forall k | 0 <= k < |t| :: !Bears(t, k, name)
    ensures !Knows(t, name)
  {
    hide Lower;
    forall k | 0 <= k < |t| ensures !EqualNoCase(t[k].name, name) {
      assert !Bears(t, k, name);
    }
  }

  /** "+cmd" allows the command with all its subcommands and changes nothing for any other;
      "-cmd" takes it away with all of them, and no user without it has all commands. */
  lemma CommandExactly(t: Table, hash: Hash, u: User, name: string, k: nat)
    requires ValidTable(t) && Plain(name) && k < |t| && Bears(t, k, name)
    ensures SetUser(t, hash, u, "+" + name)
         == Ok(u.(bits := u.bits + {t[k].id}, subcommands := u.subcommands - {t[k].id}))
    ensures SetUser(t, hash, u, "-" + name)
         == Ok(u.(bits := u.bits - {t[k].id}, subcommands := u.subcommands - {t[k].id}, allcommands := false))
  {
    hide Parse, IdOf, Knows, Lower, ValidTable;
    CommandTexts(name, "");
    TheId(t, k, name);
  }

  /** "+cmd|sub" allows the subcommand of a command that is not allowed as a whole. */
  lemma SubcommandExactly(t: Table, hash: Hash, u: User, name: string, sub: string, k: nat)
    requires ValidTable(t) && Plain(name) && '\0' !in sub && k < |t| && Bears(t, k, name)
    ensures var id := t[k].id;
            var subs := if id in u.subcommands then u.subcommands[id] else [];
            SetUser(t, hash, u, "+" + name + "|" + sub) ==
              if sub == "" then Err(EINVAL)
              else if id in u.bits then Err(EBUSY)
              else if exists i | 0 <= i < |subs| :: Lower(subs[i]) == Lower(sub) then Ok(u.(allcommands := false))
              else Ok(u.(allcommands := false, subcommands := u.subcommands[id := subs + [sub]]))
  {
    hide Parse, IdOf, Knows, Lower, ValidTable, Lists;
    CommandTexts(name, sub);
    TheId(t, k, name);
    var id := t[k].id;
    ListsIs(if id in u.subcommands then u.subcommands[id] else [], sub);
    assert id !in u.bits ==> u.bits - {id} == u.bits;
  }

  lemma ListsIs(subs: seq<string>, sub: string)
    ensures Lists(subs, sub) <==> exists i | 0 <= i < |subs| :: Lower(subs[i]) == Lower(sub)
  {
    hide Lower;
    if Lists(subs, sub) {
      var i :| 0 <= i < |subs| && EqualNoCase(subs[i], sub);
      assert Lower(subs[i]) == Lower(sub);
    }
    if i :| 0 <= i < |subs| && Lower(subs[i]) == Lower(sub) {
      assert EqualNoCase(subs[i], sub);
    }
  }

  /** A command that the table does not hold is refused. */
  lemma UnknownCommand(t: Table, hash: Hash, u: User, name: string, sub: string)
    requires Plain(name) && '\0' !in sub && forall k | 0 <= k < |t| :: !Bears(t, k, name)
    ensures SetUser(t, hash, u, "+" + name) == SetUser(t, hash, u, "-" + name)
         == SetUser(t, hash, u, "+" + name + "|" + sub) == Err(ENOENT)
  {
    hide Parse, IdOf, Knows, Lower;
    CommandTexts(name, sub);
    NobodyBears(t, name);
  }

  // -------------------------------------------------------------------------- categories

  /** The commands of the table in the category, other than those of modules. */
  predicate InCategory(c: Command, category: string) {
    !c.isModule && category in c.categories
  }

  lemma {:induction false} FoundExactly(name: string, j: nat)
    ensures (exists i | j <= i < |CATEGORIES| :: CATEGORIES[i] == Lower(name)) ==> FindCategory(name, j) == Some(Lower(name))
    ensures !(exists i | j <= i < |CATEGORIES| :: CATEGORIES[i] == Lower(name)) ==> FindCategory(name, j) == None
    decreases |CATEGORIES| - j
  {
    hide Lower, FindCategory;
    FindStep(name, j);
    if j < |CATEGORIES| {
      FoundExactly(name, j + 1);
      assert R.IsCategory(CATEGORIES[j]);
      R.CategoryNames(CATEGORIES[j]);
    }
  }

  lemma FindStep(name: string, j: nat)
    ensures FindCategory(name, j) ==
            if j >= |CATEGORIES| then None
            else if Lower(name) == Lower(CATEGORIES[j]) then Some(CATEGORIES[j])
            else FindCategory(name, j + 1)
  {
  }

  lemma CategoryText(sign: char, name: string)
    requires (sign == '+' || sign == '-') && '\0' !in name && Lower(name) != "all"
    ensures Parse([sign] + "@" + name) == Category(sign == '+', name)
  {
    hide Lower, CString, IndexOf;
    var op := [sign] + "@" + name;
    Words();
    FirstLower(op);
    assert op[2..] == name && '\0' !in op;
    NotAllText(op, name);
  }

  lemma NotAllText(op: string, name: string)
    requires |op| >= 2 && op[2..] == name && Lower(name) != "all"
    ensures Lower(op) != "+@all" && Lower(op) != "-@all"
  {
    assert Lower(op)[2..] == Lower(name);
    assert "+@all"[2..] == "all" && "-@all"[2..] == "all";
  }

  /** "+@cat" allows, "-@cat" takes away, exactly the commands of the category, each with all
      its subcommands; every other command keeps its bit and its subcommands. */
  lemma CategoryExactly(t: Table, hash: Hash, u: User, sign: char, name: string)
    requires (sign == '+' || sign == '-') && '\0' !in name && Lower(name) != "all"
    ensures Lower(name) !in CATEGORIES ==> SetUser(t, hash, u, [sign] + "@" + name) == Err(ENOENT)
    ensures Lower(name) in CATEGORIES ==>
              var r := SetUser(t, hash, u, [sign] + "@" + name);
              && r.Ok? && r.user == u.(bits := r.user.bits, subcommands := r.user.subcommands, allcommands := r.user.allcommands)
              && (forall k | 0 <= k < |t| && InCategory(t[k], Lower(name)) ::
                    (t[k].id in r.user.bits <==> sign == '+') && t[k].id !in r.user.subcommands)
              && (forall id | (forall k | 0 <= k < |t| && InCategory(t[k], Lower(name)) :: t[k].id != id) ::
                    && (id in r.user.bits <==> id in u.bits)
                    && (id in r.user.subcommands <==> id in u.subcommands)
                    && (id in u.subcommands ==> r.user.subcommands[id] == u.subcommands[id]))
              && (r.user.allcommands <==>
                    u.allcommands && (sign == '+' || forall k | 0 <= k < |t| :: !InCategory(t[k], Lower(name))))
  {
    hide Parse, Lower, FindCategory;
    CategoryText(sign, name);
    FoundExactly(name, 0);
    var category := Lower(name);
    if category in CATEGORIES {
      var i :| 0 <= i < |CATEGORIES| && CATEGORIES[i] == category;
      CategoryTouches(t, u, category, sign == '+');
    }
  }

  lemma CategoryTouches(t: Table, u: User, category: string, on: bool)
    ensures var v := SetCategory(t, u, category, on);
            && v == u.(bits := v.bits, subcommands := v.subcommands, allcommands := v.allcommands)
            && (forall k | 0 <= k < |t| && InCategory(t[k], category) :: (t[k].id in v.bits <==> on) && t[k].id !in v.subcommands)
            && (forall id | (forall k | 0 <= k < |t| && InCategory(t[k], category) :: t[k].id != id) ::
                  && (id in v.bits <==> id in u.bits)
                  && (id in v.subcommands <==> id in u.subcommands)
                  && (id in u.subcommands ==> v.subcommands[id] == u.subcommands[id]))
            && (v.allcommands <==> u.allcommands && (on || forall k | 0 <= k < |t| :: !InCategory(t[k], category)))
  {
    var ids := IdsIn(t, category);
    forall k | 0 <= k < |t| && InCategory(t[k], category) ensures t[k].id in ids {}
    if ids != {} {
      var id :| id in ids;
      var k :| 0 <= k < |t| && !t[k].isModule && category in t[k].categories && t[k].id == id;
      assert InCategory(t[k], category);
    }
  }
}
