/**
 Access control rules: ACLSetUser as an interpreter of rule texts over the state of a
 user, and ACLDescribeUser as the printer that must rebuild that state.
 */
module Acl {
  import opened Wrappers
  import opened Strings

  const BITS: nat := 1024                  // USER_COMMAND_BITS_COUNT
  const FUTURE: nat := BITS - 1            // the reserved bit of "future commands"
  const HASH_LEN: nat := 64

  datatype Command = Command(name: string, id: nat, categories: set<string>, isModule: bool)

  /** server.orig_commands in the order its iterator visits it. */
  type Table = seq<Command>

  const CATEGORIES: seq<string> := [
    "keyspace", "read", "write", "set", "sortedset", "list", "hash", "string", "bitmap",
    "hyperloglog", "geo", "stream", "pubsub", "admin", "fast", "slow", "blocking", "dangerous",
    "connection", "transaction", "scripting"]

  /** Names and IDs are unique, and names can stand after '+' or '-'. */
  ghost predicate ValidTable(t: Table) {
    && (forall k | 0 <= k < |t| :: t[k].id < FUTURE && ValidName(t[k].name))
    && (forall k, l | 0 <= k < l < |t| :: t[k].id != t[l].id && !EqualNoCase(t[k].name, t[l].name))
  }

  predicate ValidName(name: string) {
    name != [] && name[0] != '@' && '|' !in name && '\0' !in name
  }

  datatype User = User(
    enabled: bool,
    disabled: bool,
    allkeys: bool,
    allcommands: bool,
    nopass: bool,
    passwords: seq<string>,
    patterns: seq<string>,
    bits: set<nat>,
    subcommands: map<nat, seq<string>>)

  /** ACLCreateUser. */
  const NEW_USER := User(false, true, false, false, false, [], [], {}, map[])

  function AllBits(): (r: set<nat>)
    ensures forall i: nat :: i in r <==> i < BITS
  {
    BitsBelow(BITS)
  }

  function BitsBelow(n: nat): (r: set<nat>)
    ensures forall i: nat :: i in r <==> i < n
  {
    if n == 0 then {} else BitsBelow(n - 1) + {n - 1}
  }

  // ------------------------------------------------------------------------- rules

  datatype Rule =
    | On | Off | AllKeys | ResetKeys | AllCommands | NoCommands | NoPass | ResetPass | Reset
    | AddPass(hashed: bool, pass: string)
    | DelPass(hashed: bool, pass: string)
    | AddPattern(pattern: string)
    | AddCommand(name: string)
    | AddSubcommand(name: string, sub: string)
    | DelCommand(name: string)
    | Category(add: bool, name: string)
    | Unknown

  function IndexOf(s: string, c: char): (i: nat)
    ensures i <= |s| && c !in s[..i] && (i < |s| ==> s[i] == c) && (i == |s| ==> c !in s)
  {
    if s == [] || s[0] == c then 0
    else
      var i := 1 + IndexOf(s[1..], c);
      assert s[..i] == [s[0]] + s[1..][..i - 1];
      i
  }

  /** The test chain of ACLSetUser. Passwords and patterns are taken from the whole buffer,
      everything else from the C string in it. */
  function Parse(op: string): Rule {
    var c := CString(op);
    if EqualNoCase(c, "on") then On
    else if EqualNoCase(c, "off") then Off
    else if EqualNoCase(c, "allkeys") || EqualNoCase(c, "~*") then AllKeys
    else if EqualNoCase(c, "resetkeys") then ResetKeys
    else if EqualNoCase(c, "allcommands") || EqualNoCase(c, "+@all") then AllCommands
    else if EqualNoCase(c, "nocommands") || EqualNoCase(c, "-@all") then NoCommands
    else if EqualNoCase(c, "nopass") then NoPass
    else if EqualNoCase(c, "resetpass") then ResetPass
    else if c != [] && (c[0] == '>' || c[0] == '#') then AddPass(c[0] == '#', op[1..])
    else if c != [] && (c[0] == '<' || c[0] == '!') then DelPass(c[0] == '!', op[1..])
    else if c != [] && c[0] == '~' then AddPattern(op[1..])
    else if c != [] && c[0] == '+' && !(|c| > 1 && c[1] == '@') then
      if '|' !in c then AddCommand(c[1..])
      else
        var bar := IndexOf(c[1..], '|');
        AddSubcommand(c[1..][..bar], if bar < |c[1..]| then c[1..][bar + 1..] else [])
    else if c != [] && c[0] == '-' && !(|c| > 1 && c[1] == '@') then DelCommand(c[1..])
    else if |c| > 1 && (c[0] == '+' || c[0] == '-') && c[1] == '@' then Category(c[0] == '+', c[2..])
    else if EqualNoCase(c, "reset") then Reset
    else Unknown
  }

  datatype Errno = EINVAL | ENOENT | EBUSY | EEXIST | ENODEV | EBADMSG

  datatype Outcome = Ok(user: User) | Err(errno: Errno)

  type Hash = string -> string

  predicate IsHash(p: string) {
    |p| == HASH_LEN && forall i | 0 <= i < |p| :: 'a' <= p[i] <= 'f' || '0' <= p[i] <= '9'
  }

  // -------------------------------------------------------------------- the command bits

  predicate Knows(t: Table, name: string) {
    exists k | 0 <= k < |t| :: EqualNoCase(t[k].name, name)
  }

  /** ACLGetCommandID for a command that is in the table. */
  function IdOf(t: Table, name: string): (id: nat)
    requires Knows(t, name)
    ensures exists k | 0 <= k < |t| :: EqualNoCase(t[k].name, name) && id == t[k].id
  {
    if EqualNoCase(t[0].name, name) then t[0].id
    else
      assert forall k | 0 < k < |t| :: t[k] == t[1..][k - 1];
      assert Knows(t[1..], name);
      IdOf(t[1..], name)
  }

  /** ACLSetUserCommandBit. */
  function SetBit(u: User, id: nat, on: bool): User {
    var u1 := if on then u else u.(allcommands := false);
    if id >= BITS then u1
    else u1.(bits := if on then u1.bits + {id} else u1.bits - {id})
  }

  function ResetSubs(u: User, id: nat): User {
    u.(subcommands := u.subcommands - {id})
  }

  /** The commands a category rule touches. */
  function IdsIn(t: Table, category: string): set<nat> {
    set k | 0 <= k < |t| && !t[k].isModule && category in t[k].categories :: t[k].id
  }

  function FindCategory(name: string, j: nat): Option<string>
    decreases |CATEGORIES| - j
  {
    if j >= |CATEGORIES| then None
    else if EqualNoCase(name, CATEGORIES[j]) then Some(CATEGORIES[j])
    else FindCategory(name, j + 1)
  }

  /** ACLSetUserCommandBitsForCategory, for a category that exists. */
  function SetCategory(t: Table, u: User, category: string, on: bool): User {
    var ids := IdsIn(t, category);
    u.(bits := if on then u.bits + ids else u.bits - ids,
       allcommands := u.allcommands && (on || ids == {}),
       subcommands := u.subcommands - ids)
  }

  predicate Lists(subs: seq<string>, sub: string) {
    exists i | 0 <= i < |subs| :: EqualNoCase(subs[i], sub)
  }

  /** ACLAddAllowedSubcommand. */
  function AddSub(u: User, id: nat, sub: string): User {
    var subs := if id in u.subcommands then u.subcommands[id] else [];
    if Lists(subs, sub) then u else u.(subcommands := u.subcommands[id := subs + [sub]])
  }

  // --------------------------------------------------------------------- interpretation

  /** listSearchKey: the first node that holds x. */
  function Find(s: seq<string>, x: string): (i: nat)
    requires x in s
    ensures i < |s| && s[i] == x && x !in s[..i]
  {
    if s[0] == x then 0
    else
      var i := 1 + Find(s[1..], x);
      assert s[..i] == [s[0]] + s[1..][..i - 1];
      i
  }

  function Remove(s: seq<string>, x: string): seq<string>
    requires x in s
  {
    s[..Find(s, x)] + s[Find(s, x) + 1..]
  }

  /** The rules that are single words; reset is made of four others. */
  function ApplyWord(u: User, rule: Rule): User
    decreases rule.Reset?
  {
    match rule
    case On => u.(enabled := true, disabled := false)
    case Off => u.(enabled := false, disabled := true)
    case AllKeys => u.(allkeys := true, patterns := [])
    case ResetKeys => u.(allkeys := false, patterns := [])
    case AllCommands => u.(bits := AllBits(), allcommands := true, subcommands := map[])
    case NoCommands => u.(bits := {}, allcommands := false, subcommands := map[])
    case NoPass => u.(nopass := true, passwords := [])
    case ResetPass => u.(nopass := false, passwords := [])
    case Reset => ApplyWord(ApplyWord(ApplyWord(ApplyWord(u, ResetPass), ResetKeys), Off), NoCommands)
    case _ => u
  }

  function Apply(t: Table, hash: Hash, u: User, rule: Rule): Outcome {
    match rule
    case AddPass(hashed, pass) =>
      if hashed && !IsHash(pass) then Err(EBADMSG)
      else
        var p := if hashed then pass else hash(pass);
        Ok(u.(nopass := false, passwords := if p in u.passwords then u.passwords else u.passwords + [p]))
    case DelPass(hashed, pass) =>
      if hashed && |pass| != HASH_LEN then Err(EBADMSG)
      else
        var p := if hashed then pass else hash(pass);
        if p in u.passwords then Ok(u.(passwords := Remove(u.passwords, p))) else Err(ENODEV)
    case AddPattern(p) =>
      if u.allkeys then Err(EEXIST)
      else Ok(u.(patterns := if p in u.patterns then u.patterns else u.patterns + [p]))
    case AddCommand(name) =>
      if !Knows(t, name) then Err(ENOENT)
      else Ok(ResetSubs(SetBit(u, IdOf(t, name), true), IdOf(t, name)))
    case AddSubcommand(name, sub) =>
      if !Knows(t, name) then Err(ENOENT)
      else if sub == [] then Err(EINVAL)
      else if IdOf(t, name) in u.bits then Err(EBUSY)
      else Ok(SetBit(AddSub(u, IdOf(t, name), sub), IdOf(t, name), false))
    case DelCommand(name) =>
      if !Knows(t, name) then Err(ENOENT)
      else Ok(ResetSubs(SetBit(u, IdOf(t, name), false), IdOf(t, name)))
    case Category(add, name) =>
      var category := FindCategory(name, 0);
      if category.None? then Err(ENOENT) else Ok(SetCategory(t, u, category.value, add))
    case Unknown => Err(EINVAL)
    case _ => Ok(ApplyWord(u, rule))
  }

  /** ACLSetUser. */
  function SetUser(t: Table, hash: Hash, u: User, op: string): Outcome {
    Apply(t, hash, u, Parse(op))
  }

  function SetAll(t: Table, hash: Hash, u: User, ops: seq<string>): Outcome
    decreases |ops|
  {
    if ops == [] then Ok(u)
    else
      match SetUser(t, hash, u, ops[0])
      case Ok(u1) => SetAll(t, hash, u1, ops[1..])
      case Err(e) => Err(e)
  }

  function ApplyAll(t: Table, hash: Hash, u: User, rules: seq<Rule>): Outcome
    decreases |rules|
  {
    if rules == [] then Ok(u)
    else
      match Apply(t, hash, u, rules[0])
      case Ok(u1) => ApplyAll(t, hash, u1, rules[1..])
      case Err(e) => Err(e)
  }

  // ----------------------------------------------------------------------- description

  function Text(rule: Rule): string {
    match rule
    case On => "on"
    case Off => "off"
    case AllKeys => "~*"
    case ResetKeys => "resetkeys"
    case AllCommands => "+@all"
    case NoCommands => "-@all"
    case NoPass => "nopass"
    case ResetPass => "resetpass"
    case Reset => "reset"
    case AddPass(hashed, pass) => (if hashed then "#" else ">") + pass
    case DelPass(hashed, pass) => (if hashed then "!" else "<") + pass
    case AddPattern(p) => "~" + p
    case AddCommand(name) => "+" + name
    case AddSubcommand(name, sub) => "+" + name + "|" + sub
    case DelCommand(name) => "-" + name
    case Category(add, name) => (if add then "+@" else "-@") + name
    case Unknown => ""
  }

  /** ACLCountCategoryBitsForUser: how many commands of a category are on, from the k-th on.
      Commands of modules are counted too. */
  function CountBits(t: Table, u: User, category: string, on: bool, k: nat): nat
    decreases |t| - k
  {
    if k >= |t| then 0
    else (if category in t[k].categories && (t[k].id in u.bits) == on then 1 else 0) + CountBits(t, u, category, on, k + 1)
  }

  predicate Worthwhile(t: Table, u: User, additive: bool, category: string) {
    var on, off := CountBits(t, u, category, true, 0), CountBits(t, u, category, false, 0);
    (additive && on > off) || (!additive && off > on)
  }

  /** The category rules, for the categories still to be tried. */
  function CategoryRules(t: Table, u: User, additive: bool, names: seq<string>): seq<Rule> {
    if names == [] then []
    else (if Worthwhile(t, u, additive, names[0]) then [Category(additive, names[0])] else [])
         + CategoryRules(t, u, additive, names[1..])
  }

  /** The bits of the fake user after those rules. */
  function CategoryBits(t: Table, u: User, additive: bool, names: seq<string>, bits: set<nat>): set<nat> {
    if names == [] then bits
    else
      var ids := IdsIn(t, names[0]);
      var bits1 := if !Worthwhile(t, u, additive, names[0]) then bits
                   else if additive then bits + ids else bits - ids;
      CategoryBits(t, u, additive, names[1..], bits1)
  }

  function SubRules(name: string, subs: seq<string>): seq<Rule> {
    if subs == [] then [] else [AddSubcommand(name, subs[0])] + SubRules(name, subs[1..])
  }

  /** What the final pass emits for the bit of one command, given the fake user's bits. */
  function BitRule(u: User, c: Command, bits: set<nat>): seq<Rule> {
    if (c.id in u.bits) == (c.id in bits) then []
    else [if c.id in u.bits then AddCommand(c.name) else DelCommand(c.name)]
  }

  function CommandRule(u: User, c: Command, bits: set<nat>): seq<Rule> {
    BitRule(u, c, bits)
    + (if c.id !in u.bits && c.id in u.subcommands then SubRules(c.name, u.subcommands[c.id]) else [])
  }

  function FixBit(u: User, id: nat, bits: set<nat>): set<nat> {
    if id in u.bits then bits + {id} else bits - {id}
  }

  function CommandRules(t: Table, u: User, bits: set<nat>, k: nat): seq<Rule>
    decreases |t| - k
  {
    if k >= |t| then []
    else CommandRule(u, t[k], bits) + CommandRules(t, u, FixBit(u, t[k].id, bits), k + 1)
  }

  function CommandBits(t: Table, u: User, bits: set<nat>, k: nat): set<nat>
    decreases |t| - k
  {
    if k >= |t| then bits else CommandBits(t, u, FixBit(u, t[k].id, bits), k + 1)
  }

  function StartBits(u: User): set<nat> {
    if FUTURE in u.bits then AllBits() else {}
  }

  /** ACLDescribeUserCommandRules: the rules it prints. */
  function DescribeCommands(t: Table, u: User): seq<Rule> {
    var additive := FUTURE !in u.bits;
    [if additive then NoCommands else AllCommands]
    + CategoryRules(t, u, additive, CATEGORIES)
    + CommandRules(t, u, CategoryBits(t, u, additive, CATEGORIES, StartBits(u)), 0)
  }

  /** The bitmap of the fake user when they are printed. */
  function FakeBits(t: Table, u: User): set<nat> {
    CommandBits(t, u, CategoryBits(t, u, FUTURE !in u.bits, CATEGORIES, StartBits(u)), 0)
  }

  function PassRules(passwords: seq<string>): seq<Rule> {
    if passwords == [] then [] else [AddPass(true, passwords[0])] + PassRules(passwords[1..])
  }

  function PatternRules(patterns: seq<string>): seq<Rule> {
    if patterns == [] then [] else [AddPattern(patterns[0])] + PatternRules(patterns[1..])
  }

  function DescribeFlags(u: User): seq<Rule> {
    (if u.enabled then [On] else []) + (if u.disabled then [Off] else []) + (if u.nopass then [NoPass] else [])
  }

  function DescribeKeys(u: User): seq<Rule> {
    if u.allkeys then [AllKeys] else PatternRules(u.patterns)
  }

  /** ACLDescribeUser: all rules, in the order they are printed. */
  function Describe(t: Table, u: User): seq<Rule> {
    DescribeFlags(u) + PassRules(u.passwords) + DescribeKeys(u) + DescribeCommands(t, u)
  }

  function Texts(rules: seq<Rule>): seq<string> {
    if rules == [] then [] else [Text(rules[0])] + Texts(rules[1..])
  }
}
