/**
 The snapshot that a rewrite starts with: for every database that is not empty a SELECT, and
 for every key, in whatever order the table gives them, a SET or batches of RPUSH, SADD or
 HMSET and if need be a PEXPIREAT.
 */
module AofSnapshot {
  import opened Wrappers
  import opened AofFormat
  import opened AofLoader
  import opened Strings
  import opened AofFeed
  import B = AofBatch

  // ----------------------------------------------------------------- rebuilding a dataset

  ghost predicate PlainLog(log: seq<Argv>, known: set<string>) {
    IsLog(log, known) && forall i | 0 <= i < |log| :: Name(log[i]) != "multi" && Name(log[i]) != "exec"
  }

  function Nothing(dbnum: nat): Replay {
    Replay(seq(dbnum, _ => map[]), 0)
  }

  /** Replaying `log` on an empty server gives `data`, in a database the next command may
      rely on if one is recorded as selected. */
  ghost predicate Rebuilds(log: seq<Argv>, data: seq<Db>, selected: int, effect: Effect, known: set<string>) {
    && PlainLog(log, known)
    && var r := ReplayAll(Nothing(|data|), log, effect);
       r.data == data && (selected == -1 || selected == r.selected)
  }

  // ---------------------------------------------------------------------- the snapshot

  const ITEMS_PER_CMD: nat := 64           // AOF_REWRITE_ITEMS_PER_CMD

  /** A key as the iterators meet it: for a set its members, for a hash its fields, in order. */
  datatype Turn = Turn(key: string, members: seq<string>)

  predicate Distinct(s: seq<string>) {
    forall i, j | 0 <= i < j < |s| :: s[i] != s[j]
  }

  ghost predicate Enumerates(members: seq<string>, v: Value) {
    match v
    case Members(s) => Distinct(members) && forall x :: x in members <==> x in s
    case Hash(fields) => Distinct(members) && forall x :: x in members <==> x in fields
    case _ => true
  }

  function Singles(s: seq<string>): seq<B.Item> {
    seq(|s|, i requires 0 <= i < |s| => [s[i]])
  }

  function Pairs(fields: map<string, string>, names: seq<string>): seq<B.Item>
    requires forall i | 0 <= i < |names| :: names[i] in fields
  {
    seq(|names|, i requires 0 <= i < |names| => [names[i], fields[names[i]]])
  }

  /** rewriteListObject, rewriteSetObject, rewriteHashObject, or a plain SET. */
  function ValueCommands(key: string, v: Value, members: seq<string>): seq<Argv>
    requires Enumerates(members, v)
  {
    match v
    case Text(text) => [["SET", key, text]]
    case List(items) => B.Batches("RPUSH", key, Singles(items), ITEMS_PER_CMD)
    case Members(_) => B.Batches("SADD", key, Singles(members), ITEMS_PER_CMD)
    case Hash(fields) => B.Batches("HMSET", key, Pairs(fields, members), ITEMS_PER_CMD)
  }

  /** getExpire: no time to live is -1. */
  function GetExpire(e: Entry): int {
    if e.expire.Some? then e.expire.value else -1
  }

  function ExpireCommand(key: string, e: Entry): seq<Argv> {
    if GetExpire(e) != -1 then [ExpireAt(key, GetExpire(e))] else []
  }

  /** The turn is one of this database. */
  ghost predicate IsTurn(turn: Turn, db: Db) {
    turn.key in db && Enumerates(turn.members, db[turn.key].value)
  }

  function KeyCommands(turn: Turn, e: Entry): seq<Argv>
    requires Enumerates(turn.members, e.value)
  {
    ValueCommands(turn.key, e.value, turn.members) + ExpireCommand(turn.key, e)
  }

  ghost predicate AreTurns(turns: seq<Turn>, db: Db) {
    && (forall i | 0 <= i < |turns| :: IsTurn(turns[i], db))
    && (forall i, j | 0 <= i < j < |turns| :: turns[i].key != turns[j].key)
  }

  /** Every key of the database once. */
  ghost predicate Lists(turns: seq<Turn>, db: Db) {
    AreTurns(turns, db) && forall key | key in db :: exists i | 0 <= i < |turns| :: turns[i].key == key
  }

  ghost predicate IsOrder(order: seq<seq<Turn>>, data: seq<Db>) {
    |order| == |data| && forall j | 0 <= j < |data| :: Lists(order[j], data[j])
  }

  function DbCommands(db: Db, turns: seq<Turn>): seq<Argv>
    requires AreTurns(turns, db)
    decreases |turns|
  {
    if turns == [] then [] else KeyCommands(turns[0], db[turns[0].key]) + DbCommands(db, turns[1..])
  }

  /** The part for one database, and the whole from database j on. */
  function DbPart(db: Db, turns: seq<Turn>, j: nat): seq<Argv>
    requires Lists(turns, db)
  {
    if turns == [] then [] else [["SELECT", Dec(j)]] + DbCommands(db, turns)
  }

  function Snapshot(data: seq<Db>, order: seq<seq<Turn>>, j: nat): seq<Argv>
    requires IsOrder(order, data) && j <= |data|
    decreases |data| - j
  {
    if j == |data| then [] else DbPart(data[j], order[j], j) + Snapshot(data, order, j + 1)
  }

  // ---------------------------------------------------------------- replaying one value

  ghost predicate NoEmpty(log: seq<Argv>) {
    forall i | 0 <= i < |log| :: log[i] != []
  }

  lemma AddWords()
    ensures Lower("RPUSH") == "rpush" && Lower("SADD") == "sadd" && Lower("HMSET") == "hmset"
  {
  }

  /** The log adds to one key with one command. */
  ghost predicate AddsTo(log: seq<Argv>, name: string, key: string) {
    forall i | 0 <= i < |log| :: log[i] != [] && Adds(log[i]) && Name(log[i]) == name && log[i][1] == key
  }

  /** No value, or one of the type that the command adds to. */
  predicate Fits(v: Option<Value>, name: string) {
    v.None? || (v.value.List? && name == "rpush") || (v.value.Members? && name == "sadd") || (v.value.Hash? && name == "hmset")
  }

  ghost function AddedAll(v: Option<Value>, log: seq<Argv>, name: string, key: string): (r: Option<Value>)
    requires AddsTo(log, name, key) && Fits(v, name)
    ensures Fits(r, name) && (log != [] ==> r.Some?)
    decreases |log|
  {
    if log == [] then v else AddedAll(Added(v, log[0]), log[1..], name, key)
  }

  lemma ReplayAdd(r: Replay, argv: Argv, effect: Effect)
    requires r.selected < |r.data| && argv != [] && Adds(argv)
    ensures var db := r.data[r.selected];
            ReplayOne(r, argv, effect)
            == r.(data := r.data[r.selected := Grown(db, argv[1], Added(ValueOf(db, argv[1]), argv))])
  {
    hide Lower, Added, Grown;
  }

  lemma GrownTwice(db: Db, key: string, v: Option<Value>, w: Option<Value>)
    requires v.Some?
    ensures ValueOf(Grown(db, key, v), key) == v
    ensures w.Some? ==> Grown(Grown(db, key, v), key, w) == Grown(db, key, w)
    ensures Grown(db, key, ValueOf(db, key)) == db
  {
  }

  lemma {:induction false} AddsReplay(r: Replay, key: string, log: seq<Argv>, name: string, effect: Effect)
    requires r.selected < |r.data| && AddsTo(log, name, key) && Fits(ValueOf(r.data[r.selected], key), name)
    ensures var db := r.data[r.selected];
            ReplayAll(r, log, effect)
            == r.(data := r.data[r.selected := Grown(db, key, AddedAll(ValueOf(db, key), log, name, key))])
    decreases |log|
  {
    hide Lower, Grown, Added, ReplayOne, Adds;
    var db := r.data[r.selected];
    var v := ValueOf(db, key);
    if log == [] {
      GrownTwice(db, key, Some(Text("")), None);
      assert r.data[r.selected := db] == r.data;
    } else {
      var v1 := Added(v, log[0]);
      var db1 := Grown(db, key, v1);
      ReplayAdd(r, log[0], effect);
      AddedFits(v, log[0], name);
      var r1 := r.(data := r.data[r.selected := db1]);
      GrownTwice(db, key, v1, AddedAll(v1, log[1..], name, key));
      AddsReplay(r1, key, log[1..], name, effect);
      var db2 := Grown(db1, key, AddedAll(v1, log[1..], name, key));
      assert r.data[r.selected := db1][r.selected := db2] == r.data[r.selected := db2];
    }
  }

  lemma AddedFits(v: Option<Value>, argv: Argv, name: string)
    requires argv != [] && Adds(argv) && Name(argv) == name && Fits(v, name)
    ensures Added(v, argv).Some? && Fits(Added(v, argv), name)
  {
  }

  lemma {:induction false} ListAdded(l: seq<string>, log: seq<Argv>, key: string)
    requires AddsTo(log, "rpush", key)
    ensures AddedAll(Some(List(l)), log, "rpush", key) == Some(List(B.PushAll(l, log)))
    decreases |log|
  {
    hide Lower;
    if log != [] {
      ListAdded(l + log[0][2..], log[1..], key);
    }
  }

  lemma {:induction false} SetAdded(s: set<string>, log: seq<Argv>, key: string)
    requires AddsTo(log, "sadd", key)
    ensures AddedAll(Some(Members(s)), log, "sadd", key) == Some(Members(B.AddAll(s, log)))
    decreases |log|
  {
    hide Lower;
    if log != [] {
      SetAdded(s + (set x | x in log[0][2..]), log[1..], key);
    }
  }

  lemma {:induction false} HashAdded(h: map<string, string>, log: seq<Argv>, key: string)
    requires AddsTo(log, "hmset", key)
    ensures AddedAll(Some(Hash(h)), log, "hmset", key) == Some(Hash(B.SetAllFields(h, log)))
    decreases |log|
  {
    hide Lower, B.SetFields;
    if log != [] {
      HashAdded(B.SetFields(h, log[0][2..]), log[1..], key);
    }
  }

  /** A key that is not there grows like an empty value. */
  lemma FromNothing(v: Value, log: seq<Argv>, name: string, key: string)
    requires log != [] && AddsTo(log, name, key) && Fits(Some(v), name) && !v.Text?
    requires Hollow(v)
    ensures AddedAll(None, log, name, key) == AddedAll(Some(v), log, name, key)
  {
    hide Lower, B.SetFields, AddedAll;
    AddedStep(None, log, name, key);
    AddedStep(Some(v), log, name, key);
    var args := log[0][2..];
    assert [] + args == args && {} + (set x | x in args) == set x | x in args;
    assert Added(Some(v), log[0]) == Added(None, log[0]);
  }

  lemma AddedStep(v: Option<Value>, log: seq<Argv>, name: string, key: string)
    requires log != [] && AddsTo(log, name, key) && Fits(v, name)
    ensures Fits(Added(v, log[0]), name) && AddedAll(v, log, name, key) == AddedAll(Added(v, log[0]), log[1..], name, key)
  {
    hide Lower, Added;
    AddedFits(v, log[0], name);
  }

  /** An aggregate without elements, which the server never keeps. */
  predicate Hollow(v: Value) {
    match v
    case Text(_) => false
    case List(items) => items == []
    case Members(s) => s == {}
    case Hash(fields) => fields == map[]
  }

  lemma {:induction false} BatchesAdd(name: string, key: string, items: seq<B.Item>, width: nat)
    requires B.Wide(items, width) && width > 0
    requires (Lower(name) == "rpush" && width == 1) || (Lower(name) == "sadd" && width == 1) || (Lower(name) == "hmset" && width == 2)
    ensures AddsTo(B.Batches(name, key, items, ITEMS_PER_CMD), Lower(name), key)
    decreases |items|
  {
    hide Lower;
    if items != [] {
      var n := B.Min(ITEMS_PER_CMD, |items|);
      B.FlatLength(items[..n], width);
      BatchesAdd(name, key, items[n..], width);
    }
  }

  lemma {:induction false} FlatSingles(s: seq<string>)
    ensures B.Flat(Singles(s)) == s
    decreases |s|
  {
    if s != [] {
      FlatSingles(s[1..]);
      assert Singles(s)[1..] == Singles(s[1..]);
    }
  }

  /** The value comes to be under the key, unless it is hollow. */
  function Placed(r: Replay, key: string, v: Value): Replay
    requires r.selected < |r.data|
  {
    if Hollow(v) then r else r.(data := r.data[r.selected := r.data[r.selected][key := Entry(v, None)]])
  }

  /** The commands for a value, replayed where the key is not there. */
  lemma ValueReplays(r: Replay, key: string, v: Value, members: seq<string>, effect: Effect)
    requires r.selected < |r.data| && key !in r.data[r.selected] && Enumerates(members, v)
    ensures NoEmpty(ValueCommands(key, v, members))
    ensures ReplayAll(r, ValueCommands(key, v, members), effect) == Placed(r, key, v)
  {
    hide Lower, ReplayOne, ReplayAll, B.Batches, Adds, Enumerates, Hollow;
    WordsLower();
    AddWords();
    match v
    case Text(text) =>
      ReplaySingle(r, ["SET", key, text], effect);
      ReplaySet(r, ["SET", key, text], effect);
      NotHollow(v);
    case List(items) => ListReplays(r, key, items, effect);
    case Members(s) => SetMembersReplay(r, key, s, members, effect);
    case Hash(fields) => HashReplays(r, key, fields, members, effect);
  }

  lemma NotHollow(v: Value)
    ensures v.Text? ==> !Hollow(v)
  {
  }

  /** What a log of additions makes of a key that is not there. */
  lemma Filled(r: Replay, key: string, empty: Value, full: Value, log: seq<Argv>, name: string, effect: Effect)
    requires r.selected < |r.data| && key !in r.data[r.selected] && AddsTo(log, name, key)
    requires Hollow(empty) && Fits(Some(empty), name) && AddedAll(Some(empty), log, name, key) == Some(full)
    requires log == [] <==> Hollow(full)
    ensures ReplayAll(r, log, effect) == Placed(r, key, full)
  {
    hide Lower, ReplayOne, ReplayAll, AddedAll, Adds, AddsTo;
    AddsReplay(r, key, log, name, effect);
    if log == [] {
      NothingAdded(None, log, name, key);
    } else {
      FromNothing(empty, log, name, key);
    }
  }

  lemma NothingAdded(v: Option<Value>, log: seq<Argv>, name: string, key: string)
    requires log == [] && AddsTo(log, name, key) && Fits(v, name)
    ensures AddedAll(v, log, name, key) == v
  {
  }

  lemma ListReplays(r: Replay, key: string, items: seq<string>, effect: Effect)
    requires r.selected < |r.data| && key !in r.data[r.selected]
    ensures var log := B.Batches("RPUSH", key, Singles(items), ITEMS_PER_CMD);
            && NoEmpty(log)
            && ReplayAll(r, log, effect) == Placed(r, key, List(items))
  {
    hide Lower, ReplayOne, ReplayAll, Adds, AddedAll, B.Batches;
    AddWords();
    var log := B.Batches("RPUSH", key, Singles(items), ITEMS_PER_CMD);
    BatchesAdd("RPUSH", key, Singles(items), 1);
    B.ListRebuilt(key, Singles(items), ITEMS_PER_CMD, []);
    FlatSingles(items);
    ListAdded([], log, key);
    assert [] + items == items;
    EmptyBatches("RPUSH", key, Singles(items));
    Filled(r, key, List([]), List(items), log, "rpush", effect);
  }

  lemma EmptyBatches(name: string, key: string, items: seq<B.Item>)
    ensures B.Batches(name, key, items, ITEMS_PER_CMD) == [] <==> items == []
  {
  }

  lemma SetMembersReplay(r: Replay, key: string, s: set<string>, members: seq<string>, effect: Effect)
    requires r.selected < |r.data| && key !in r.data[r.selected] && Enumerates(members, Members(s))
    ensures var log := B.Batches("SADD", key, Singles(members), ITEMS_PER_CMD);
            && NoEmpty(log)
            && ReplayAll(r, log, effect) == Placed(r, key, Members(s))
  {
    hide Lower, ReplayOne, ReplayAll, Adds, AddedAll, B.Batches;
    AddWords();
    var log := B.Batches("SADD", key, Singles(members), ITEMS_PER_CMD);
    BatchesAdd("SADD", key, Singles(members), 1);
    B.SetRebuilt(key, Singles(members), ITEMS_PER_CMD, {});
    FlatSingles(members);
    SetAdded({}, log, key);
    assert {} + (set x | x in members) == s;
    EmptyBatches("SADD", key, Singles(members));
    assert members == [] <==> s == {} by {
      if members != [] {
        assert members[0] in s;
      }
    }
    Filled(r, key, Members({}), Members(s), log, "sadd", effect);
  }

  lemma HashReplays(r: Replay, key: string, fields: map<string, string>, names: seq<string>, effect: Effect)
    requires r.selected < |r.data| && key !in r.data[r.selected] && Enumerates(names, Hash(fields))
    ensures var log := B.Batches("HMSET", key, Pairs(fields, names), ITEMS_PER_CMD);
            && NoEmpty(log)
            && ReplayAll(r, log, effect) == Placed(r, key, Hash(fields))
  {
    hide Lower, ReplayOne, ReplayAll, Adds, AddedAll, B.Batches, B.SetFields, B.Flat;
    AddWords();
    var items := Pairs(fields, names);
    var log := B.Batches("HMSET", key, items, ITEMS_PER_CMD);
    BatchesAdd("HMSET", key, items, 2);
    B.HashRebuilt(key, items, ITEMS_PER_CMD, map[]);
    FieldsRebuilt(fields, names);
    HashAdded(map[], log, key);
    EmptyBatches("HMSET", key, items);
    assert names == [] <==> fields == map[] by {
      if names != [] {
        assert names[0] in fields;
      }
    }
    Filled(r, key, Hash(map[]), Hash(fields), log, "hmset", effect);
  }

  lemma FieldsRebuilt(fields: map<string, string>, names: seq<string>)
    requires Enumerates(names, Hash(fields))
    ensures B.SetFields(map[], B.Flat(Pairs(fields, names))) == fields
  {
    hide B.SetFields, B.Flat;
    var items := Pairs(fields, names);
    forall k ensures k in fields <==> exists i | 0 <= i < |items| :: items[i][0] == k {
      if k in fields {
        var i :| 0 <= i < |names| && names[i] == k;
        assert items[i][0] == k;
      }
    }
    B.PairsRebuild(map[], items, fields);
    assert map[] + fields == fields;
  }

  // ------------------------------------------------------------------------- replaying

  /** What comes back of an entry: a time to live of -1 is taken for none. */
  function ReadBack(e: Entry): Entry {
    if GetExpire(e) == -1 then e.(expire := None) else e
  }

  /** And of a database: nothing of an aggregate without elements. */
  function ReadBackKeys(db: Db, keys: set<string>): Db {
    map key | key in keys && key in db && !Hollow(db[key].value) :: ReadBack(db[key])
  }

  lemma KeyReplays(r: Replay, turn: Turn, e: Entry, effect: Effect)
    requires r.selected < |r.data| && turn.key !in r.data[r.selected] && Enumerates(turn.members, e.value)
    ensures NoEmpty(KeyCommands(turn, e))
    ensures var db := r.data[r.selected];
            ReplayAll(r, KeyCommands(turn, e), effect)
            == r.(data := r.data[r.selected := if Hollow(e.value) then db else db[turn.key := ReadBack(e)]])
  {
    hide Lower, SignedDec, Atoi, ReplayOne, ReplayAll, ValueCommands, Enumerates, Hollow;
    var db := r.data[r.selected];
    var db1 := if Hollow(e.value) then db else db[turn.key := Entry(e.value, None)];
    var r1 := r.(data := r.data[r.selected := db1]);
    ValueReplays(r, turn.key, e.value, turn.members, effect);
    assert r.data[r.selected := db] == r.data;
    assert Placed(r, turn.key, e.value) == r1;
    var more := ExpireCommand(turn.key, e);
    ReplayConcat(r, ValueCommands(turn.key, e.value, turn.members), more, effect);
    if more == [] {
      ReplayNone(r1, effect);
    } else {
      ReplaySingle(r1, more[0], effect);
      assert more == [more[0]];
      ReplayExpireAt(r1, turn.key, GetExpire(e), effect);
      var db2 := Expire(db1, turn.key, GetExpire(e));
      assert db2 == if Hollow(e.value) then db else db[turn.key := ReadBack(e)];
      assert r.data[r.selected := db1][r.selected := db2] == r.data[r.selected := db2];
    }
  }

  function KeysOf(turns: seq<Turn>): set<string> {
    set turn | turn in turns :: turn.key
  }

  lemma {:induction false} DbReplays(r: Replay, db: Db, turns: seq<Turn>, effect: Effect)
    requires r.selected < |r.data| && AreTurns(turns, db)
    requires forall i | 0 <= i < |turns| :: turns[i].key !in r.data[r.selected]
    ensures NoEmpty(DbCommands(db, turns))
    ensures ReplayAll(r, DbCommands(db, turns), effect)
         == r.(data := r.data[r.selected := r.data[r.selected] + ReadBackKeys(db, KeysOf(turns))])
    decreases |turns|
  {
    hide KeyCommands, ReadBack, ReplayAll, Hollow, Enumerates;
    var was := r.data[r.selected];
    if turns == [] {
      assert was + ReadBackKeys(db, KeysOf(turns)) == was;
      ReplayNone(r, effect);
    } else {
      var turn, rest := turns[0], turns[1..];
      var e := db[turn.key];
      var now := if Hollow(e.value) then was else was[turn.key := ReadBack(e)];
      var r1 := r.(data := r.data[r.selected := now]);
      KeyReplays(r, turn, e, effect);
      DbReplays(r1, db, rest, effect);
      ReplayConcat(r, KeyCommands(turn, e), DbCommands(db, rest), effect);
      MoreKeys(was, db, turns);
      var end := now + ReadBackKeys(db, KeysOf(rest));
      assert r.data[r.selected := now][r.selected := end] == r.data[r.selected := end];
    }
  }

  lemma ReplayNone(r: Replay, effect: Effect)
    ensures ReplayAll(r, [], effect) == r
  {
  }

  lemma MoreKeys(was: Db, db: Db, turns: seq<Turn>)
    requires turns != [] && AreTurns(turns, db) && turns[0].key !in was
    ensures var e := db[turns[0].key];
            (if Hollow(e.value) then was else was[turns[0].key := ReadBack(e)]) + ReadBackKeys(db, KeysOf(turns[1..]))
            == was + ReadBackKeys(db, KeysOf(turns))
  {
    hide ReadBack, Hollow, Enumerates;
    var first, rest := turns[0].key, KeysOf(turns[1..]);
    assert KeysOf(turns) == {first} + rest by {
      assert turns == [turns[0]] + turns[1..];
    }
    assert first !in rest;
    OneKeyMore(was, db, first, rest);
  }

  lemma OneKeyMore(was: Db, db: Db, first: string, rest: set<string>)
    requires first in db && first !in was && first !in rest
    ensures (if Hollow(db[first].value) then was else was[first := ReadBack(db[first])]) + ReadBackKeys(db, rest)
         == was + ReadBackKeys(db, {first} + rest)
  {
    hide ReadBack, Hollow;
  }

  function ReadBackDb(db: Db): Db {
    ReadBackKeys(db, db.Keys)
  }

  function ReadBackData(data: seq<Db>): seq<Db> {
    seq(|data|, j requires 0 <= j < |data| => ReadBackDb(data[j]))
  }

  lemma AllKeys(db: Db, turns: seq<Turn>)
    requires Lists(turns, db)
    ensures KeysOf(turns) == db.Keys
  {
    forall key | key in db ensures key in KeysOf(turns) {
      var i :| 0 <= i < |turns| && turns[i].key == key;
      assert turns[i] in turns;
    }
  }

  lemma PartReplays(r: Replay, db: Db, turns: seq<Turn>, j: nat, effect: Effect)
    requires j < |r.data| && r.data[j] == map[] && Lists(turns, db)
    ensures NoEmpty(DbPart(db, turns, j))
    ensures ReplayAll(r, DbPart(db, turns, j), effect).data == r.data[j := ReadBackDb(db)]
  {
    hide DbCommands, ReadBack, ReplayAll, Hollow, IsTurn;
    AllKeys(db, turns);
    if turns == [] {
      assert ReadBackDb(db) == map[];
      ReplayNone(r, effect);
    } else {
      var r1 := r.(selected := j);
      assert SelectDb(-1, j) == [["SELECT", Dec(j)]];
      ReplaySelect(r, -1, j, effect);
      DbReplays(r1, db, turns, effect);
      ReplayConcat(r, [["SELECT", Dec(j)]], DbCommands(db, turns), effect);
      assert map[] + ReadBackDb(db) == ReadBackDb(db);
    }
  }

  lemma {:induction false} SnapshotReplays(r: Replay, data: seq<Db>, order: seq<seq<Turn>>, j: nat, effect: Effect)
    requires IsOrder(order, data) && j <= |data| == |r.data|
    requires forall i | 0 <= i < |data| :: r.data[i] == if i < j then ReadBackDb(data[i]) else map[]
    ensures NoEmpty(Snapshot(data, order, j))
    ensures ReplayAll(r, Snapshot(data, order, j), effect).data == ReadBackData(data)
    decreases |data| - j
  {
    hide DbPart, ReadBackDb, ReplayAll, Lists;
    if j == |data| {
      ReplayNone(r, effect);
    } else {
      PartReplays(r, data[j], order[j], j, effect);
      var r1 := ReplayAll(r, DbPart(data[j], order[j], j), effect);
      SnapshotReplays(r1, data, order, j + 1, effect);
      ReplayConcat(r, DbPart(data[j], order[j], j), Snapshot(data, order, j + 1), effect);
    }
  }

  // --------------------------------------------------------------------- it can be loaded

  const LONG_LONG := 0x8000_0000_0000_0000

  predicate Short(s: string) {
    |s| < LONG_LONG
  }

  predicate AllShort(ss: seq<string>) {
    forall i | 0 <= i < |ss| :: Short(ss[i])
  }

  ghost predicate StorableValue(v: Value) {
    match v
    case Text(text) => Short(text)
    case List(items) => AllShort(items)
    case Members(s) => forall x | x in s :: Short(x)
    case Hash(fields) => forall x | x in fields :: Short(x) && Short(fields[x])
  }

  /** Keys and elements have a length that C can state, and times to live are long longs. */
  ghost predicate Storable(db: Db) {
    forall key | key in db :: Short(key) && StorableValue(db[key].value) && -LONG_LONG <= GetExpire(db[key]) < LONG_LONG
  }

  ghost predicate AllStorable(data: seq<Db>) {
    |data| < 0x8000_0000 && forall j | 0 <= j < |data| :: Storable(data[j])
  }

  ghost predicate Knows(known: set<string>) {
    {"set", "pexpireat", "select", "rpush", "sadd", "hmset"} <= known
  }

  lemma {:induction false} FlatShort(items: seq<B.Item>)
    requires forall i | 0 <= i < |items| :: AllShort(items[i])
    ensures AllShort(B.Flat(items))
    decreases |items|
  {
    if items != [] {
      FlatShort(items[1..]);
    }
  }

  lemma {:induction false} BatchesPlain(name: string, key: string, items: seq<B.Item>, width: nat, known: set<string>)
    requires B.Wide(items, width) && width <= 2 && (forall i | 0 <= i < |items| :: AllShort(items[i]))
    requires Short(name) && Short(key) && Lower(name) in known && Lower(name) != "multi" && Lower(name) != "exec"
    ensures PlainLog(B.Batches(name, key, items, ITEMS_PER_CMD), known)
    decreases |items|
  {
    hide Lower, B.Flat, PlainLog;
    if items == [] {
      NonePlain(known);
    } else {
      var n := B.Min(ITEMS_PER_CMD, |items|);
      B.FlatLength(items[..n], width);
      FlatShort(items[..n]);
      var argv := [name, key] + B.Flat(items[..n]);
      assert |argv| <= 130 by { B.Grows(n, ITEMS_PER_CMD, width); }
      OnePlain(argv, known);
      BatchesPlain(name, key, items[n..], width, known);
      PlainConcat([argv], B.Batches(name, key, items[n..], ITEMS_PER_CMD), known);
    }
  }

  lemma OnePlain(argv: Argv, known: set<string>)
    requires 0 < |argv| < 0x8000_0000 && AllShort(argv)
    requires Name(argv) in known && Name(argv) != "multi" && Name(argv) != "exec"
    ensures PlainLog([argv], known)
  {
    hide Lower;
  }

  lemma ValuePlain(key: string, v: Value, members: seq<string>, known: set<string>)
    requires Knows(known) && Short(key) && StorableValue(v) && Enumerates(members, v)
    ensures PlainLog(ValueCommands(key, v, members), known)
  {
    hide Lower, PlainLog, B.Batches;
    WordsLower();
    AddWords();
    match v
    case Text(text) => OnePlain(["SET", key, text], known);
    case List(items) => BatchesPlain("RPUSH", key, Singles(items), 1, known);
    case Members(s) =>
      forall i | 0 <= i < |members| ensures Short(members[i]) {
        assert members[i] in s;
      }
      BatchesPlain("SADD", key, Singles(members), 1, known);
    case Hash(fields) =>
      forall i | 0 <= i < |members| ensures Short(members[i]) && Short(fields[members[i]]) {
        assert members[i] in members;
      }
      BatchesPlain("HMSET", key, Pairs(fields, members), 2, known);
  }

  lemma TimeLength(n: int)
    requires -LONG_LONG <= n < LONG_LONG
    ensures |SignedDec(n)| < 30
  {
    NineteenDigits();
    DecLength(if n < 0 then -n else n, 19);
  }

  lemma KeyPlain(turn: Turn, e: Entry, known: set<string>)
    requires Knows(known) && Short(turn.key) && StorableValue(e.value) && -LONG_LONG <= GetExpire(e) < LONG_LONG
    requires Enumerates(turn.members, e.value)
    ensures PlainLog(KeyCommands(turn, e), known)
  {
    hide Lower, SignedDec, PlainLog, ValueCommands, StorableValue, Enumerates;
    WordsLower();
    TimeLength(GetExpire(e));
    ValuePlain(turn.key, e.value, turn.members, known);
    if GetExpire(e) != -1 {
      OnePlain(ExpireAt(turn.key, GetExpire(e)), known);
    } else {
      NonePlain(known);
    }
    PlainConcat(ValueCommands(turn.key, e.value, turn.members), ExpireCommand(turn.key, e), known);
  }

  lemma PlainConcat(a: seq<Argv>, b: seq<Argv>, known: set<string>)
    requires PlainLog(a, known) && PlainLog(b, known)
    ensures PlainLog(a + b, known)
  {
    hide Lower;
  }

  lemma {:induction false} DbPlain(db: Db, turns: seq<Turn>, known: set<string>)
    requires Knows(known) && Storable(db) && AreTurns(turns, db)
    ensures PlainLog(DbCommands(db, turns), known)
    decreases |turns|
  {
    hide PlainLog, KeyCommands, Knows, StorableValue, Enumerates;
    if turns == [] {
      NonePlain(known);
    } else {
      KeyPlain(turns[0], db[turns[0].key], known);
      DbPlain(db, turns[1..], known);
      PlainConcat(KeyCommands(turns[0], db[turns[0].key]), DbCommands(db, turns[1..]), known);
    }
  }

  lemma NonePlain(known: set<string>)
    ensures PlainLog([], known)
  {
  }

  lemma SelectPlain(j: nat, known: set<string>)
    requires "select" in known && j < 0x8000_0000
    ensures PlainLog([["SELECT", Dec(j)]], known)
  {
    hide Lower;
    WordsLower();
    NineteenDigits();
    DecLength(j, 19);
  }

  lemma {:induction false} SnapshotPlain(data: seq<Db>, order: seq<seq<Turn>>, j: nat, known: set<string>)
    requires Knows(known) && AllStorable(data) && IsOrder(order, data) && j <= |data|
    ensures PlainLog(Snapshot(data, order, j), known)
    decreases |data| - j
  {
    hide PlainLog, DbCommands, Storable, AreTurns;
    NonePlain(known);
    if j < |data| {
      SnapshotPlain(data, order, j + 1, known);
      DbPlain(data[j], order[j], known);
      SelectPlain(j, known);
      PlainConcat([["SELECT", Dec(j)]], DbCommands(data[j], order[j]), known);
      PlainConcat(DbPart(data[j], order[j], j), Snapshot(data, order, j + 1), known);
    }
  }

  /** No key has the time to live that the source takes for none, and none holds an aggregate
      without elements. */
  ghost predicate Rewritable(data: seq<Db>) {
    forall j, key | 0 <= j < |data| && key in data[j] :: data[j][key].expire != Some(-1) && !Hollow(data[j][key].value)
  }

  lemma ReadBackExactly(data: seq<Db>)
    ensures ReadBackData(data) == data <==> Rewritable(data)
  {
    hide Hollow;
    if Rewritable(data) {
      forall j | 0 <= j < |data| ensures ReadBackDb(data[j]) == data[j] {}
    } else {
      var j, key :| 0 <= j < |data| && key in data[j] && (data[j][key].expire == Some(-1) || Hollow(data[j][key].value));
      var back := ReadBackData(data)[j];
      assert key !in back || back[key].expire == None;
    }
  }

  /** The snapshot of every dataset can be loaded, whatever the order of keys, members and
      fields, and loading it gives the dataset back exactly when no key has a time to live
      of -1 or an aggregate without elements. */
  lemma SnapshotRebuilds(data: seq<Db>, order: seq<seq<Turn>>, effect: Effect, known: set<string>)
    requires Knows(known) && AllStorable(data) && IsOrder(order, data)
    ensures PlainLog(Snapshot(data, order, 0), known)
    ensures Rebuilds(Snapshot(data, order, 0), data, -1, effect, known) <==> Rewritable(data)
  {
    hide PlainLog, Snapshot, ReplayAll, ReadBackData, Rewritable, IsOrder, AllStorable;
    SnapshotPlain(data, order, 0, known);
    SnapshotReplays(Nothing(|data|), data, order, 0, effect);
    ReadBackExactly(data);
  }

  /** A key whose time to live of -1 a rewrite drops. */
  lemma SentinelLost(effect: Effect, known: set<string>)
    requires Knows(known)
    ensures var data, order := [map["k" := Entry(Text("v"), Some(-1))]], [[Turn("k", [])]];
            IsOrder(order, data) && !Rebuilds(Snapshot(data, order, 0), data, -1, effect, known)
  {
    hide Rebuilds, Snapshot;
    var data: seq<Db>, order: seq<seq<Turn>> := [map["k" := Entry(Text("v"), Some(-1))]], [[Turn("k", [])]];
    assert "k" in data[0] && data[0]["k"].expire == Some(-1);
    assert order[0][0].key == "k";
    SnapshotRebuilds(data, order, effect, known);
  }

  // -------------------------------------------------------------------------- in place

  /** catAppendOnlyGenericCommand on a text that holds the entries so far. */
  method Log(text: string, ghost entries: seq<Argv>, argv: Argv) returns (r: string)
    requires text == PrintAll(entries)
    ensures r == PrintAll(entries + [argv])
  {
    hide Print;
    PrintAllConcat(entries, [argv]);
    PrintOne(argv);
    r := CatGenericCommand(text, argv);
  }

  lemma PrintNothing()
    ensures PrintAll([]) == ""
  {
  }

  lemma PrintOne(argv: Argv)
    ensures PrintAll([argv]) == Print(argv) == "" + Print(argv)
  {
    assert [argv][1..] == [];
    assert Print(argv) + "" == Print(argv);
  }

  /** rewriteAppendOnlyFileRio, with the keys of each table in the order of its iterator. */
  method RewriteAppendOnlyFile(data: seq<Db>, order: seq<seq<Turn>>) returns (text: string)
    requires IsOrder(order, data)
    ensures text == PrintAll(Snapshot(data, order, 0))
  {
    hide PrintAll, DbPart, Lists;
    ghost var entries: seq<Argv> := [];
    text := "";
    PrintNothing();
    assert entries + Snapshot(data, order, 0) == Snapshot(data, order, 0);
    for j := 0 to |data|
      invariant text == PrintAll(entries)
      invariant entries + Snapshot(data, order, j) == Snapshot(data, order, 0)
    {
      ghost var part, rest := DbPart(data[j], order[j], j), Snapshot(data, order, j + 1);
      text := RewriteDatabase(text, entries, data[j], order[j], j);
      assert entries + (part + rest) == entries + part + rest;
      entries := entries + part;
    }
    assert entries + [] == entries;
  }

  method RewriteDatabase(was: string, ghost entries: seq<Argv>, db: Db, turns: seq<Turn>, j: nat) returns (text: string)
    requires was == PrintAll(entries) && Lists(turns, db)
    ensures text == PrintAll(entries + DbPart(db, turns, j))
  {
    hide PrintAll, DbCommands, IsTurn;
    text := was;
    AllKeys(db, turns);
    if turns != [] {
      SomeTurn(turns);
    }
    if db.Keys == {} {
      assert entries + [] == entries;
    } else {
      ghost var select := [["SELECT", Dec(j)]];
      text := Log(text, entries, ["SELECT", Dec(j)]);
      text := RewriteTable(text, entries + select, db, turns);
      assert entries + select + DbCommands(db, turns) == entries + (select + DbCommands(db, turns));
    }
  }

  lemma SomeTurn(turns: seq<Turn>)
    requires turns != []
    ensures KeysOf(turns) != {}
  {
    assert turns[0] in turns && turns[0].key in KeysOf(turns);
  }

  method RewriteTable(was: string, ghost entries: seq<Argv>, db: Db, turns: seq<Turn>) returns (text: string)
    requires was == PrintAll(entries) && AreTurns(turns, db)
    ensures text == PrintAll(entries + DbCommands(db, turns))
  {
    hide PrintAll, KeyCommands, Enumerates;
    text := was;
    ghost var done := entries;
    assert turns[0..] == turns;
    for i := 0 to |turns|
      invariant text == PrintAll(done) && AreTurns(turns[i..], db)
      invariant done + DbCommands(db, turns[i..]) == entries + DbCommands(db, turns)
    {
      var turn := turns[i];
      assert turns[i..][0] == turn && turns[i..][1..] == turns[i + 1..];
      ghost var next, rest := KeyCommands(turn, db[turn.key]), DbCommands(db, turns[i + 1..]);
      text := RewriteKey(text, done, turn, db[turn.key]);
      assert done + (next + rest) == done + next + rest;
      done := done + next;
    }
    assert done + DbCommands(db, turns[|turns|..]) == done;
  }

  /** The value, then its time to live. */
  method RewriteKey(was: string, ghost entries: seq<Argv>, turn: Turn, e: Entry) returns (text: string)
    requires was == PrintAll(entries) && Enumerates(turn.members, e.value)
    ensures text == PrintAll(entries + KeyCommands(turn, e))
  {
    hide PrintAll, ValueCommands, ExpireAt, Enumerates;
    ghost var commands := ValueCommands(turn.key, e.value, turn.members);
    var value := RewriteObject(turn, e);
    text := was + value;
    PrintAllConcat(entries, commands);
    if GetExpire(e) != -1 {
      text := Log(text, entries + commands, ExpireAt(turn.key, GetExpire(e)));
      assert entries + commands + [ExpireAt(turn.key, GetExpire(e))] == entries + KeyCommands(turn, e);
    } else {
      assert entries + commands == entries + KeyCommands(turn, e);
    }
  }

  method RewriteObject(turn: Turn, e: Entry) returns (text: string)
    requires Enumerates(turn.members, e.value)
    ensures text == PrintAll(ValueCommands(turn.key, e.value, turn.members))
  {
    hide PrintAll, B.Batches;
    match e.value {
      case Text(s) =>
        PrintNothing();
        text := Log("", [], ["SET", turn.key, s]);
        assert [] + [["SET", turn.key, s]] == [["SET", turn.key, s]];
      case List(items) => text := B.Rewrite("RPUSH", turn.key, Singles(items), 1, ITEMS_PER_CMD);
      case Members(_) => text := B.Rewrite("SADD", turn.key, Singles(turn.members), 1, ITEMS_PER_CMD);
      case Hash(fields) => text := B.Rewrite("HMSET", turn.key, Pairs(fields, turn.members), 2, ITEMS_PER_CMD);
    }
  }
}
