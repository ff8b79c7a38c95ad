/**
 feedAppendOnlyFile: how an executed command is translated before it is logged, and why
 replaying the translation does to the dataset what the command did.
 */
module AofFeed {
  import opened Wrappers
  import opened AofFormat
  import opened AofLoader
  import opened Strings
  import B = AofBatch

  datatype Value =
    | Text(text: string)
    | List(items: seq<string>)
    | Members(members: set<string>)
    | Hash(fields: map<string, string>)

  /** A value with its time to live, absolute and in milliseconds. */
  datatype Entry = Entry(value: Value, expire: Option<int>)

  type Db = map<string, Entry>

  /** What a command that is logged word for word does to the databases when it is run in
      one of them. Most commands touch only that one; FLUSHALL, SWAPDB and MOVE do not. */
  type Effect = (Argv, seq<Db>, nat) -> seq<Db>

  // ---------------------------------------------------------------------- numbers

  /** createStringObjectFromLongLong. */
  function SignedDec(n: int): string {
    if n < 0 then "-" + Dec(-n) else Dec(n)
  }

  lemma AtoiSignedDec(n: int)
    ensures Atoi(SignedDec(n)) == n
  {
    if n < 0 {
      ParseDec(-n, "");
      assert Dec(-n) + "" == Dec(-n);
      assert SignedDec(n)[1..] == Dec(-n);
    } else {
      AtoiDec(n, "");
      assert Dec(n) + "" == Dec(n);
    }
  }

  /** string2ll accepts exactly the canonical spelling of an integer. */
  predicate IsInteger(s: string) {
    SignedDec(Atoi(s)) == s
  }

  lemma IntegerIsNoWord(s: string)
    requires IsInteger(s)
    ensures Lower(s) != "ex" && Lower(s) != "px"
  {
    var n := Atoi(s);
    assert s != [] && (s[0] == '-' || IsDigit(s[0]));
    assert Lower(s)[0] == s[0];
  }

  // ------------------------------------------------------------- SET with options

  /** The option loop of setCommand. `foul` records that an option value spells the other
      unit (EX px ..., PX ex ...). */
  datatype Options = Options(nx: bool, xx: bool, keepttl: bool, ex: bool, px: bool, expire: Option<string>, foul: bool)

  const NO_OPTIONS := Options(false, false, false, false, false, None, false)

  function ParseOptions(argv: Argv, j: nat, o: Options): Option<Options>
    decreases |argv| - j
  {
    if j >= |argv| then Some(o)
    else
      var a := Lower(argv[j]);
      if a == "nx" && !o.xx then ParseOptions(argv, j + 1, o.(nx := true))
      else if a == "xx" && !o.nx then ParseOptions(argv, j + 1, o.(xx := true))
      else if a == "keepttl" && !o.ex && !o.px then ParseOptions(argv, j + 1, o.(keepttl := true))
      else if a == "ex" && !o.keepttl && !o.px && j + 1 < |argv| then
        ParseOptions(argv, j + 2, o.(ex := true, expire := Some(argv[j + 1]), foul := o.foul || Lower(argv[j + 1]) == "px"))
      else if a == "px" && !o.keepttl && !o.ex && j + 1 < |argv| then
        ParseOptions(argv, j + 2, o.(px := true, expire := Some(argv[j + 1]), foul := o.foul || Lower(argv[j + 1]) == "ex"))
      else None
  }

  /** What the logging loop reads as argv[i+1]; past the end it reads rubbish. */
  function Following(argv: Argv, i: nat): string {
    if i + 1 < |argv| then argv[i + 1] else ""
  }

  /** The loop of feedAppendOnlyFile that looks for EX and PX again, position by position. */
  function Scan(argv: Argv, i: nat, ex: Option<string>, px: Option<string>): (Option<string>, Option<string>)
    decreases |argv| - i
  {
    if i >= |argv| then (ex, px)
    else
      var a := Lower(argv[i]);
      Scan(argv, i + 1,
           if a == "ex" then Some(Following(argv, i)) else ex,
           if a == "px" then Some(Following(argv, i)) else px)
  }

  ghost predicate InStep(o: Options, ex: Option<string>, px: Option<string>) {
    && !(o.ex && o.px)
    && (o.ex ==> o.expire.Some? && ex.Some? && (Lower(o.expire.value) != "ex" ==> ex == o.expire) && (px.Some? <==> o.foul))
    && (o.px ==> o.expire.Some? && px.Some? && (Lower(o.expire.value) != "px" ==> px == o.expire) && (ex.Some? <==> o.foul))
    && (!o.ex && !o.px ==> ex.None? && px.None? && !o.foul && o.expire.None?)
  }

  lemma {:induction false} ScanFollowsParse(argv: Argv, j: nat, o: Options, ex: Option<string>, px: Option<string>)
    requires ParseOptions(argv, j, o).Some? && InStep(o, ex, px)
    ensures InStep(ParseOptions(argv, j, o).value, Scan(argv, j, ex, px).0, Scan(argv, j, ex, px).1)
    decreases |argv| - j
  {
    hide Lower;
    if j < |argv| {
      var a := Lower(argv[j]);
      if a == "nx" && !o.xx {
        ScanFollowsParse(argv, j + 1, o.(nx := true), ex, px);
      } else if a == "xx" && !o.nx {
        ScanFollowsParse(argv, j + 1, o.(xx := true), ex, px);
      } else if a == "keepttl" && !o.ex && !o.px {
        ScanFollowsParse(argv, j + 1, o.(keepttl := true), ex, px);
      } else {
        var b := Lower(argv[j + 1]);
        var ex1 := if a == "ex" then Some(argv[j + 1]) else ex;
        var px1 := if a == "px" then Some(argv[j + 1]) else px;
        var ex2 := if b == "ex" then Some(Following(argv, j + 1)) else ex1;
        var px2 := if b == "px" then Some(Following(argv, j + 1)) else px1;
        assert Scan(argv, j, ex, px) == Scan(argv, j + 1, ex1, px1);
        assert Scan(argv, j + 1, ex1, px1) == Scan(argv, j + 2, ex2, px2);
        if a == "ex" {
          ScanFollowsParse(argv, j + 2, o.(ex := true, expire := Some(argv[j + 1]), foul := o.foul || b == "px"), ex2, px2);
        } else {
          ScanFollowsParse(argv, j + 2, o.(px := true, expire := Some(argv[j + 1]), foul := o.foul || b == "ex"), ex2, px2);
        }
      }
    }
  }

  /** A SET the server carries out: its options parse and its time to live, if any, is a
      positive integer. (Only the last EX or PX value is looked at.) */
  predicate AcceptedSet(argv: Argv) {
    && |argv| > 3 && Lower(argv[0]) == "set"
    && var o := ParseOptions(argv, 3, NO_OPTIONS);
       o.Some? && (o.value.expire.Some? ==> IsInteger(o.value.expire.value) && Atoi(o.value.expire.value) > 0)
  }

  /** The serverAssert of the logging loop (not both EX and PX) holds for an accepted SET
      exactly when none of its option values spells the other unit; then the loop finds
      the very time to live the server has used. */
  lemma ScanIsSound(argv: Argv)
    requires AcceptedSet(argv)
    ensures var o := ParseOptions(argv, 3, NO_OPTIONS).value;
            var (ex, px) := Scan(argv, 3, None, None);
            && (!(ex.Some? && px.Some?) <==> !o.foul)
            && (!o.foul ==> ex == (if o.ex then o.expire else None) && px == (if o.px then o.expire else None))
  {
    ScanFollowsParse(argv, 3, NO_OPTIONS, None, None);
    var o := ParseOptions(argv, 3, NO_OPTIONS).value;
    if o.expire.Some? { IntegerIsNoWord(o.expire.value); }
  }

  /** An accepted SET on which the assert fails. */
  lemma ScanAssertFails()
    ensures var argv := ["SET", "k", "v", "EX", "px", "EX", "1"];
            && AcceptedSet(argv)
            && Scan(argv, 3, None, None).0.Some? && Scan(argv, 3, None, None).1.Some?
  {
    var argv := ["SET", "k", "v", "EX", "px", "EX", "1"];
    assert Lower("EX") == "ex" && Lower("px") == "px" && Lower("SET") == "set";
    var o1 := NO_OPTIONS.(ex := true, expire := Some("px"), foul := true);
    var o2 := o1.(expire := Some("1"));
    assert Lower("1") == "1";
    assert ParseOptions(argv, 7, o2) == Some(o2);
    assert ParseOptions(argv, 5, o1) == Some(o2);
    assert ParseOptions(argv, 3, NO_OPTIONS) == Some(o2);
    assert Dec(1) == "1";
    AtoiSignedDec(1);
    ScanIsSound(argv);
  }

  // ------------------------------------------------------------- what a command does

  /** The commands with which a rewrite fills lists, sets and hashes. */
  predicate Adds(argv: Argv)
    requires argv != []
  {
    |argv| > 2 && (Name(argv) == "rpush" || Name(argv) == "sadd" || (Name(argv) == "hmset" && |argv| % 2 == 0))
  }

  /** The value after such a command; `None` if it is of another type. */
  function Added(v: Option<Value>, argv: Argv): Option<Value>
    requires argv != [] && Adds(argv)
  {
    if Name(argv) == "rpush" then
      if v.None? then Some(List(argv[2..])) else if v.value.List? then Some(List(v.value.items + argv[2..])) else None
    else if Name(argv) == "sadd" then
      var more := set x | x in argv[2..];
      if v.None? then Some(Members(more)) else if v.value.Members? then Some(Members(v.value.members + more)) else None
    else
      if v.None? then Some(Hash(B.SetFields(map[], argv[2..])))
      else if v.value.Hash? then Some(Hash(B.SetFields(v.value.fields, argv[2..]))) else None
  }

  function ValueOf(db: Db, key: string): Option<Value> {
    if key in db then Some(db[key].value) else None
  }

  /** The database after the value of a key grew; its time to live stays. */
  function Grown(db: Db, key: string, v: Option<Value>): Db {
    if v.None? then db else db[key := Entry(v.value, if key in db then db[key].expire else None)]
  }

  /** Commands the log holds as they are: those that translations and rewrites use, and all
      others. */
  function Plain(argv: Argv, data: seq<Db>, at: nat, effect: Effect): (r: seq<Db>)
    requires argv != [] && at < |data|
    ensures |r| == |data|
  {
    if Name(argv) == "set" && |argv| == 3 then data[at := data[at][argv[1] := Entry(Text(argv[2]), None)]]
    else if Name(argv) == "pexpireat" && |argv| == 3 then data[at := Expire(data[at], argv[1], Atoi(argv[2]))]
    else if Adds(argv) then data[at := Grown(data[at], argv[1], Added(ValueOf(data[at], argv[1]), argv))]
    else if |effect(argv, data, at)| == |data| then effect(argv, data, at)
    else data
  }

  function Expire(db: Db, key: string, when: int): Db {
    if key in db then db[key := db[key].(expire := Some(when))] else db
  }

  datatype Kind = AsIs | ExpireLike(seconds: bool, relative: bool) | SetExLike(seconds: bool) | SetWithOptions

  /** Which branch of feedAppendOnlyFile a command takes. */
  function KindOf(argv: Argv): Kind
    requires argv != []
  {
    if Name(argv) == "expire" then ExpireLike(true, true)
    else if Name(argv) == "pexpire" then ExpireLike(false, true)
    else if Name(argv) == "expireat" then ExpireLike(true, false)
    else if Name(argv) == "setex" then SetExLike(true)
    else if Name(argv) == "psetex" then SetExLike(false)
    else if Name(argv) == "set" && |argv| > 3 then SetWithOptions
    else AsIs
  }

  /** The absolute time in milliseconds that a time argument denotes. */
  function When(seconds: bool, relative: bool, arg: string, now: int): int {
    (if seconds then Atoi(arg) * 1000 else Atoi(arg)) + (if relative then now else 0)
  }

  /** A command the server has carried out and propagates as it stands. SELECT is never
      propagated and transactions are left to the loader model. A SET that keeps the time
      to live is admitted only if there is none to keep. */
  ghost predicate Propagated(argv: Argv, db: Db, known: set<string>) {
    && Printable(argv) && Name(argv) in known
    && {"set", "pexpireat", "select"} <= known
    && Name(argv) !in {"select", "multi", "exec"}
    && match KindOf(argv)
       case AsIs => true
       case ExpireLike(_, _) => |argv| == 3
       case SetExLike(_) => |argv| == 4
       case SetWithOptions =>
         && AcceptedSet(argv)
         && var o := ParseOptions(argv, 3, NO_OPTIONS).value;
            !o.foul && (o.keepttl && argv[1] in db ==> db[argv[1]].expire.None?)
  }

  /** What the server does to the databases at time `now`. */
  function Execute(argv: Argv, data: seq<Db>, at: nat, now: int, effect: Effect): (r: seq<Db>)
    requires argv != [] && at < |data|
    ensures |r| == |data|
  {
    var db := data[at];
    match KindOf(argv)
    case AsIs => Plain(argv, data, at, effect)
    case ExpireLike(seconds, relative) =>
      if |argv| == 3 then data[at := Expire(db, argv[1], When(seconds, relative, argv[2], now))] else data
    case SetExLike(seconds) =>
      if |argv| == 4 then data[at := db[argv[1] := Entry(Text(argv[3]), Some(When(seconds, true, argv[2], now)))]] else data
    case SetWithOptions =>
      var o := ParseOptions(argv, 3, NO_OPTIONS);
      if o.None? then data
      else
        data[at := db[argv[1] := Entry(Text(argv[2]),
                                       if o.value.expire.Some? then Some(When(o.value.ex, true, o.value.expire.value, now))
                                       else if o.value.keepttl && argv[1] in db then db[argv[1]].expire
                                       else None)]]
  }

  // -------------------------------------------------------------------- the log entry

  /** catAppendOnlyExpireAtCommand. */
  function ExpireAt(key: string, when: int): Argv {
    ["PEXPIREAT", key, SignedDec(when)]
  }

  function OptionalExpire(key: string, seconds: bool, arg: Option<string>, now: int): seq<Argv> {
    if arg.Some? then [ExpireAt(key, When(seconds, true, arg.value, now))] else []
  }

  /** The commands that stand for `argv` in the log. */
  function Translate(argv: Argv, now: int): seq<Argv>
    requires argv != []
  {
    match KindOf(argv)
    case AsIs => [argv]
    case ExpireLike(seconds, relative) =>
      if |argv| == 3 then [ExpireAt(argv[1], When(seconds, relative, argv[2], now))] else []
    case SetExLike(seconds) =>
      if |argv| == 4 then [["SET", argv[1], argv[3]], ExpireAt(argv[1], When(seconds, true, argv[2], now))] else []
    case SetWithOptions =>
      var (ex, px) := Scan(argv, 3, None, None);
      [argv[..3]] + OptionalExpire(argv[1], true, ex, now) + OptionalExpire(argv[1], false, px, now)
  }

  function SelectDb(selected: int, db: nat): seq<Argv> {
    if selected == db then [] else [["SELECT", Dec(db)]]
  }

  /** feedAppendOnlyFile: the text appended for a command run in database `db`. */
  function FeedText(selected: int, db: nat, argv: Argv, now: int): string
    requires argv != []
  {
    PrintAll(SelectDb(selected, db) + Translate(argv, now))
  }

  // -------------------------------------------------------------------------- replay

  /** The dataset and the selected database of the client that replays the log. */
  datatype Replay = Replay(data: seq<Db>, selected: nat)

  function ReplayOne(r: Replay, argv: Argv, effect: Effect): Replay
    requires argv != []
  {
    if Name(argv) == "select" && |argv| == 2 then
      if 0 <= Atoi(argv[1]) < |r.data| then r.(selected := Atoi(argv[1])) else r
    else if r.selected < |r.data| then r.(data := Plain(argv, r.data, r.selected, effect))
    else r
  }

  function ReplayAll(r: Replay, log: seq<Argv>, effect: Effect): Replay
    requires forall i | 0 <= i < |log| :: log[i] != []
    decreases |log|
  {
    if log == [] then r else ReplayAll(ReplayOne(r, log[0], effect), log[1..], effect)
  }

  lemma {:induction false} ReplayConcat(r: Replay, a: seq<Argv>, b: seq<Argv>, effect: Effect)
    requires forall i | 0 <= i < |a| :: a[i] != []
    requires forall i | 0 <= i < |b| :: b[i] != []
    ensures ReplayAll(r, a + b, effect) == ReplayAll(ReplayAll(r, a, effect), b, effect)
    decreases |a|
  {
    hide ReplayOne;
    if a == [] {
      assert a + b == b;
    } else {
      assert (a + b)[1..] == a[1..] + b;
      ReplayConcat(ReplayOne(r, a[0], effect), a[1..], b, effect);
    }
  }

  lemma ReplaySingle(r: Replay, argv: Argv, effect: Effect)
    requires argv != []
    ensures ReplayAll(r, [argv], effect) == ReplayOne(r, argv, effect)
  {
    assert [argv][1..] == [];
  }

  lemma ReplayTwo(r: Replay, a: Argv, b: Argv, effect: Effect)
    requires a != [] && b != []
    ensures ReplayAll(r, [a, b], effect) == ReplayOne(ReplayOne(r, a, effect), b, effect)
  {
    assert [a, b] == [a] + [b];
    ReplayConcat(r, [a], [b], effect);
    ReplaySingle(r, a, effect);
    ReplaySingle(ReplayOne(r, a, effect), b, effect);
  }

  lemma ReplaySelect(r: Replay, selected: int, db: nat, effect: Effect)
    requires db < |r.data| && (selected == r.selected || selected == -1)
    ensures ReplayAll(r, SelectDb(selected, db), effect) == r.(selected := db)
  {
    if selected != db {
      ReplaySingle(r, ["SELECT", Dec(db)], effect);
      AtoiDec(db, "");
      assert Dec(db) + "" == Dec(db);
      assert Lower("SELECT") == "select";
    }
  }

  lemma WordsLower()
    ensures Lower("SET") == "set" && Lower("PEXPIREAT") == "pexpireat" && Lower("SELECT") == "select"
  {
  }

  lemma ReplayExpireAt(r: Replay, key: string, when: int, effect: Effect)
    requires r.selected < |r.data|
    ensures ReplayOne(r, ExpireAt(key, when), effect) == r.(data := r.data[r.selected := Expire(r.data[r.selected], key, when)])
  {
    WordsLower();
    AtoiSignedDec(when);
  }

  lemma ReplaySet(r: Replay, argv: Argv, effect: Effect)
    requires r.selected < |r.data| && |argv| == 3 && Name(argv) == "set"
    ensures ReplayOne(r, argv, effect) == r.(data := r.data[r.selected := r.data[r.selected][argv[1] := Entry(Text(argv[2]), None)]])
  {
  }

  /** Replaying the translation of a command does what the command did. */
  lemma TranslationReplays(r: Replay, argv: Argv, now: int, effect: Effect, known: set<string>)
    requires r.selected < |r.data| && Propagated(argv, r.data[r.selected], known)
    ensures forall i | 0 <= i < |Translate(argv, now)| :: Translate(argv, now)[i] != []
    ensures ReplayAll(r, Translate(argv, now), effect)
            == r.(data := Execute(argv, r.data, r.selected, now, effect))
  {
    hide Lower, SignedDec, Atoi, ParseOptions, Scan;
    WordsLower();
    var db := r.data[r.selected];
    match KindOf(argv)
    case AsIs => ReplaySingle(r, argv, effect);
    case ExpireLike(seconds, relative) =>
      var when := When(seconds, relative, argv[2], now);
      ReplaySingle(r, ExpireAt(argv[1], when), effect);
      ReplayExpireAt(r, argv[1], when, effect);
    case SetExLike(seconds) =>
      var when := When(seconds, true, argv[2], now);
      SetThenExpire(r, ["SET", argv[1], argv[3]], when, effect);
    case SetWithOptions =>
      SetReplays(r, argv, now, effect, known);
  }

  lemma SetThenExpire(r: Replay, set3: Argv, when: int, effect: Effect)
    requires r.selected < |r.data| && |set3| == 3 && Name(set3) == "set"
    ensures ReplayAll(r, [set3, ExpireAt(set3[1], when)], effect)
            == r.(data := r.data[r.selected := r.data[r.selected][set3[1] := Entry(Text(set3[2]), Some(when))]])
  {
    hide Lower, SignedDec, Atoi, ReplayOne;
    ReplayTwo(r, set3, ExpireAt(set3[1], when), effect);
    ReplaySet(r, set3, effect);
    var r1 := ReplayOne(r, set3, effect);
    ReplayExpireAt(r1, set3[1], when, effect);
    var db := r.data[r.selected];
    var db1 := db[set3[1] := Entry(Text(set3[2]), None)];
    assert r1.data[r.selected] == db1;
    var db2 := db[set3[1] := Entry(Text(set3[2]), Some(when))];
    assert Expire(db1, set3[1], when) == db2;
    assert r.data[r.selected := db1][r.selected := db2] == r.data[r.selected := db2];
  }

  lemma SetReplays(r: Replay, argv: Argv, now: int, effect: Effect, known: set<string>)
    requires r.selected < |r.data| && Propagated(argv, r.data[r.selected], known) && KindOf(argv).SetWithOptions?
    ensures forall i | 0 <= i < |Translate(argv, now)| :: Translate(argv, now)[i] != []
    ensures ReplayAll(r, Translate(argv, now), effect)
            == r.(data := Execute(argv, r.data, r.selected, now, effect))
  {
    hide Lower, SignedDec, Atoi, ParseOptions, Scan, ReplayOne, ReplayAll;
    ScanIsSound(argv);
    var o := ParseOptions(argv, 3, NO_OPTIONS).value;
    UnitsExclude(argv, 3, NO_OPTIONS);
    var set3 := argv[..3];
    if o.expire.Some? {
      var when := When(o.ex, true, o.expire.value, now);
      assert Translate(argv, now) == [set3, ExpireAt(set3[1], when)];
      SetThenExpire(r, set3, when, effect);
    } else {
      assert Translate(argv, now) == [set3];
      ReplaySingle(r, set3, effect);
      ReplaySet(r, set3, effect);
    }
  }

  /** A parse never ends with both units, and a time to live comes with one of them. */
  lemma {:induction false} UnitsExclude(argv: Argv, j: nat, o: Options)
    requires ParseOptions(argv, j, o).Some? && !(o.ex && o.px) && (o.expire.Some? <==> o.ex || o.px)
    ensures var p := ParseOptions(argv, j, o).value; !(p.ex && p.px) && (p.expire.Some? <==> p.ex || p.px)
    decreases |argv| - j
  {
    hide Lower;
    if j < |argv| {
      var a := Lower(argv[j]);
      if a == "nx" && !o.xx { UnitsExclude(argv, j + 1, o.(nx := true)); }
      else if a == "xx" && !o.nx { UnitsExclude(argv, j + 1, o.(xx := true)); }
      else if a == "keepttl" && !o.ex && !o.px { UnitsExclude(argv, j + 1, o.(keepttl := true)); }
      else if a == "ex" {
        UnitsExclude(argv, j + 2, o.(ex := true, expire := Some(argv[j + 1]), foul := o.foul || Lower(argv[j + 1]) == "px"));
      } else {
        UnitsExclude(argv, j + 2, o.(px := true, expire := Some(argv[j + 1]), foul := o.foul || Lower(argv[j + 1]) == "ex"));
      }
    }
  }

  /** SET ... KEEPTTL is logged as a plain SET, so replay keeps the time to live exactly
      when there is none. */
  lemma KeepTtlReplays(r: Replay, argv: Argv, now: int, effect: Effect)
    requires r.selected < |r.data| && AcceptedSet(argv)
    requires ParseOptions(argv, 3, NO_OPTIONS).value.keepttl && !ParseOptions(argv, 3, NO_OPTIONS).value.expire.Some?
    ensures forall i | 0 <= i < |Translate(argv, now)| :: Translate(argv, now)[i] != []
    ensures var db := r.data[r.selected];
            ReplayAll(r, Translate(argv, now), effect)
              == r.(data := Execute(argv, r.data, r.selected, now, effect))
            <==> (argv[1] in db ==> db[argv[1]].expire.None?)
  {
    hide Lower, SignedDec, Atoi, ParseOptions, Scan, ReplayOne, ReplayAll;
    assert KindOf(argv).SetWithOptions? by { SetIsSet(argv); }
    UnitsExclude(argv, 3, NO_OPTIONS);
    ScanFollowsParse(argv, 3, NO_OPTIONS, None, None);
    var set3 := argv[..3];
    assert Translate(argv, now) == [set3];
    ReplaySingle(r, set3, effect);
    ReplaySet(r, set3, effect);
    var db := r.data[r.selected];
    var logged := db[argv[1] := Entry(Text(argv[2]), None)];
    var actual := Execute(argv, r.data, r.selected, now, effect);
    assert logged[argv[1]].expire == None;
    assert r.data[r.selected := logged][r.selected] == logged;
    assert actual == r.data[r.selected := actual[r.selected]];
  }

  lemma SetIsSet(argv: Argv)
    requires argv != [] && Lower(argv[0]) == "set" && |argv| > 3
    ensures KindOf(argv).SetWithOptions?
  {
    hide Lower;
  }
}
