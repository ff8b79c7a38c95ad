/** Times to live in plain numbers: what EXPIRE and its relatives, SETEX and SET with options
    set, and the text that is logged for them. */
module AofTimes {
  import opened Wrappers
  import opened Strings
  import opened AofFormat
  import opened AofLoader
  import opened AofFeed

  /** The command is called so, in whatever letters. */
  predicate Called(argv: Argv, name: string) {
    argv != [] && Lower(argv[0]) == name
  }

  /** The key, if it is there, lives until `when`; nothing else changes. */
  function Until(data: seq<Db>, at: nat, key: string, when: int): seq<Db>
    requires at < |data|
  {
    if key in data[at] then data[at := data[at][key := Entry(data[at][key].value, Some(when))]] else data
  }

  function Stored(data: seq<Db>, at: nat, key: string, text: string, expire: Option<int>): seq<Db>
    requires at < |data|
  {
    data[at := data[at][key := Entry(Text(text), expire)]]
  }

  // ------------------------------------------------------------------------ what they set

  /** EXPIRE counts seconds from now, PEXPIRE milliseconds from now, EXPIREAT seconds from the
      epoch, PEXPIREAT milliseconds from the epoch. */
  lemma ExpireSets(argv: Argv, data: seq<Db>, at: nat, n: int, now: int, effect: Effect)
    requires |argv| == 3 && argv[2] == SignedDec(n) && at < |data|
    ensures Called(argv, "expire") ==> Execute(argv, data, at, now, effect) == Until(data, at, argv[1], now + 1000 * n)
    ensures Called(argv, "pexpire") ==> Execute(argv, data, at, now, effect) == Until(data, at, argv[1], now + n)
    ensures Called(argv, "expireat") ==> Execute(argv, data, at, now, effect) == Until(data, at, argv[1], 1000 * n)
    ensures Called(argv, "pexpireat") ==> Execute(argv, data, at, now, effect) == Until(data, at, argv[1], n)
  {
    hide Lower, Atoi, SignedDec;
    AtoiSignedDec(n);
    assert data[at := data[at]] == data;
  }

  /** SETEX counts seconds, PSETEX milliseconds; SET without options leaves no time to live. */
  lemma SetExSets(argv: Argv, data: seq<Db>, at: nat, n: int, now: int, effect: Effect)
    requires |argv| == 4 && argv[2] == SignedDec(n) && at < |data|
    ensures Called(argv, "setex") ==> Execute(argv, data, at, now, effect) == Stored(data, at, argv[1], argv[3], Some(now + 1000 * n))
    ensures Called(argv, "psetex") ==> Execute(argv, data, at, now, effect) == Stored(data, at, argv[1], argv[3], Some(now + n))
  {
    hide Lower, Atoi, SignedDec;
    AtoiSignedDec(n);
  }

  lemma PlainSetSets(argv: Argv, data: seq<Db>, at: nat, now: int, effect: Effect)
    requires |argv| == 3 && Called(argv, "set") && at < |data|
    ensures Execute(argv, data, at, now, effect) == Stored(data, at, argv[1], argv[2], None)
  {
    hide Lower;
  }

  /** The options from position j on are NX and XX in any letters. */
  ghost predicate OnlyConditions(argv: Argv, from: nat, end: nat) {
    forall i | from <= i < end <= |argv| :: Lower(argv[i]) == "nx" || Lower(argv[i]) == "xx"
  }

  /** A SET with one time to live, at position p, and any conditions before and after it. */
  ghost predicate OneTime(argv: Argv, p: nat, unit: string, n: int) {
    && AcceptedSet(argv) && 3 <= p && p + 1 < |argv|
    && Lower(argv[p]) == unit && argv[p + 1] == SignedDec(n)
    && OnlyConditions(argv, 3, p) && OnlyConditions(argv, p + 2, |argv|)
  }

  /** Conditions change nothing else. */
  lemma {:induction false} ConditionsOnly(argv: Argv, j: nat, end: nat, o: Options) returns (q: Options)
    requires j <= end <= |argv| && OnlyConditions(argv, j, end) && ParseOptions(argv, j, o).Some?
    ensures q == o.(nx := q.nx, xx := q.xx) && ParseOptions(argv, end, q) == ParseOptions(argv, j, o)
    decreases end - j
  {
    hide Lower;
    q := o;
    if j < end {
      var o1 := if Lower(argv[j]) == "nx" then o.(nx := true) else o.(xx := true);
      assert ParseOptions(argv, j, o) == ParseOptions(argv, j + 1, o1);
      q := ConditionsOnly(argv, j + 1, end, o1);
    }
  }

  /** What the option loop finds in such a SET. */
  lemma ParsedTime(argv: Argv, p: nat, unit: string, n: int)
    requires OneTime(argv, p, unit, n) && (unit == "ex" || unit == "px")
    ensures var o := ParseOptions(argv, 3, NO_OPTIONS).value;
            o.expire == Some(SignedDec(n)) && (o.ex <==> unit == "ex") && (o.px <==> unit == "px")
            && !o.keepttl && !o.foul
  {
    hide Lower, SignedDec, Atoi, IsInteger, OnlyConditions;
    var o := ConditionsOnly(argv, 3, p, NO_OPTIONS);
    var o1 := o.(ex := unit == "ex", px := unit == "px", expire := Some(argv[p + 1]),
                 foul := Lower(argv[p + 1]) == if unit == "ex" then "px" else "ex");
    assert ParseOptions(argv, p, o) == ParseOptions(argv, p + 2, o1);
    var o2 := ConditionsOnly(argv, p + 2, |argv|, o1);
    NoWord(n);
  }

  lemma NoWord(n: int)
    ensures Lower(SignedDec(n)) != "ex" && Lower(SignedDec(n)) != "px"
  {
    AtoiSignedDec(n);
    IntegerIsNoWord(SignedDec(n));
  }

  /** SET key value EX n and SET key value PX n, with NX or XX anywhere. */
  lemma SetSets(argv: Argv, data: seq<Db>, at: nat, p: nat, n: int, now: int, effect: Effect)
    requires at < |data|
    ensures OneTime(argv, p, "ex", n) ==>
              Execute(argv, data, at, now, effect) == Stored(data, at, argv[1], argv[2], Some(now + 1000 * n))
    ensures OneTime(argv, p, "px", n) ==>
              Execute(argv, data, at, now, effect) == Stored(data, at, argv[1], argv[2], Some(now + n))
  {
    hide Lower, SignedDec, Atoi, ParseOptions, OnlyConditions, IsInteger;
    AtoiSignedDec(n);
    if OneTime(argv, p, "ex", n) {
      SetIsSet(argv);
      ParsedTime(argv, p, "ex", n);
    }
    if OneTime(argv, p, "px", n) {
      SetIsSet(argv);
      ParsedTime(argv, p, "px", n);
    }
  }

  // -------------------------------------------------------------------- what is logged

  function Selecting(selected: int, db: nat): string {
    if selected == db then "" else Print(["SELECT", Dec(db)])
  }

  function LoggedTime(key: string, when: int): string {
    Print(["PEXPIREAT", key, SignedDec(when)])
  }

  /** A command before which no other database has to be selected is printed alone. */
  lemma Feeds(selected: int, db: nat, argv: Argv, now: int, entries: seq<Argv>)
    requires argv != [] && Translate(argv, now) == entries
    ensures FeedText(selected, db, argv, now) == Selecting(selected, db) + PrintAll(entries)
  {
    hide Print, Translate;
    PrintAllConcat(SelectDb(selected, db), entries);
    Alone(["SELECT", Dec(db)]);
  }

  lemma Alone(argv: Argv)
    ensures PrintAll([argv]) == Print(argv) && PrintAll([]) == ""
  {
    hide Print;
    assert [argv][1..] == [];
    assert Print(argv) + "" == Print(argv);
  }

  lemma Both(a: Argv, b: Argv)
    ensures PrintAll([a, b]) == Print(a) + Print(b)
  {
    hide Print;
    assert [a, b][1..] == [b];
    Alone(b);
  }

  /** EXPIRE, PEXPIRE and EXPIREAT are logged as PEXPIREAT with the time they mean. */
  lemma ExpireLogged(selected: int, db: nat, argv: Argv, n: int, now: int)
    requires |argv| == 3 && argv[2] == SignedDec(n)
    ensures var text, select := FeedText(selected, db, argv, now), Selecting(selected, db);
            && (Called(argv, "expire") ==> text == select + LoggedTime(argv[1], now + 1000 * n))
            && (Called(argv, "pexpire") ==> text == select + LoggedTime(argv[1], now + n))
            && (Called(argv, "expireat") ==> text == select + LoggedTime(argv[1], 1000 * n))
            && (Called(argv, "pexpireat") ==> text == select + Print(argv))
  {
    hide Lower, Atoi, SignedDec, Print, FeedText, PrintAll;
    AtoiSignedDec(n);
    var entries := Translate(argv, now);
    Feeds(selected, db, argv, now, entries);
    Alone(argv);
    Alone(ExpireAt(argv[1], now + 1000 * n));
    Alone(ExpireAt(argv[1], now + n));
    Alone(ExpireAt(argv[1], 1000 * n));
  }

  /** SETEX and PSETEX are logged as SET, then PEXPIREAT. */
  lemma SetExLogged(selected: int, db: nat, argv: Argv, n: int, now: int)
    requires |argv| == 4 && argv[2] == SignedDec(n)
    ensures var text, start := FeedText(selected, db, argv, now), Selecting(selected, db) + Print(["SET", argv[1], argv[3]]);
            && (Called(argv, "setex") ==> text == start + LoggedTime(argv[1], now + 1000 * n))
            && (Called(argv, "psetex") ==> text == start + LoggedTime(argv[1], now + n))
  {
    hide Lower, Atoi, SignedDec, Print, FeedText, PrintAll;
    AtoiSignedDec(n);
    var select, set3 := Selecting(selected, db), ["SET", argv[1], argv[3]];
    Feeds(selected, db, argv, now, Translate(argv, now));
    Both(set3, ExpireAt(argv[1], now + 1000 * n));
    Both(set3, ExpireAt(argv[1], now + n));
    assert select + (Print(set3) + LoggedTime(argv[1], now + 1000 * n)) == select + Print(set3) + LoggedTime(argv[1], now + 1000 * n);
    assert select + (Print(set3) + LoggedTime(argv[1], now + n)) == select + Print(set3) + LoggedTime(argv[1], now + n);
  }

  /** SET with EX or PX is logged as SET without options, then PEXPIREAT. */
  lemma SetLogged(selected: int, db: nat, argv: Argv, p: nat, n: int, now: int)
    requires OneTime(argv, p, "ex", n) || OneTime(argv, p, "px", n)
    ensures var text, start := FeedText(selected, db, argv, now), Selecting(selected, db) + Print(argv[..3]);
            && (OneTime(argv, p, "ex", n) ==> text == start + LoggedTime(argv[1], now + 1000 * n))
            && (OneTime(argv, p, "px", n) ==> text == start + LoggedTime(argv[1], now + n))
  {
    hide Lower, Atoi, SignedDec, Print, FeedText, PrintAll, ParseOptions, Scan, IsInteger, OnlyConditions;
    AtoiSignedDec(n);
    var select, set3 := Selecting(selected, db), argv[..3];
    var unit := if OneTime(argv, p, "ex", n) then "ex" else "px";
    var when := if unit == "ex" then now + 1000 * n else now + n;
    SetIsSet(argv);
    ParsedTime(argv, p, unit, n);
    ScanIsSound(argv);
    assert Translate(argv, now) == [set3, ExpireAt(argv[1], when)];
    Feeds(selected, db, argv, now, [set3, ExpireAt(argv[1], when)]);
    Both(set3, ExpireAt(argv[1], when));
    assert select + (Print(set3) + LoggedTime(argv[1], when)) == select + Print(set3) + LoggedTime(argv[1], when);
  }

  const TIMED := {"expire", "pexpire", "expireat", "setex", "psetex"}

  /** Every other command is logged as it came, a SET with options but without a time as its
      first three words. */
  lemma OthersLogged(selected: int, db: nat, argv: Argv, now: int)
    requires argv != []
    ensures Lower(argv[0]) !in TIMED && (Lower(argv[0]) != "set" || |argv| <= 3) ==>
              FeedText(selected, db, argv, now) == Selecting(selected, db) + Print(argv)
    ensures Called(argv, "set") && |argv| > 3 && AcceptedSet(argv) && OnlyConditions(argv, 3, |argv|) ==>
              FeedText(selected, db, argv, now) == Selecting(selected, db) + Print(argv[..3])
  {
    hide Lower, Print, FeedText, PrintAll, ParseOptions, Scan, OnlyConditions, IsInteger;
    Feeds(selected, db, argv, now, Translate(argv, now));
    Alone(argv);
    if Called(argv, "set") && |argv| > 3 && AcceptedSet(argv) && OnlyConditions(argv, 3, |argv|) {
      SetIsSet(argv);
      NoTime(argv);
      ScanIsSound(argv);
      assert Translate(argv, now) == [argv[..3]];
      Alone(argv[..3]);
    }
  }

  lemma NoTime(argv: Argv)
    requires AcceptedSet(argv) && OnlyConditions(argv, 3, |argv|)
    ensures var o := ParseOptions(argv, 3, NO_OPTIONS).value; o.expire.None? && !o.ex && !o.px && !o.keepttl && !o.foul
  {
    hide Lower, OnlyConditions;
    var o := ConditionsOnly(argv, 3, |argv|, NO_OPTIONS);
  }
}
