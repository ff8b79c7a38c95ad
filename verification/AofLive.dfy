/**
 The append only file of a running server: commands run and are logged, the buffer is
 flushed in whole or in part, a child is forked to write the snapshot, exchanges the
 difference with the parent over the pipes, fails or succeeds. At every moment loading
 what is on disk and in the buffer gives the dataset.
 */
module AofLive {
  import opened Wrappers
  import opened AofFormat
  import opened AofLoader
  import opened Strings
  import opened AofFeed
  import opened AofSnapshot
  import R = AofRewrite

  /** A rewrite under way: parent, child and the pipes between them. */
  datatype Child = Child(rewrite: R.Rewrite, log: seq<Argv>)

  /** `log` (here and in Child) is history: the commands whose text the bytes are. */
  datatype Live = Live(
    data: seq<Db>,
    on: bool,                // AOF_ON; otherwise AOF_WAIT_REWRITE
    file: string,
    size: nat,               // server.aof_current_size
    buf: string,             // server.aof_buf
    selected: int,           // server.aof_selected_db
    child: Option<Child>,
    log: seq<Argv>)

  datatype Step =
    | Run(db: nat, argv: Argv, now: int)
    | Flush(written: int, truncateOk: bool)
    | Fork(order: seq<seq<Turn>>)          // the order in which the child meets the keys
    | Exchange(step: R.Step)               // a step of the rewrite protocol
    | ChildFails
    | Install

  // ------------------------------------------------------------------- one flush

  /** flushAppendOnlyFile once it writes: what write(2) returned, and whether ftruncate(2)
      could remove a short write. */
  function AfterFlush(s: Live, written: int, truncateOk: bool): Live
    requires -1 <= written <= |s.buf|
  {
    if s.buf == "" then s
    else if written == |s.buf| then s.(file := s.file + s.buf, size := s.size + written, buf := "")
    else if written == -1 then s
    else if truncateOk then s.(file := Truncate(s.file + s.buf[..written], s.size))
    else s.(file := s.file + s.buf[..written], size := s.size + written, buf := s.buf[written..])
  }

  function Truncate(f: string, size: nat): string {
    if size <= |f| then f[..size] else f
  }

  // ------------------------------------------------------------------- the machine

  /** No log entry outgrows what C can size: absolute times fit a long long. */
  ghost predicate TimesFit(argv: Argv, now: int)
    requires argv != []
  {
    forall i | 0 <= i < |Translate(argv, now)| :: Printable(Translate(argv, now)[i])
  }

  ghost predicate Enabled(s: Live, step: Step, known: set<string>) {
    match step
    case Run(db, argv, now) => db < |s.data| < 0x8000_0000 && Propagated(argv, s.data[db], known) && TimesFit(argv, now)
    case Flush(written, _) => -1 <= written <= |s.buf|
    case Fork(order) => s.child.None? && IsOrder(order, s.data) && Knows(known) && AllStorable(s.data) && Rewritable(s.data)
    case Exchange(step) => s.child.Some? && !step.Feed? && !step.Install? && R.Enabled(s.child.value.rewrite, step)
    case ChildFails => s.child.Some?
    case Install => s.child.Some? && R.Enabled(s.child.value.rewrite, R.Install)
  }

  /** The rewrite buffer takes what is logged, until the rewrite is over. */
  function Fed(r: R.Rewrite, text: string): R.Rewrite {
    if R.Enabled(r, R.Feed(text)) then R.Next(r, R.Feed(text)) else r
  }

  ghost function Next(s: Live, step: Step, effect: Effect, known: set<string>): Live
    requires Enabled(s, step, known)
  {
    match step
    case Run(db, argv, now) =>
      var text := FeedText(s.selected, db, argv, now);
      var entries := SelectDb(s.selected, db) + Translate(argv, now);
      s.(data := Execute(argv, s.data, db, now, effect),
         selected := db,
         buf := if s.on then s.buf + text else s.buf,
         log := if s.on then s.log + entries else s.log,
         child := if s.child.Some?
                  then Some(Child(Fed(s.child.value.rewrite, text), s.child.value.log + entries))
                  else None)
    case Flush(written, truncateOk) => AfterFlush(s, written, truncateOk)
    case Fork(order) =>
      var log := Snapshot(s.data, order, 0);
      s.(selected := -1, child := Some(Child(R.AfterFork(PrintAll(log)), log)))
    case Exchange(step) => s.(child := Some(s.child.value.(rewrite := R.Next(s.child.value.rewrite, step))))
    case ChildFails => s.(child := None)
    case Install =>
      var file := R.Next(s.child.value.rewrite, R.Install).installed.value;
      s.(file := file, size := |file|, buf := "", selected := -1, on := true, child := None, log := s.child.value.log)
  }

  /** What the child wrote at the fork and what was fed since is the print of its log, and
      between the two ends of the pipes nothing got lost. */
  ghost predicate ChildFaithful(c: Child, data: seq<Db>, selected: int, effect: Effect, known: set<string>) {
    && R.Conserved(c.rewrite) && c.rewrite.installed.None?
    && c.rewrite.snapshot + c.rewrite.fed == PrintAll(c.log)
    && Rebuilds(c.log, data, selected, effect, known)
  }

  ghost predicate Faithful(s: Live, effect: Effect, known: set<string>) {
    && s.size == |s.file|
    && (s.on ==> s.file + s.buf == PrintAll(s.log) && Rebuilds(s.log, s.data, s.selected, effect, known))
    && (s.child.Some? ==> ChildFaithful(s.child.value, s.data, s.selected, effect, known))
  }

  // --------------------------------------------------------------------- its upkeep

  /** No flush changes what disk and buffer hold together; what a write took is on disk, unless
      it was short and could be removed again. */
  lemma FlushKeeps(s: Live, written: int, truncateOk: bool)
    requires -1 <= written <= |s.buf| && s.size == |s.file|
    ensures var t := AfterFlush(s, written, truncateOk);
            && t.file + t.buf == s.file + s.buf && t.size == |t.file|
            && |t.file| == |s.file| + if written == |s.buf| || (written > 0 && !truncateOk) then written else 0
  {
    if 0 <= written < |s.buf| {
      assert (s.file + s.buf[..written])[..s.size] == s.file;
      assert s.file + s.buf[..written] + s.buf[written..] == s.file + s.buf;
    }
    assert s.file + s.buf + "" == s.file + s.buf;
  }

  /** The log grows by what a command stands for; the data follow. */
  lemma RunRebuilds(log: seq<Argv>, data: seq<Db>, selected: int, db: nat, argv: Argv, now: int,
                    effect: Effect, known: set<string>)
    requires Rebuilds(log, data, selected, effect, known) && db < |data| < 0x8000_0000
    requires Propagated(argv, data[db], known) && TimesFit(argv, now)
    ensures Rebuilds(log + (SelectDb(selected, db) + Translate(argv, now)),
                     Execute(argv, data, db, now, effect), db, effect, known)
  {
    hide Lower, Translate, Execute, Atoi, Print, ReplayOne;
    var entries := SelectDb(selected, db) + Translate(argv, now);
    EntriesPlain(selected, db, argv, now, data[db], known);
    var r := ReplayAll(Nothing(|data|), log, effect);
    ReplayConcat(Nothing(|data|), log, entries, effect);
    ReplayConcat(r, SelectDb(selected, db), Translate(argv, now), effect);
    ReplaySelect(r, selected, db, effect);
    TranslationReplays(r.(selected := db), argv, now, effect, known);
  }

  lemma EntriesPlain(selected: int, db: nat, argv: Argv, now: int, data: Db, known: set<string>)
    requires Propagated(argv, data, known) && TimesFit(argv, now) && db < 0x8000_0000
    ensures PlainLog(SelectDb(selected, db) + Translate(argv, now), known)
  {
    hide PlainLog, Translate, TimesFit;
    var t := Translate(argv, now);
    TranslatePlain(argv, now, data, known);
    if selected == db {
      assert [] + t == t;
    } else {
      SelectPlain(db, known);
      PlainConcat([["SELECT", Dec(db)]], t, known);
    }
  }

  lemma TranslatePlain(argv: Argv, now: int, data: Db, known: set<string>)
    requires Propagated(argv, data, known) && TimesFit(argv, now)
    ensures PlainLog(Translate(argv, now), known)
  {
    hide Atoi, ParseOptions, Scan, SignedDec, Lower, Printable;
    PropagatedNonempty(argv, data, known);
    WordsLower();
    var t := Translate(argv, now);
    assert forall i | 0 <= i < |t| :: t[i] != [] && Name(t[i]) in known && Name(t[i]) != "multi" && Name(t[i]) != "exec";
  }

  lemma SelectedIrrelevant(log: seq<Argv>, data: seq<Db>, selected: int, effect: Effect, known: set<string>)
    requires Rebuilds(log, data, selected, effect, known)
    ensures Rebuilds(log, data, -1, effect, known)
  {
    hide ReplayAll, PlainLog;
  }

  lemma RunKeeps(s: Live, db: nat, argv: Argv, now: int, effect: Effect, known: set<string>)
    requires Faithful(s, effect, known) && Enabled(s, Run(db, argv, now), known)
    ensures Faithful(Next(s, Run(db, argv, now), effect, known), effect, known)
  {
    hide Rebuilds, Translate, Execute, Printable, SelectDb, TimesFit, Propagated, PrintAll;
    PropagatedNonempty(argv, s.data[db], known);
    var entries := SelectDb(s.selected, db) + Translate(argv, now);
    var text := PrintAll(entries);
    if s.on {
      RunRebuilds(s.log, s.data, s.selected, db, argv, now, effect, known);
      PrintAllConcat(s.log, entries);
      assert s.file + (s.buf + text) == s.file + s.buf + text;
    }
    if s.child.Some? {
      var c := s.child.value;
      RunRebuilds(c.log, s.data, s.selected, db, argv, now, effect, known);
      PrintAllConcat(c.log, entries);
      FedKeeps(c.rewrite, text);
      assert c.rewrite.snapshot + (c.rewrite.fed + text) == c.rewrite.snapshot + c.rewrite.fed + text;
    }
  }

  lemma FedKeeps(r: R.Rewrite, text: string)
    requires R.Conserved(r) && r.installed.None?
    ensures var t := Fed(r, text);
            R.Conserved(t) && t.installed.None? && t.snapshot == r.snapshot && t.fed == r.fed + text
  {
    R.NextConserves(r, R.Feed(text));
  }

  lemma ExchangeKeeps(r: R.Rewrite, step: R.Step)
    requires R.Conserved(r) && R.Enabled(r, step) && !step.Feed? && !step.Install?
    ensures var t := R.Next(r, step);
            R.Conserved(t) && t.installed.None? && t.snapshot == r.snapshot && t.fed == r.fed
  {
    R.NextConserves(r, step);
  }

  lemma InstallKeeps(r: R.Rewrite)
    requires R.Conserved(r) && R.Enabled(r, R.Install)
    ensures R.Next(r, R.Install).installed == Some(r.snapshot + r.fed)
  {
    R.NextConserves(r, R.Install);
  }

  /** A rewrite that ends well leaves the file on, with nothing to be written, and the file is
      the print of the child's log; one that fails leaves the file as it was. */
  lemma RewriteEnds(s: Live, effect: Effect, known: set<string>)
    requires Faithful(s, effect, known) && s.child.Some?
    ensures Enabled(s, Install, known) ==>
              Next(s, Install, effect, known) ==
                var file := PrintAll(s.child.value.log);
                s.(file := file, size := |file|, buf := "", selected := -1, on := true, child := None, log := s.child.value.log)
    ensures Next(s, ChildFails, effect, known) == s.(child := None)
  {
    hide PrintAll, Rebuilds;
    if Enabled(s, Install, known) {
      InstallKeeps(s.child.value.rewrite);
    }
  }

  lemma PropagatedNonempty(argv: Argv, db: Db, known: set<string>)
    requires Propagated(argv, db, known)
    ensures argv != []
  {
  }

  lemma NextKeeps(s: Live, step: Step, effect: Effect, known: set<string>)
    requires Faithful(s, effect, known) && Enabled(s, step, known)
    ensures Faithful(Next(s, step, effect, known), effect, known)
  {
    match step
    case Run(db, argv, now) => RunKeeps(s, db, argv, now, effect, known);
    case _ => OtherKeeps(s, step, effect, known);
  }

  lemma OtherKeeps(s: Live, step: Step, effect: Effect, known: set<string>)
    requires Faithful(s, effect, known) && Enabled(s, step, known) && !step.Run?
    ensures Faithful(Next(s, step, effect, known), effect, known)
  {
    hide Rebuilds, AfterFlush, PrintAll, Snapshot;
    match step
    case Flush(written, truncateOk) =>
      FlushKeeps(s, written, truncateOk);
      FlushFrame(s, written, truncateOk);
    case Fork(order) =>
      if s.on { SelectedIrrelevant(s.log, s.data, s.selected, effect, known); }
      SnapshotRebuilds(s.data, order, effect, known);
      var log := Snapshot(s.data, order, 0);
      assert PrintAll(log) + "" == PrintAll(log);
    case Exchange(step) => ExchangeKeeps(s.child.value.rewrite, step);
    case ChildFails =>
    case Install =>
      var c := s.child.value;
      SelectedIrrelevant(c.log, s.data, s.selected, effect, known);
      InstallKeeps(c.rewrite);
      assert c.rewrite.snapshot + c.rewrite.fed + "" == c.rewrite.snapshot + c.rewrite.fed;
  }

  lemma FlushFrame(s: Live, written: int, truncateOk: bool)
    requires -1 <= written <= |s.buf|
    ensures var t := AfterFlush(s, written, truncateOk); t == s.(file := t.file, size := t.size, buf := t.buf)
  {
  }

  // ------------------------------------------------------------------------ the theorem

  /** A server with an empty dataset and an empty file, or one that has just been told to
      switch the append only file on and waits for its first rewrite. */
  ghost predicate Init(s: Live) {
    && s.file == "" && s.size == 0 && s.buf == "" && s.selected == -1 && s.child.None? && s.log == []
    && (s.on ==> s.data == Nothing(|s.data|).data)
  }

  ghost predicate IsRun(run: seq<Live>, steps: seq<Step>, effect: Effect, known: set<string>) {
    && |run| == |steps| + 1 && Init(run[0])
    && forall i | 0 <= i < |steps| ::
         Enabled(run[i], steps[i], known) && run[i + 1] == Next(run[i], steps[i], effect, known)
  }

  lemma {:induction false} AlwaysFaithful(run: seq<Live>, steps: seq<Step>, effect: Effect, known: set<string>, i: nat)
    requires IsRun(run, steps, effect, known) && i < |run|
    ensures Faithful(run[i], effect, known)
  {
    hide Enabled, Next;
    if i > 0 {
      AlwaysFaithful(run, steps, effect, known, i - 1);
      NextKeeps(run[i - 1], steps[i - 1], effect, known);
    }
  }

  /** While the append only file is on, at every point of every run, loading the file with
      the buffer behind it succeeds, and replaying the commands it runs on an empty server
      gives the current dataset. */
  lemma LiveLogRebuilds(run: seq<Live>, steps: seq<Step>, effect: Effect, known: set<string>, i: nat)
    requires IsRun(run, steps, effect, known) && i < |run| && run[i].on
    ensures var r := Load(run[i].file + run[i].buf, true, known);
            && (r.outcome.Loaded? || (r.outcome.Empty? && run[i].file + run[i].buf == ""))
            && (forall k | 0 <= k < |r.client.ran| :: r.client.ran[k] != [])
            && ReplayAll(Nothing(|run[i].data|), r.client.ran, effect).data == run[i].data
  {
    hide IsRun, ReplayAll, RunAll, RunOne, LoadRest, Lower, Print;
    AlwaysFaithful(run, steps, effect, known, i);
    var log := run[i].log;
    PlainRuns(FRESH, log);
    assert [] + log == log;
    if log != [] {
      RoundTrip(log, known);
      LogStarts(log);
    }
  }

  const SET_K := ["SET", "k", "v"]
  const EXPIRE_K := ["PEXPIREAT", "k", "-1"]

  /** A time to live of -1 can be received: SET, then PEXPIREAT with -1, which a replica or a
      server that is loading carries out although the time has passed. */
  lemma SentinelReached(effect: Effect, known: set<string>, now: int) returns (run: seq<Live>, steps: seq<Step>)
    requires Knows(known)
    ensures IsRun(run, steps, effect, known) && steps == [Run(0, SET_K, now), Run(0, EXPIRE_K, now)]
    ensures run[2].on && run[2].data == [map["k" := Entry(Text("v"), Some(-1))]]
  {
    hide FeedText, SelectDb, Translate, Lower;
    SentinelCommands(now, effect, known);
    var empty: Db := map[];
    var s0 := Live([empty], true, "", 0, "", -1, None, []);
    steps := [Run(0, SET_K, now), Run(0, EXPIRE_K, now)];
    var s1 := Next(s0, steps[0], effect, known);
    var s2 := Next(s1, steps[1], effect, known);
    run := [s0, s1, s2];
    assert s0.data == Nothing(1).data;
  }

  lemma SentinelCommands(now: int, effect: Effect, known: set<string>)
    requires Knows(known)
    ensures forall db :: Propagated(SET_K, db, known) && Propagated(EXPIRE_K, db, known)
    ensures TimesFit(SET_K, now) && TimesFit(EXPIRE_K, now)
    ensures Execute(SET_K, [map[]], 0, now, effect) == [map["k" := Entry(Text("v"), None)]]
    ensures Execute(EXPIRE_K, [map["k" := Entry(Text("v"), None)]], 0, now, effect) == [map["k" := Entry(Text("v"), Some(-1))]]
  {
    hide Lower, Atoi;
    WordsLower();
    AtoiSignedDec(-1);
    assert SignedDec(-1) == "-1" by { assert Dec(1) == "1"; }
    var db: Db := map["k" := Entry(Text("v"), None)];
    assert Expire(db, "k", -1) == map["k" := Entry(Text("v"), Some(-1))];
    assert Execute(EXPIRE_K, [db], 0, now, effect) == [db][0 := Expire(db, "k", -1)];
  }

  // ------------------------------------------------------------------------- in place

  /** The fields of `server` that feedAppendOnlyFile and flushAppendOnlyFile update. */
  class AppendOnlyFile {
    var on: bool
    var file: string
    var size: nat
    var buf: string
    var selected: int
    var rewriting: bool      // server.aof_child_pid != -1
    var rewriteBuf: string   // contents of the rewrite buffer

    constructor ()
      ensures on && file == "" && size == 0 && buf == "" && selected == -1 && !rewriting && rewriteBuf == ""
    {
      on, file, size, buf, selected, rewriting, rewriteBuf := true, "", 0, "", -1, false, "";
    }

    /** The search for EX and PX in the arguments of SET. */
    method FindExpire(argv: Argv) returns (exarg: Option<string>, pxarg: Option<string>)
      ensures (exarg, pxarg) == Scan(argv, 3, None, None)
    {
      hide Lower;
      exarg, pxarg := None, None;
      var i := 3;
      while i < |argv|
        invariant Scan(argv, i, exarg, pxarg) == Scan(argv, 3, None, None)
      {
        if Lower(argv[i]) == "ex" { exarg := Some(Following(argv, i)); }
        if Lower(argv[i]) == "px" { pxarg := Some(Following(argv, i)); }
        i := i + 1;
      }
    }

    /** feedAppendOnlyFile, for a command with the arguments its kind takes; the assert is
        the serverAssert of the source. */
    method Feed(db: nat, argv: Argv, now: int)
      requires argv != []
      requires KindOf(argv).ExpireLike? ==> |argv| == 3
      requires KindOf(argv).SetExLike? ==> |argv| == 4
      requires KindOf(argv).SetWithOptions? ==> AcceptedSet(argv) && !ParseOptions(argv, 3, NO_OPTIONS).value.foul
      modifies this`selected, this`buf, this`rewriteBuf
      ensures selected == db
      ensures var text := FeedText(old(selected), db, argv, now);
              && buf == (if on then old(buf) + text else old(buf))
              && rewriteBuf == (if rewriting then old(rewriteBuf) + text else old(rewriteBuf))
    {
      hide Lower, Print, PrintAll, When, Scan, ParseOptions, IsInteger, SignedDec;
      ghost var entries: seq<Argv> := [];
      var text := "";
      PrintNothing();
      if db != selected {
        text := CatGenericCommand(text, ["SELECT", Dec(db)]);
        entries := [["SELECT", Dec(db)]];
        PrintOne(["SELECT", Dec(db)]);
        selected := db;
      }
      assert text == PrintAll(entries) && entries == SelectDb(old(selected), db);
      match KindOf(argv) {
        case ExpireLike(seconds, relative) =>
          text := Log(text, entries, ExpireAt(argv[1], When(seconds, relative, argv[2], now)));
          entries := entries + [ExpireAt(argv[1], When(seconds, relative, argv[2], now))];
        case SetExLike(seconds) =>
          text := Log(text, entries, ["SET", argv[1], argv[3]]);
          entries := entries + [["SET", argv[1], argv[3]]];
          text := Log(text, entries, ExpireAt(argv[1], When(seconds, true, argv[2], now)));
          entries := entries + [ExpireAt(argv[1], When(seconds, true, argv[2], now))];
        case SetWithOptions =>
          text := Log(text, entries, argv[..3]);
          entries := entries + [argv[..3]];
          var exarg, pxarg := FindExpire(argv);
          ScanIsSound(argv);
          assert !(exarg.Some? && pxarg.Some?);
          if exarg.Some? {
            text := Log(text, entries, ExpireAt(argv[1], When(true, true, exarg.value, now)));
            entries := entries + [ExpireAt(argv[1], When(true, true, exarg.value, now))];
          }
          if pxarg.Some? {
            text := Log(text, entries, ExpireAt(argv[1], When(false, true, pxarg.value, now)));
            entries := entries + [ExpireAt(argv[1], When(false, true, pxarg.value, now))];
          }
        case AsIs =>
          text := Log(text, entries, argv);
          entries := entries + [argv];
      }
      assert entries == SelectDb(old(selected), db) + Translate(argv, now);
      if on { buf := buf + text; }
      if rewriting { rewriteBuf := rewriteBuf + text; }
    }

    /** flushAppendOnlyFile from the write on, under a policy other than always. */
    method Flush(written: int, truncateOk: bool)
      requires -1 <= written <= |buf|
      modifies this`file, this`size, this`buf
      ensures var s := Live([], on, old(file), old(size), old(buf), selected, None, []);
              var t := AfterFlush(s, written, truncateOk);
              file == t.file && size == t.size && buf == t.buf
    {
      if buf == "" { return; }
      var nwritten := written;
      if nwritten > 0 { file := file + buf[..nwritten]; }
      assert buf[..0] == "" && buf[0..] == buf;
      if nwritten != |buf| {
        if nwritten != -1 && truncateOk {
          file := Truncate(file, size);
          nwritten := -1;
        }
        if nwritten > 0 {
          size := size + nwritten;
          buf := buf[nwritten..];
        }
        return;
      }
      assert buf[..nwritten] == buf;
      size := size + nwritten;
      buf := "";
    }
  }
}
