/**
 loadAppendOnlyFile: the reader, the fake client that runs commands or queues them
 inside MULTI, and the treatment of files cut short.
 */
module AofLoader {
  import opened AofFormat
  import opened Strings

  /** What reading one item from the rest of the file gives. */
  datatype Read<+T> =
    | Got(value: T, rest: string)
    | AtEof                 // nothing left where a command should start
    | ReadErr(feof: bool)
    | FmtErr
    | OutOfMemory           // a negative length, read as a huge unsigned one

  const LINE_MAX: nat := 127   // fgets into char buf[128]

  function Line(s: string): string {
    s[..LineLength(s, LINE_MAX)]
  }

  function AfterLine(s: string): string {
    s[LineLength(s, LINE_MAX)..]
  }

  function ReadArg(s: string): (r: Read<string>)
    ensures r.Got? ==> |r.rest| < |s|
    ensures !r.AtEof?
  {
    if s == [] then ReadErr(true)
    else
      var line, rest := Line(s), AfterLine(s);
      if line[0] != '$' then FmtErr
      else
        var len := Atoi(line[1..]);
        if len < 0 then OutOfMemory
        else if |rest| < len then ReadErr(true)
        else if |rest| < len + 2 then ReadErr(true)
        else Got(rest[..len], rest[len + 2..])
  }

  function ReadArgs(s: string, n: nat): (r: Read<Argv>)
    ensures r.Got? ==> |r.rest| <= |s| && |r.value| == n
    ensures !r.AtEof?
    decreases n
  {
    if n == 0 then Got([], s)
    else
      match ReadArg(s)
      case Got(a, rest) =>
        (match ReadArgs(rest, n - 1)
         case Got(argv, rest') => Got([a] + argv, rest')
         case AtEof => AtEof
         case ReadErr(feof) => ReadErr(feof)
         case FmtErr => FmtErr
         case OutOfMemory => OutOfMemory)
      case AtEof => AtEof
      case ReadErr(feof) => ReadErr(feof)
      case FmtErr => FmtErr
      case OutOfMemory => OutOfMemory
  }

  function ReadCommand(s: string): (r: Read<Argv>)
    ensures r.Got? ==> |r.rest| < |s| && r.value != []
  {
    if s == [] then AtEof
    else
      var line := Line(s);
      if line[0] != '*' then FmtErr
      else if |line| == 1 || line[1] == '\0' then ReadErr(|line| == |s| && |line| < LINE_MAX && line[|line| - 1] != '\n')
      else
        var argc := Atoi(line[1..]);
        if argc < 1 then FmtErr else ReadArgs(AfterLine(s), argc)
  }

  // -------------------------------------------------------------- the fake client

  /** Commands run so far, and the queue of an open MULTI. */
  datatype Client = Client(multi: bool, queue: seq<Argv>, ran: seq<Argv>)

  function Name(argv: Argv): string
    requires argv != []
  {
    Lower(argv[0])
  }

  function RunOne(c: Client, argv: Argv): Client
    requires argv != []
  {
    if c.multi && Name(argv) != "exec" then c.(queue := c.queue + [argv])
    else if Name(argv) == "multi" then c.(multi := true, queue := [])
    else if Name(argv) == "exec" then
      if c.multi then Client(false, [], c.ran + c.queue) else c
    else c.(ran := c.ran + [argv])
  }

  function RunAll(c: Client, log: seq<Argv>): Client
    requires forall i | 0 <= i < |log| :: log[i] != []
    decreases |log|
  {
    if log == [] then c else RunAll(RunOne(c, log[0]), log[1..])
  }

  const FRESH := Client(false, [], [])

  /** Outside MULTI every other command is run at once. */
  lemma {:induction false} PlainRuns(c: Client, log: seq<Argv>)
    requires !c.multi
    requires forall i | 0 <= i < |log| :: log[i] != [] && Name(log[i]) != "multi" && Name(log[i]) != "exec"
    ensures RunAll(c, log) == c.(ran := c.ran + log)
    decreases |log|
  {
    hide Lower;
    if log == [] {
      assert c.ran + [] == c.ran;
    } else {
      PlainRuns(RunOne(c, log[0]), log[1..]);
      assert c.ran + [log[0]] + log[1..] == c.ran + log;
    }
  }

  // -------------------------------------------------------------------- the loader

  datatype Outcome =
    | Loaded
    | TruncatedAt(offset: nat)   // short read tolerated: the file is cut to `offset`
    | Empty                      // zero-length file
    | RdbPreamble                // handed over to the RDB loader
    | UnexpectedEof              // the remaining outcomes end the process
    | Unrecoverable
    | BadFormat
    | UnknownCommand
    | NoMemory

  datatype Result = Result(client: Client, outcome: Outcome)

  function ShortRead(c: Client, truncated: bool, valid: nat): Result {
    Result(c, if truncated then TruncatedAt(valid) else UnexpectedEof)
  }

  /** The loop: `s` is what is left of a file of `total` characters, `valid` is
      valid_up_to and `before` is valid_before_multi. */
  function LoadRest(s: string, total: nat, truncated: bool, known: set<string>, c: Client, valid: nat, before: nat): Result
    requires |s| <= total
    decreases |s|
  {
    match ReadCommand(s)
    case AtEof => if c.multi then ShortRead(c, truncated, before) else Result(c, Loaded)
    case ReadErr(feof) => if feof then ShortRead(c, truncated, valid) else Result(c, Unrecoverable)
    case FmtErr => Result(c, BadFormat)
    case OutOfMemory => Result(c, NoMemory)
    case Got(argv, rest) =>
      if Name(argv) !in known then Result(c, UnknownCommand)
      else
        LoadRest(rest, total, truncated, known, RunOne(c, argv),
                 if truncated then total - |rest| else valid,
                 if Name(argv) == "multi" then valid else before)
  }

  /** loadAppendOnlyFile on a file that can be opened; `truncated` is aof-load-truncated. */
  function Load(f: string, truncated: bool, known: set<string>): Result {
    if f == [] then Result(FRESH, Empty)
    else if "REDIS" <= f then Result(FRESH, RdbPreamble)
    else LoadRest(f, |f|, truncated, known, FRESH, 0, 0)
  }

  // ------------------------------------------------------------ reading back a print

  /** A printed header line: a mark, a number, CRLF. */
  lemma HeaderLine(mark: char, n: nat, rest: string)
    requires n < 0x8000_0000_0000_0000 && mark != '\n'
    ensures var s := [mark] + Dec(n) + CRLF + rest;
            && s != [] && Line(s) == [mark] + Dec(n) + CRLF && AfterLine(s) == rest
            && Atoi(Line(s)[1..]) == n
  {
    var line := [mark] + Dec(n) + "\r";
    var s := [mark] + Dec(n) + CRLF + rest;
    assert s == line + "\n" + rest;
    NineteenDigits();
    DecLength(n, 19);
    assert '\n' !in line;
    LineEnds(line, rest, LINE_MAX);
    assert Line(s) == line + "\n";
    assert Line(s)[1..] == Dec(n) + CRLF;
    AtoiDec(n, CRLF);
  }

  lemma ReadPrintedArg(a: string, rest: string)
    requires |a| < 0x8000_0000_0000_0000
    ensures ReadArg(Bulk(a) + rest) == Got(a, rest)
  {
    var s := Bulk(a) + rest;
    assert s == ['$'] + Dec(|a|) + CRLF + (a + CRLF + rest);
    HeaderLine('$', |a|, a + CRLF + rest);
    assert (a + CRLF + rest)[..|a|] == a && (a + CRLF + rest)[|a| + 2..] == rest;
  }

  lemma {:induction false} ReadPrintedArgs(argv: Argv, rest: string)
    requires forall i | 0 <= i < |argv| :: |argv[i]| < 0x8000_0000_0000_0000
    ensures ReadArgs(Bulks(argv) + rest, |argv|) == Got(argv, rest)
  {
    if argv == [] {
      assert Bulks(argv) + rest == rest;
    } else {
      assert Bulks(argv) + rest == Bulk(argv[0]) + (Bulks(argv[1..]) + rest);
      ReadPrintedArg(argv[0], Bulks(argv[1..]) + rest);
      ReadPrintedArgs(argv[1..], rest);
      assert [argv[0]] + argv[1..] == argv;
    }
  }

  /** Reading a printed command gives back its arguments and stops right after it. */
  lemma ReadPrintedCommand(argv: Argv, rest: string)
    requires Printable(argv)
    ensures ReadCommand(Print(argv) + rest) == Got(argv, rest)
  {
    var s := Print(argv) + rest;
    assert s == ['*'] + Dec(|argv|) + CRLF + (Bulks(argv) + rest);
    HeaderLine('*', |argv|, Bulks(argv) + rest);
    assert Line(s)[1] == Dec(|argv|)[0];
    ReadPrintedArgs(argv, rest);
  }

  // ------------------------------------------------------------- reading a cut print

  lemma AtoiCutHeader(n: nat, k: nat)
    requires k <= |Dec(n) + "\r"|
    ensures Atoi((Dec(n) + "\r")[..k]) >= 0
    ensures n > 0 && k > 0 ==> Atoi((Dec(n) + "\r")[..k]) >= 1
  {
    var s := (Dec(n) + "\r")[..k];
    if k > |Dec(n)| {
      assert s == Dec(n) + "\r";
      AtoiDec(n, "\r");
    } else {
      assert s == Dec(n)[..k];
      if k > 0 {
        assert IsDigit(s[0]);
        if n > 0 { AtoiCutDec(n, k); }
      }
    }
  }

  /** A header line cut before its newline is read to the end of the file. */
  lemma CutHeader(mark: char, n: nat, k: nat)
    requires n < 0x8000_0000_0000_0000 && mark != '\n' && 0 < k < |[mark] + Dec(n) + CRLF|
    ensures var s := ([mark] + Dec(n) + CRLF)[..k];
            && Line(s) == s && AfterLine(s) == [] && s[0] == mark
            && |s| < LINE_MAX && s[|s| - 1] != '\n'
            && s[1..] == (Dec(n) + "\r")[..k - 1]
  {
    hide Dec, LineLength;
    var d, h := Dec(n), [mark] + Dec(n) + CRLF;
    var s := h[..k];
    NineteenDigits();
    DecLength(n, 19);
    var line := [mark] + (d + "\r");
    assert h == line + "\n" && s == line[..k];
    assert '\n' !in line;
    forall i | 0 <= i < |s| ensures s[i] != '\n' {
      assert s[i] == line[i] && line[i] in line;
    }
    LineCut(s, LINE_MAX);
  }

  lemma CutArg(a: string, k: nat)
    requires |a| < 0x8000_0000_0000_0000 && k < |Bulk(a)|
    ensures ReadArg(Bulk(a)[..k]) == ReadErr(true)
  {
    var h := ['$'] + Dec(|a|) + CRLF;
    var s := Bulk(a)[..k];
    assert Bulk(a) == h + (a + CRLF);
    if k == 0 {
    } else if k < |h| {
      assert s == h[..k];
      CutHeader('$', |a|, k);
      AtoiCutHeader(|a|, k - 1);
    } else {
      var rest := (a + CRLF)[..k - |h|];
      assert s == h + rest;
      HeaderLine('$', |a|, rest);
    }
  }

  lemma {:induction false} CutArgs(argv: Argv, k: nat)
    requires forall i | 0 <= i < |argv| :: |argv[i]| < 0x8000_0000_0000_0000
    requires k < |Bulks(argv)|
    ensures ReadArgs(Bulks(argv)[..k], |argv|) == ReadErr(true)
  {
    var first := Bulk(argv[0]);
    if k < |first| {
      assert Bulks(argv)[..k] == first[..k];
      CutArg(argv[0], k);
    } else {
      assert Bulks(argv)[..k] == first + Bulks(argv[1..])[..k - |first|];
      ReadPrintedArg(argv[0], Bulks(argv[1..])[..k - |first|]);
      CutArgs(argv[1..], k - |first|);
    }
  }

  /** A command cut anywhere is a read error at the end of the file, never bad format. */
  lemma CutCommand(argv: Argv, k: nat)
    requires Printable(argv) && 0 < k < |Print(argv)|
    ensures ReadCommand(Print(argv)[..k]) == ReadErr(true)
  {
    hide Bulks, Dec, Atoi, LineLength;
    var h := ['*'] + Dec(|argv|) + CRLF;
    var s := Print(argv)[..k];
    assert Print(argv) == h + Bulks(argv);
    if k < |h| {
      assert s == h[..k];
      CutHeader('*', |argv|, k);
      AtoiCutHeader(|argv|, k - 1);
      if k > 1 {
        assert s[1] == s[1..][0] == (Dec(|argv|) + "\r")[0];
        var argc := Atoi(s[1..]);
        assert ReadArgs([], argc) == ReadErr(true);
      }
    } else {
      var rest := Bulks(argv)[..k - |h|];
      assert s == h + rest;
      HeaderLine('*', |argv|, rest);
      assert Line(s)[1] == Dec(|argv|)[0];
      CutArgs(argv, k - |h|);
    }
  }

  // ----------------------------------------------------------------- loading a print

  ghost predicate IsLog(log: seq<Argv>, known: set<string>) {
    forall i | 0 <= i < |log| :: Printable(log[i]) && Name(log[i]) in known
  }

  /** valid_before_multi after the commands of `log`, the first of which starts at `start`. */
  function MultiOffset(log: seq<Argv>, start: nat, before: nat): nat
    requires forall i | 0 <= i < |log| :: log[i] != []
    decreases |log|
  {
    if log == [] then before
    else MultiOffset(log[1..], start + |Print(log[0])|, if Name(log[0]) == "multi" then start else before)
  }

  lemma {:induction false} LoadLog(log: seq<Argv>, tail: string, total: nat, known: set<string>, c: Client, before: nat)
    requires IsLog(log, known) && |PrintAll(log) + tail| <= total
    ensures var start := total - |PrintAll(log) + tail|;
            LoadRest(PrintAll(log) + tail, total, true, known, c, start, before)
            == LoadRest(tail, total, true, known, RunAll(c, log), total - |tail|, MultiOffset(log, start, before))
    decreases |log|
  {
    hide ReadCommand, Print, RunOne, Lower, Printable;
    var s := PrintAll(log) + tail;
    if log == [] {
      assert s == tail;
    } else {
      var rest := PrintAll(log[1..]) + tail;
      assert s == Print(log[0]) + rest;
      ReadPrintedCommand(log[0], rest);
      LoadLog(log[1..], tail, total, known, RunOne(c, log[0]), if Name(log[0]) == "multi" then total - |s| else before);
    }
  }

  /** How many commands of the log are whole in its first `k` characters. */
  function Complete(log: seq<Argv>, k: nat): (m: nat)
    ensures m <= |log|
    decreases |log|
  {
    if log == [] || k < |Print(log[0])| then 0 else 1 + Complete(log[1..], k - |Print(log[0])|)
  }

  /** A cut log is its whole commands and a proper part of the next one. */
  lemma {:induction false} CutSplits(log: seq<Argv>, k: nat)
    requires k <= |PrintAll(log)|
    ensures var m := Complete(log, k);
            && |PrintAll(log[..m])| <= k
            && (k > |PrintAll(log[..m])| ==> m < |log| && k - |PrintAll(log[..m])| < |Print(log[m])|)
            && PrintAll(log)[..k] == PrintAll(log[..m])
                                     + if m < |log| then Print(log[m])[..k - |PrintAll(log[..m])|] else ""
    decreases |log|
  {
    hide Print;
    var m := Complete(log, k);
    if log == [] {
      assert log[..0] == log;
    } else if k < |Print(log[0])| {
      assert log[..0] == [];
      assert PrintAll(log)[..k] == Print(log[0])[..k];
    } else {
      var k' := k - |Print(log[0])|;
      CutSplits(log[1..], k');
      var m' := Complete(log[1..], k');
      assert log[..m][1..] == log[1..][..m'];
      assert PrintAll(log[..m]) == Print(log[0]) + PrintAll(log[1..][..m']);
      assert PrintAll(log)[..k] == Print(log[0]) + PrintAll(log[1..])[..k'];
      if m < |log| { assert log[1..][m'] == log[m]; }
    }
  }

  /** The end of the first `k` characters of a log: on a command boundary or inside one. */
  predicate MidCommand(log: seq<Argv>, k: nat) {
    k != |PrintAll(log[..Complete(log, k)])|
  }

  lemma NothingLeft()
    ensures ReadCommand("") == AtEof
  {
  }

  lemma LogStarts(log: seq<Argv>)
    ensures PrintAll(log) != [] ==> PrintAll(log)[0] == '*'
    ensures log != [] ==> PrintAll(log) != []
  {
    if log != [] { assert PrintAll(log)[0] == Print(log[0])[0]; }
  }

  /** Loading a log cut at any character, with aof-load-truncated on: the whole commands
      are run (those of an open MULTI stay queued), the cut is never taken for a format
      error, and the file is kept whole or cut at a command boundary: after the last whole
      command if the cut is inside a command, before the last MULTI if it is not. */
  lemma LoadCut(log: seq<Argv>, k: nat, known: set<string>)
    requires IsLog(log, known) && 0 < k <= |PrintAll(log)|
    ensures var m := Complete(log, k);
            var client := RunAll(FRESH, log[..m]);
            Load(PrintAll(log)[..k], true, known) ==
              Result(client, if MidCommand(log, k) then TruncatedAt(|PrintAll(log[..m])|)
                             else if client.multi then TruncatedAt(MultiOffset(log[..m], 0, 0))
                             else Loaded)
  {
    hide ReadCommand, Print, PrintAll, Complete, RunOne, RunAll, Lower, Printable;
    var m := Complete(log, k);
    CutSplits(log, k);
    var f := PrintAll(log)[..k];
    var whole := log[..m];
    var tail := if m < |log| then Print(log[m])[..k - |PrintAll(whole)|] else "";
    assert f == PrintAll(whole) + tail && |f| == k;
    LogStarts(log);
    LoadLog(whole, tail, k, known, FRESH, 0);
    if MidCommand(log, k) {
      CutCommand(log[m], k - |PrintAll(whole)|);
    } else {
      assert tail == "";
      NothingLeft();
    }
  }

  /** Round trip: a whole log is loaded to the end and runs exactly its commands, unless it
      stops inside a MULTI. */
  lemma RoundTrip(log: seq<Argv>, known: set<string>)
    requires IsLog(log, known) && log != [] && !RunAll(FRESH, log).multi
    ensures Load(PrintAll(log), true, known) == Result(RunAll(FRESH, log), Loaded)
  {
    hide ReadCommand, Print, PrintAll, RunOne, RunAll, Lower;
    var f := PrintAll(log);
    LogStarts(log);
    NothingLeft();
    assert f + "" == f;
    LoadLog(log, "", |f|, known, FRESH, 0);
  }

  // --------------------------------------------------------------- what is not tolerated

  /** With aof-load-truncated off, every file loads as with it on, except that a short read is
      fatal where it would have been tolerated. */
  lemma StrictLoad(f: string, known: set<string>)
    ensures var r := Load(f, true, known);
            Load(f, false, known) == r.(outcome := if r.outcome.TruncatedAt? then UnexpectedEof else r.outcome)
  {
    StrictRest(f, |f|, known, FRESH, 0, 0, 0, 0);
  }

  lemma {:induction false} StrictRest(s: string, total: nat, known: set<string>, c: Client,
                                      valid: nat, before: nat, valid': nat, before': nat)
    requires |s| <= total
    ensures var r := LoadRest(s, total, true, known, c, valid, before);
            LoadRest(s, total, false, known, c, valid', before')
            == r.(outcome := if r.outcome.TruncatedAt? then UnexpectedEof else r.outcome)
    decreases |s|
  {
    hide ReadCommand, RunOne, Lower;
    match ReadCommand(s)
    case Got(argv, rest) =>
      if Name(argv) in known {
        StrictRest(rest, total, known, RunOne(c, argv), total - |rest|, if Name(argv) == "multi" then valid else before,
                   valid', if Name(argv) == "multi" then valid' else before');
      }
    case _ =>
  }

  /** Behind a log, a command that nobody knows and anything that is no command end the load;
      what was run before stays. */
  lemma ForeignText(log: seq<Argv>, argv: Argv, tail: string, junk: string, known: set<string>)
    requires IsLog(log, known) && log != [] && Printable(argv) && Name(argv) !in known
    requires junk != [] && junk[0] != '*'
    ensures Load(PrintAll(log) + (Print(argv) + tail), true, known) == Result(RunAll(FRESH, log), UnknownCommand)
    ensures Load(PrintAll(log) + junk, true, known) == Result(RunAll(FRESH, log), BadFormat)
  {
    hide Print, PrintAll, RunOne, RunAll, Lower, Printable, ReadCommand;
    LogStarts(log);
    var f, g := PrintAll(log) + (Print(argv) + tail), PrintAll(log) + junk;
    assert f[0] == '*' && g[0] == '*' && "REDIS"[0] == 'R';
    LoadLog(log, Print(argv) + tail, |f|, known, FRESH, 0);
    ReadPrintedCommand(argv, tail);
    LoadLog(log, junk, |g|, known, FRESH, 0);
    JunkIs(junk);
  }

  lemma JunkIs(junk: string)
    requires junk != [] && junk[0] != '*'
    ensures ReadCommand(junk) == FmtErr
  {
    assert Line(junk)[0] == junk[0];
  }

  // --------------------------------------------------- what happens to later commands

  lemma {:induction false} RunConcat(c: Client, a: seq<Argv>, b: seq<Argv>)
    requires forall i | 0 <= i < |a| :: a[i] != []
    requires forall i | 0 <= i < |b| :: b[i] != []
    ensures RunAll(c, a + b) == RunAll(RunAll(c, a), b)
    decreases |a|
  {
    hide RunOne;
    if a == [] {
      assert a + b == b;
    } else {
      assert (a + b)[1..] == a[1..] + b;
      RunConcat(RunOne(c, a[0]), a[1..], b);
    }
  }

  /** Commands run outside MULTI do not depend on what ran before. */
  lemma {:induction false} RunAfter(c: Client, prior: seq<Argv>, log: seq<Argv>)
    requires forall i | 0 <= i < |log| :: log[i] != []
    ensures RunAll(c.(ran := prior + c.ran), log) == (var d := RunAll(c, log); d.(ran := prior + d.ran))
    decreases |log|
  {
    if log != [] {
      var c' := c.(ran := prior + c.ran);
      assert RunOne(c', log[0]).ran == prior + RunOne(c, log[0]).ran;
      RunAfter(RunOne(c, log[0]), prior, log[1..]);
    }
  }

  /** Outside MULTI the queue is empty. */
  lemma {:induction false} QueueEmpty(c: Client, log: seq<Argv>)
    requires forall i | 0 <= i < |log| :: log[i] != []
    requires !c.multi ==> c.queue == []
    ensures var d := RunAll(c, log); !d.multi ==> d.queue == []
    decreases |log|
  {
    if log != [] { QueueEmpty(RunOne(c, log[0]), log[1..]); }
  }

  /** The server logs MULTI only outside MULTI. */
  ghost predicate NotNested(log: seq<Argv>)
    requires forall i | 0 <= i < |log| :: log[i] != []
  {
    forall i | 0 <= i < |log| && Name(log[i]) == "multi" :: !RunAll(FRESH, log[..i]).multi
  }

  lemma {:induction false} MultiOffsetSnoc(a: seq<Argv>, x: Argv, start: nat, before: nat)
    requires x != [] && forall i | 0 <= i < |a| :: a[i] != []
    ensures MultiOffset(a + [x], start, before) ==
            if Name(x) == "multi" then start + |PrintAll(a)| else MultiOffset(a, start, before)
    decreases |a|
  {
    hide Print, Lower;
    if a == [] {
      assert a + [x] == [x] && [x][1..] == [];
      assert MultiOffset([x][1..], start + |Print(x)|, if Name(x) == "multi" then start else before)
             == if Name(x) == "multi" then start else before;
    } else {
      assert (a + [x])[1..] == a[1..] + [x];
      MultiOffsetSnoc(a[1..], x, start + |Print(a[0])|, if Name(a[0]) == "multi" then start else before);
    }
  }

  /** valid_before_multi is where the open MULTI starts: the commands before it leave no
      MULTI open and have run what the whole log has run. */
  lemma {:induction false} RevertPoint(log: seq<Argv>) returns (i: nat)
    requires forall k | 0 <= k < |log| :: log[k] != []
    requires NotNested(log) && RunAll(FRESH, log).multi
    ensures i < |log| && MultiOffset(log, 0, 0) == |PrintAll(log[..i])|
    ensures !RunAll(FRESH, log[..i]).multi && RunAll(FRESH, log[..i]).ran == RunAll(FRESH, log).ran
    decreases |log|
  {
    hide Print, Lower;
    var a, x := log[..|log| - 1], log[|log| - 1];
    assert log == a + [x];
    RunConcat(FRESH, a, [x]);
    assert RunAll(FRESH, log) == RunOne(RunAll(FRESH, a), x) by { assert [x][1..] == []; }
    MultiOffsetSnoc(a, x, 0, 0);
    if RunAll(FRESH, a).multi {
      assert NotNested(a) by {
        forall k | 0 <= k < |a| && Name(a[k]) == "multi" ensures !RunAll(FRESH, a[..k]).multi {
          assert a[..k] == log[..k] && a[k] == log[k];
        }
      }
      assert Name(log[|log| - 1]) != "multi";
      i := RevertPoint(a);
      assert log[..i] == a[..i];
    } else {
      i := |a|;
    }
  }

  /** The file that a load leaves on disk. */
  function FileAfter(f: string, r: Result): string {
    if r.outcome.TruncatedAt? && r.outcome.offset <= |f| then f[..r.outcome.offset] else f
  }

  /** Loading a log followed by another, from a boundary at which no MULTI is open. */
  lemma LoadContinued(log: seq<Argv>, later: seq<Argv>, known: set<string>)
    requires IsLog(log, known) && IsLog(later, known) && later != []
    ensures Load(PrintAll(log) + PrintAll(later), true, known).client == RunAll(RunAll(FRESH, log), later)
  {
    hide ReadCommand, Print, PrintAll, RunOne, RunAll, Lower;
    var all := log + later;
    PrintAllConcat(log, later);
    var f := PrintAll(all);
    LogStarts(all);
    assert f + "" == f;
    LoadLog(all, "", |f|, known, FRESH, 0);
    NothingLeft();
    RunConcat(FRESH, log, later);
  }

  /** After a short read was tolerated, the file on disk is the print of a prefix of the log. */
  lemma FileIsPrefix(log: seq<Argv>, k: nat, known: set<string>) returns (i: nat)
    requires IsLog(log, known) && NotNested(log) && 0 < k <= |PrintAll(log)|
    ensures var m := Complete(log, k);
            var f := PrintAll(log)[..k];
            && i <= m <= |log| && (MidCommand(log, k) || !RunAll(FRESH, log[..m]).multi ==> i == m)
            && FileAfter(f, Load(f, true, known)) == PrintAll(log[..i])
            && RunAll(FRESH, log[..i]).ran == RunAll(FRESH, log[..m]).ran
            && (RunAll(FRESH, log[..i]).multi <==> MidCommand(log, k) && RunAll(FRESH, log[..m]).multi)
  {
    hide Load, Print, RunAll, Lower, Complete, MultiOffset;
    var m := Complete(log, k);
    var whole := log[..m];
    LoadCut(log, k, known);
    CutSplits(log, k);
    if !MidCommand(log, k) && RunAll(FRESH, whole).multi {
      assert NotNested(whole) by {
        forall x | 0 <= x < |whole| && Name(whole[x]) == "multi" ensures !RunAll(FRESH, whole[..x]).multi {
          assert whole[..x] == log[..x] && whole[x] == log[x];
        }
      }
      i := RevertPoint(whole);
      assert whole[..i] == log[..i];
      PrintAllConcat(whole[..i], whole[i..]);
      assert whole[..i] + whole[i..] == whole;
    } else {
      i := m;
    }
  }

  /** A server that loads a cut log, truncates the file and goes on appending keeps what it
      appends, at the next load, for every later log, exactly when the cut was not inside a
      command of an open MULTI. */
  lemma LaterCommandsSurvive(log: seq<Argv>, k: nat, later: seq<Argv>, known: set<string>)
    requires IsLog(log, known) && NotNested(log) && 0 < k <= |PrintAll(log)|
    requires IsLog(later, known) && later != []
    requires !(MidCommand(log, k) && RunAll(FRESH, log[..Complete(log, k)]).multi)
    ensures var f := PrintAll(log)[..k];
            var first := Load(f, true, known);
            var second := Load(FileAfter(f, first) + PrintAll(later), true, known);
            second.client.ran == first.client.ran + RunAll(FRESH, later).ran
  {
    hide Load, Print, PrintAll, RunAll, Lower, Complete, MultiOffset;
    var i := FileIsPrefix(log, k, known);
    LoadCut(log, k, known);
    LoadContinued(log[..i], later, known);
    var c := RunAll(FRESH, log[..i]);
    QueueEmpty(FRESH, log[..i]);
    assert c == FRESH.(ran := c.ran + FRESH.ran);
    RunAfter(FRESH, c.ran, later);
  }

  function FirstExec(log: seq<Argv>): (e: nat)
    requires forall i | 0 <= i < |log| :: log[i] != []
    ensures e <= |log|
    decreases |log|
  {
    if log == [] || Name(log[0]) == "exec" then 0 else 1 + FirstExec(log[1..])
  }

  /** Inside an open MULTI everything up to the next EXEC is queued, then run at once. */
  lemma {:induction false} MultiQueues(c: Client, log: seq<Argv>)
    requires c.multi && forall i | 0 <= i < |log| :: log[i] != []
    ensures var e := FirstExec(log);
            RunAll(c, log) == if e < |log| then RunAll(Client(false, [], c.ran + (c.queue + log[..e])), log[e + 1..])
                              else c.(queue := c.queue + log)
    decreases |log|
  {
    hide Lower;
    if log == [] {
      assert c.queue + [] == c.queue;
    } else if Name(log[0]) == "exec" {
      assert c.queue + log[..0] == c.queue;
    } else {
      var e1 := FirstExec(log[1..]);
      MultiQueues(RunOne(c, log[0]), log[1..]);
      assert c.queue + [log[0]] + log[1..][..e1] == c.queue + log[..e1 + 1];
      assert c.queue + [log[0]] + log[1..] == c.queue + log;
      assert e1 < |log[1..]| ==> log[1..][e1 + 1..] == log[e1 + 2..];
    }
  }

  /** Otherwise the truncated file still ends inside the MULTI. Every later command is lost
      until an EXEC comes along; then the half transaction runs after all, and the later
      commands up to that EXEC with it. */
  lemma LaterCommandsLost(log: seq<Argv>, k: nat, later: seq<Argv>, known: set<string>)
    requires IsLog(log, known) && NotNested(log) && 0 < k <= |PrintAll(log)|
    requires IsLog(later, known) && later != []
    requires MidCommand(log, k) && RunAll(FRESH, log[..Complete(log, k)]).multi
    ensures var f := PrintAll(log)[..k];
            var first := Load(f, true, known);
            var second := Load(FileAfter(f, first) + PrintAll(later), true, known);
            var half, e := RunAll(FRESH, log[..Complete(log, k)]).queue, FirstExec(later);
            second.client.ran == first.client.ran
                                 + if e < |later| then half + later[..e] + RunAll(FRESH, later[e + 1..]).ran else []
  {
    hide Load, Print, PrintAll, RunAll, Lower, Complete, MultiOffset, FirstExec;
    var i := FileIsPrefix(log, k, known);
    LoadCut(log, k, known);
    LoadContinued(log[..i], later, known);
    var c, e := RunAll(FRESH, log[..i]), FirstExec(later);
    MultiQueues(c, later);
    if e < |later| {
      var ran := c.ran + (c.queue + later[..e]);
      assert Client(false, [], ran) == FRESH.(ran := ran + FRESH.ran);
      RunAfter(FRESH, ran, later[e + 1..]);
      assert ran + RunAll(FRESH, later[e + 1..]).ran == c.ran + (c.queue + later[..e] + RunAll(FRESH, later[e + 1..]).ran);
    }
  }

  lemma {:induction false} CompleteAt(log: seq<Argv>, m: nat, r: nat)
    requires m < |log| && r < |Print(log[m])|
    ensures |PrintAll(log[..m])| + r < |PrintAll(log)|
    ensures Complete(log, |PrintAll(log[..m])| + r) == m
    decreases m
  {
    hide Print;
    if m > 0 {
      CompleteAt(log[1..], m - 1, r);
      assert log[..m][0] == log[0] && log[..m][1..] == log[1..][..m - 1];
    }
  }

  const HALF := [["MULTI"], ["SET", "a", "1"], ["SET", "b", "2"], ["EXEC"]]

  lemma HalfNames()
    ensures Lower("MULTI") == "multi" && Lower("EXEC") == "exec" && Lower("SET") == "set"
  {
  }

  lemma HalfRuns()
    ensures RunAll(FRESH, HALF[..2]) == Client(true, [["SET", "a", "1"]], [])
    ensures NotNested(HALF)
  {
    hide Lower;
    HalfNames();
    var a: Argv, b: Argv := ["MULTI"], ["SET", "a", "1"];
    assert HALF[..2] == [a, b] && [a, b][1..] == [b] && [b][1..] == [];
    var c := RunOne(FRESH, a);
    assert RunAll(c, [b]) == RunOne(c, b);
    forall i | 0 <= i < |HALF| && Name(HALF[i]) == "multi" ensures !RunAll(FRESH, HALF[..i]).multi {
      assert i == 0 && HALF[..0] == [];
    }
  }

  lemma PrintsStart(argv: Argv)
    ensures |Print(argv)| > 1 && Print(argv)[..1] == "*"
  {
  }

  /** The file is the two commands and one character of the third. */
  lemma HalfCut() returns (k: nat)
    ensures 0 < k <= |PrintAll(HALF)| && PrintAll(HALF)[..k] == PrintAll(HALF[..2]) + "*"
    ensures Complete(HALF, k) == 2 && MidCommand(HALF, k)
  {
    hide Print, PrintAll, Complete;
    k := |PrintAll(HALF[..2])| + 1;
    PrintsStart(HALF[2]);
    CompleteAt(HALF, 2, 1);
    CutSplits(HALF, k);
  }

  /** A file cut one character into the third command of a transaction of four: a SET logged
      later is not run at the next load, and if an EXEC follows it runs the first SET too. */
  lemma HalfTransactionRuns(known: set<string>)
    requires {"multi", "exec", "set"} <= known
    ensures var f := PrintAll(HALF[..2]) + "*";
            var first := Load(f, true, known);
            var file := FileAfter(f, first);
            && first.client.ran == []
            && Load(file + PrintAll([["SET", "c", "3"]]), true, known).client.ran == []
            && Load(file + PrintAll([["SET", "c", "3"], ["EXEC"]]), true, known).client.ran
               == [["SET", "a", "1"], ["SET", "c", "3"]]
  {
    hide Load, Print, PrintAll, Complete, Lower, RunAll, FirstExec, MidCommand, NotNested, MultiOffset;
    HalfNames();
    HalfRuns();
    var k := HalfCut();
    LoadCut(HALF, k, known);
    var a, b := [["SET", "c", "3"]], [["SET", "c", "3"], ["EXEC"]];
    LaterCommandsLost(HALF, k, a, known);
    LaterCommandsLost(HALF, k, b, known);
    HalfLater();
    assert [["SET", "a", "1"]] + b[..1] + [] == [["SET", "a", "1"], ["SET", "c", "3"]];
  }

  lemma HalfLater()
    ensures FirstExec([["SET", "c", "3"]]) == 1 && FirstExec([["SET", "c", "3"], ["EXEC"]]) == 1
    ensures RunAll(FRESH, [["SET", "c", "3"], ["EXEC"]][2..]).ran == []
  {
    hide Lower;
    HalfNames();
    var a, b: seq<Argv> := [["SET", "c", "3"]], [["SET", "c", "3"], ["EXEC"]];
    assert a[1..] == [] && b[1..] == [["EXEC"]] && b[2..] == [];
    assert FirstExec(b[1..]) == 0;
  }

  // --------------------------------------------------------------- the loop itself

  /** The inner loop of loadAppendOnlyFile: `argc` bulk strings from `s`. */
  method ReadArguments(s: string, argc: nat) returns (r: Read<Argv>)
    ensures r == ReadArgs(s, argc)
  {
    hide ReadArg;
    var argv: Argv := [];
    var rest := s;
    var j := 0;
    PrefixedNone(ReadArgs(s, argc));
    while j < argc
      invariant 0 <= j <= argc && |argv| == j
      invariant ReadArgs(s, argc) == Prefixed(argv, ReadArgs(rest, argc - j))
    {
      match ReadArg(rest) {
        case Got(value, rest') =>
          PrefixedMore(argv, value, ReadArgs(rest', argc - j - 1));
          argv := argv + [value];
          rest := rest';
        case ReadErr(feof) => return ReadErr(feof);
        case FmtErr => return FmtErr;
        case OutOfMemory => return OutOfMemory;
      }
      j := j + 1;
    }
    assert argv + [] == argv;
    r := Got(argv, rest);
  }

  /** What a read gives once the arguments `argv` are put in front of it. */
  function Prefixed(argv: Argv, r: Read<Argv>): Read<Argv> {
    if r.Got? then Got(argv + r.value, r.rest) else r
  }

  lemma PrefixedNone(r: Read<Argv>)
    ensures Prefixed([], r) == r
  {
    if r.Got? { assert [] + r.value == r.value; }
  }

  lemma PrefixedMore(argv: Argv, a: string, r: Read<Argv>)
    ensures Prefixed(argv, Prefixed([a], r)) == Prefixed(argv + [a], r)
  {
    if r.Got? { assert argv + ([a] + r.value) == argv + [a] + r.value; }
  }

  /** loadAppendOnlyFile. */
  method LoadAppendOnlyFile(f: string, truncated: bool, known: set<string>) returns (r: Result)
    ensures r == Load(f, truncated, known)
  {
    hide ReadArgs, LineLength, Atoi, RunOne, Lower;
    if f == [] { return Result(FRESH, Empty); }
    if "REDIS" <= f { return Result(FRESH, RdbPreamble); }
    var client := FRESH;
    var validUpTo: nat, validBeforeMulti: nat := 0, 0;
    var rest := f;
    while rest != []
      invariant |rest| <= |f|
      invariant Load(f, truncated, known)
                == LoadRest(rest, |f|, truncated, known, client, validUpTo, validBeforeMulti)
      decreases |rest|
    {
      var line := Line(rest);
      if line[0] != '*' { return Result(client, BadFormat); }
      if |line| == 1 || line[1] == '\0' {
        var feof := |line| == |rest| && |line| < LINE_MAX && line[|line| - 1] != '\n';
        if !feof { return Result(client, Unrecoverable); }
        return ShortRead(client, truncated, validUpTo);
      }
      var argc := Atoi(line[1..]);
      if argc < 1 { return Result(client, BadFormat); }
      var args := ReadArguments(AfterLine(rest), argc);
      match args
      case ReadErr(feof) =>
        if !feof { return Result(client, Unrecoverable); }
        return ShortRead(client, truncated, validUpTo);
      case FmtErr => return Result(client, BadFormat);
      case OutOfMemory => return Result(client, NoMemory);
      case Got(argv, rest') =>
        if Name(argv) !in known { return Result(client, UnknownCommand); }
        if Name(argv) == "multi" { validBeforeMulti := validUpTo; }
        client := RunOne(client, argv);
        if truncated { validUpTo := |f| - |rest'|; }
        rest := rest';
    }
    if client.multi {
      return ShortRead(client, truncated, validBeforeMulti);
    }
    return Result(client, Loaded);
  }
}
