/** First come, first served: the queue of a key, and the answers given from it, against the
    order in which the clients blocked, over whole runs. */
module BlockedOrder {
  import opened Wrappers
  import opened Blocked
  import opened BlockedServe
  import opened BlockedFair
  import opened BlockedRun

  type Arrivals = map<ClientId, nat>

  /** The clients of the queue arrived in its order, all at low or later and before high. */
  ghost predicate Sorted(since: Arrivals, q: seq<ClientId>, low: nat, high: nat) {
    && (forall i | 0 <= i < |q| :: q[i] in since && low <= since[q[i]] < high)
    && (forall i, j | 0 <= i < j < |q| :: since[q[i]] < since[q[j]])
  }

  /** Everybody who waits for the key waits for the same type. */
  ghost predicate AllOf(s: Server, k: Key, kind: Kind) {
    forall c | c in Waiting(s, k) :: HasKind(s, c, kind)
  }

  ghost predicate InOrder(s: Server, k: Key, kind: Kind, since: Arrivals, low: nat, high: nat) {
    AllOf(s, k, kind) && Sorted(since, Waiting(s, k), low, high)
  }

  // ------------------------------------------------------------- clients leave the queue

  lemma {:induction false} DropIs(q: seq<ClientId>, c: ClientId) returns (p: nat)
    ensures p <= |q| && Drop(q, c) == q[..p] + if p < |q| then q[p + 1..] else []
    decreases |q|
  {
    p := 0;
    if q != [] && q[0] != c {
      var p1 := DropIs(q[1..], c);
      p := p1 + 1;
      assert [q[0]] + q[1..][..p1] == q[..p];
    }
  }

  lemma DropSorted(since: Arrivals, q: seq<ClientId>, c: ClientId, low: nat, high: nat)
    requires Sorted(since, q, low, high)
    ensures Sorted(since, Drop(q, c), low, high)
    ensures forall d | d in Drop(q, c) :: d in q
  {
    hide Drop;
    var p := DropIs(q, c);
    var r := Drop(q, c);
    forall i | 0 <= i < |r| ensures r[i] == q[if i < p then i else i + 1] {}
  }

  /** A client that leaves all its queues disturbs none of them. */
  lemma LeaverKeepsOrder(s: Server, r: Server, c: ClientId, k: Key, kind: Kind, since: Arrivals, low: nat, high: nat)
    requires Inv(s) && CanUnblock(s, c) && SameIndex(r, Unblock(s, c)) && InOrder(s, k, kind, since, low, high)
    ensures InOrder(r, k, kind, since, low, high)
  {
    hide IndexOk, CountersOk, WithoutClient;
    UnblockKeeps(s, c);
    DropSorted(since, Waiting(s, k), c, low, high);
    AllWait(s, k);
    AllWait(Unblock(s, c), k);
    assert Waiting(r, k) == Waiting(Unblock(s, c), k);
    forall d | d in Waiting(r, k) ensures HasKind(r, d, kind) {
      assert d in Waiting(s, k);
    }
  }

  lemma {:induction false} ServeElsewhere(s: Server, j: Key, own: Kind, n: nat,
                                          k: Key, kind: Kind, since: Arrivals, low: nat, high: nat)
    requires Inv(s) && n <= |Waiting(s, j)| && (j in s.data ==> MatchesKind(s.data[j], own))
    requires j != k && InOrder(s, k, kind, since, low, high)
    ensures InOrder(Serve(s, j, own, n), k, kind, since, low, high)
    decreases n
  {
    hide IndexOk, CountersOk, ServeListClient, ServeZsetClient, Sorted, AllOf, Unblock;
    if n > 0 && !(own.ZsetKind? && Drained(s, j)) {
      FirstWaits(s, j);
      var c := s.waiting[j][0];
      if s.clients[c].kind != Some(own) {
        RotateKeeps(s, j);
        assert InOrder(Rotate(s, j), k, kind, since, low, high) by { SameQueue(s, Rotate(s, j), k, kind, since, low, high); }
        ServeElsewhere(Rotate(s, j), j, own, n - 1, k, kind, since, low, high);
      } else if !Drained(s, j) {
        ServeOneKeeps(s, c, j, own);
        if s.data[j].List? {
          ServeListFrame(s, c, j);
        } else {
          ServeZsetFrame(s, c, j);
        }
        LeaverKeepsOrder(s, ServeOne(s, c, j), c, k, kind, since, low, high);
        ServeElsewhere(ServeOne(s, c, j), j, own, n - 1, k, kind, since, low, high);
      }
    }
  }

  lemma SameQueue(s: Server, r: Server, k: Key, kind: Kind, since: Arrivals, low: nat, high: nat)
    requires InOrder(s, k, kind, since, low, high) && r.clients == s.clients && Waiting(r, k) == Waiting(s, k)
    ensures InOrder(r, k, kind, since, low, high)
  {
  }

  lemma {:induction false} StreamKeepsOrder(s: Server, j: Key, q: seq<ClientId>,
                                            k: Key, kind: Kind, since: Arrivals, low: nat, high: nat)
    requires Inv(s) && j in s.data && s.data[j].Stream?
    requires NoDup(q) && forall i | 0 <= i < |q| :: WaitsFor(s.clients, q[i], j)
    requires InOrder(s, k, kind, since, low, high)
    ensures InOrder(ServeStream(s, j, q), k, kind, since, low, high)
    decreases |q|
  {
    hide IndexOk, CountersOk, Sorted, AllOf, WithoutClient;
    if q != [] {
      var c, last := q[0], s.data[j].last;
      if s.clients[c].kind == Some(StreamKind) && s.clients[c].keys[j] < last {
        BlockedCounts(s, c);
        UnblockKeeps(s, c);
        UnblockOthers(s, c);
        var s1 := Answer(Unblock(s, c), c, Entries(j, s.clients[c].keys[j], last));
        LeaverKeepsOrder(s, s1, c, k, kind, since, low, high);
        StreamKeepsOrder(s1, j, q[1..], k, kind, since, low, high);
      } else {
        StreamKeepsOrder(s, j, q[1..], k, kind, since, low, high);
      }
    }
  }

  // ------------------------------------------------------------------ the key's own pass

  lemma {:induction false} AllOfKind(clients: Clients, q: seq<ClientId>, kind: Kind, own: Kind)
    requires forall i | 0 <= i < |q| :: q[i] in clients && clients[q[i]].kind == Some(kind)
    ensures Filter(clients, q, own) == if own == kind then q else []
    ensures Others(clients, q, own) == if own == kind then [] else q
    decreases |q|
  {
    if q != [] {
      AllOfKind(clients, q[1..], kind, own);
      assert q == [q[0]] + q[1..];
    }
  }

  lemma {:induction false} VisitedAll(s: Server, k: Key, q: seq<ClientId>, own: Kind, items: nat)
    requires forall i | 0 <= i < |q| :: !HasKind(s, q[i], own)
    ensures Visited(s, k, q, own, items) == 0 || Visited(s, k, q, own, items) == |q|
    decreases |q|
  {
    if q != [] {
      VisitedAll(s, k, q[1..], own, items);
    }
  }

  /** A pass over a queue of one type answers a prefix of it and leaves the rest as it was:
      a pass for another type answers nobody and turns the queue all the way round. */
  lemma ServeHere(s: Server, k: Key, own: Kind, kind: Kind) returns (m: nat)
    requires Inv(s) && k in s.data && MatchesKind(s.data[k], own) && AllOf(s, k, kind)
    ensures m <= |Waiting(s, k)|
    ensures var t := Serve(s, k, own, |Waiting(s, k)|);
            && Waiting(t, k) == Waiting(s, k)[m..] && AllOf(t, k, kind)
            && Who(t.replies) == Who(s.replies) + Waiting(s, k)[..m]
  {
    hide IndexOk, CountersOk, Serve, Filter, Others, Who, Visited;
    var w := Waiting(s, k);
    var v := Visited(s, k, w, own, ItemCount(s, k));
    assert w + [] == w;
    PassIs(s, k, own, w, []);
    forall i | 0 <= i < |w| ensures w[i] in s.clients && s.clients[w[i]].kind == Some(kind) {
      assert w[i] in w;
    }
    AllOfKind(s.clients, w[..v], kind, own);
    if own == kind {
      m := v;
      assert w[v..] + [] + [] == w[v..];
    } else {
      m := 0;
      VisitedAll(s, k, w, own, ItemCount(s, k));
      assert w[v..] + [] + w[..v] == w;
      assert Who(s.replies) + [] == Who(s.replies);
    }
    var t := Serve(s, k, own, |w|);
    forall c | c in Waiting(t, k) ensures HasKind(t, c, kind) {
      assert c in w && SameClient(s, t, c);
    }
  }

  // ----------------------------------------------------------------------- handling keys

  function NewReplies(s: Server, r: Server): seq<(ClientId, Reply)> {
    if |s.replies| <= |r.replies| then r.replies[|s.replies|..] else []
  }

  /** The clients answered from the list or the sorted set when a key is handled, in order. */
  function Turns(s: Server, k: Key): seq<ClientId>
    requires Inv(s)
  {
    if k in s.data && (s.data[k].List? || s.data[k].Zset?) then Who(NewReplies(s, HandleKey(s, k))) else []
  }

  function Stamps(since: Arrivals, cs: seq<ClientId>): seq<nat> {
    seq(|cs|, i requires 0 <= i < |cs| => if cs[i] in since then since[cs[i]] else 0)
  }

  function Low(answered: seq<nat>): nat {
    if answered == [] then 0 else answered[|answered| - 1] + 1
  }

  ghost predicate Increasing(a: seq<nat>) {
    forall i, j | 0 <= i < j < |a| :: a[i] < a[j]
  }

  /** The answers went out by arrival, and whoever still waits arrived after all of them. */
  ghost predicate Fair(s: Server, k: Key, kind: Kind, since: Arrivals, answered: seq<nat>, high: nat) {
    Increasing(answered) && Low(answered) <= high && InOrder(s, k, kind, since, Low(answered), high)
  }

  lemma Answering(since: Arrivals, q: seq<ClientId>, m: nat, answered: seq<nat>, high: nat)
    requires Increasing(answered) && Low(answered) <= high && Sorted(since, q, Low(answered), high) && m <= |q|
    ensures var a := answered + Stamps(since, q[..m]);
            Increasing(a) && Low(a) <= high && Sorted(since, q[m..], Low(a), high)
  {
    var a := answered + Stamps(since, q[..m]);
    forall i | 0 <= i < |a| ensures a[i] == if i < |answered| then answered[i] else since[q[i - |answered|]] {}
    if m == 0 {
      assert a == answered;
    }
  }

  lemma HandleIsServe(s: Server, k: Key)
    requires Inv(s)
    ensures HandleKey(s, k) == ServeKey(s.(readySet := s.readySet - {k}), k)
  {
    hide IndexOk, CountersOk, ModulePass, Serve, ServeStream;
    FullTurn(ServeKey(s.(readySet := s.readySet - {k}), k), k);
  }

  lemma HandleHere(s: Server, k: Key, kind: Kind, since: Arrivals, answered: seq<nat>, high: nat)
    requires Inv(s) && Fair(s, k, kind, since, answered, high)
    ensures Fair(HandleKey(s, k), k, kind, since, answered + Stamps(since, Turns(s, k)), high)
  {
    hide IndexOk, CountersOk, Serve, ServeStream, HandleKey, Sorted, AllOf, Increasing, Who, NewReplies;
    var s1 := s.(readySet := s.readySet - {k});
    HandleIsServe(s, k);
    SameQueue(s, s1, k, kind, since, Low(answered), high);
    if k in s.data && (s.data[k].List? || s.data[k].Zset?) {
      var own := if s.data[k].List? then ListKind else ZsetKind;
      var m := ServeHere(s1, k, own, kind);
      var w, t := Waiting(s1, k), Serve(s1, k, own, |Waiting(s1, k)|);
      Answering(since, w, m, answered, high);
      var r := HandleKey(s, k);
      assert r.clients == t.clients && r.waiting == t.waiting && r.replies == t.replies;
      NewIs(s, r, w[..m]);
      var low := Low(answered + Stamps(since, w[..m]));
      assert InOrder(t, k, kind, since, low, high);
      SameQueue(t, r, k, kind, since, low, high);
    } else {
      assert answered + Stamps(since, []) == answered;
      if k in s.data && s.data[k].Stream? {
        AllWait(s1, k);
        StreamKeepsOrder(s1, k, Waiting(s1, k), k, kind, since, Low(answered), high);
      }
    }
  }

  lemma NewIs(s: Server, r: Server, cs: seq<ClientId>)
    requires Who(r.replies) == Who(s.replies) + cs
    ensures Who(NewReplies(s, r)) == cs
  {
    assert |r.replies| == |Who(r.replies)| && |s.replies| == |Who(s.replies)|;
    assert |NewReplies(s, r)| == |cs|;
    forall i | 0 <= i < |cs| ensures Who(NewReplies(s, r))[i] == cs[i] {
      assert Who(r.replies)[|s.replies| + i] == cs[i];
    }
  }

  lemma HandleElsewhere(s: Server, j: Key, k: Key, kind: Kind, since: Arrivals, low: nat, high: nat)
    requires Inv(s) && j != k && InOrder(s, k, kind, since, low, high)
    ensures InOrder(HandleKey(s, j), k, kind, since, low, high)
  {
    hide IndexOk, CountersOk, Serve, ServeStream, HandleKey, Sorted, AllOf;
    var s1 := s.(readySet := s.readySet - {j});
    HandleIsServe(s, j);
    SameQueue(s, s1, k, kind, since, low, high);
    if j in s.data && s.data[j].Stream? {
      AllWait(s1, j);
      StreamKeepsOrder(s1, j, Waiting(s1, j), k, kind, since, low, high);
    } else if j in s.data && !s.data[j].Other? {
      var own := if s.data[j].List? then ListKind else ZsetKind;
      ServeElsewhere(s1, j, own, |Waiting(s1, j)|, k, kind, since, low, high);
      SameQueue(Serve(s1, j, own, |Waiting(s1, j)|), HandleKey(s, j), k, kind, since, low, high);
    }
  }

  /** The clients answered from the key during a round, and until no key is ready. */
  function RoundTurns(s: Server, l: seq<Key>, k: Key): seq<ClientId>
    requires Sound(s, l)
    decreases |l|
  {
    if l == [] then []
    else
      HandleKeySound(s, l);
      (if l[0] == k then Turns(s, k) else []) + RoundTurns(HandleKey(s, l[0]), l[1..], k)
  }

  function HandleTurns(s: Server, k: Key): seq<ClientId>
    requires Sound(s, [])
    decreases s.blocked, |s.ready|
  {
    if s.ready == [] then []
    else
      TakeOverSound(s);
      var s1 := s.(ready := []);
      RoundTurns(s1, s.ready, k) + HandleTurns(HandleRound(s1, s.ready), k)
  }

  lemma StampsConcat(since: Arrivals, answered: seq<nat>, a: seq<ClientId>, b: seq<ClientId>)
    ensures answered + Stamps(since, a) + Stamps(since, b) == answered + Stamps(since, a + b)
  {
  }

  lemma {:induction false} RoundFair(s: Server, l: seq<Key>, k: Key, kind: Kind, since: Arrivals, answered: seq<nat>, high: nat)
    requires Sound(s, l) && Fair(s, k, kind, since, answered, high)
    ensures Fair(HandleRound(s, l), k, kind, since, answered + Stamps(since, RoundTurns(s, l, k)), high)
    decreases |l|
  {
    hide Sound, HandleKey, Turns, InOrder, Increasing, Stamps, Low;
    if l == [] {
      StampsNone(since, answered);
    } else {
      InvOf(s, l);
      HandleKeySound(s, l);
      var s1 := HandleKey(s, l[0]);
      var cs := if l[0] == k then Turns(s, k) else [];
      if l[0] == k {
        HandleHere(s, k, kind, since, answered, high);
      } else {
        HandleElsewhere(s, l[0], k, kind, since, Low(answered), high);
        StampsNone(since, answered);
      }
      RoundFair(s1, l[1..], k, kind, since, answered + Stamps(since, cs), high);
      StampsConcat(since, answered, cs, RoundTurns(s1, l[1..], k));
    }
  }

  lemma StampsNone(since: Arrivals, answered: seq<nat>)
    ensures answered + Stamps(since, []) == answered
  {
  }

  lemma {:induction false} HandleFair(s: Server, k: Key, kind: Kind, since: Arrivals, answered: seq<nat>, high: nat)
    requires Sound(s, []) && Fair(s, k, kind, since, answered, high)
    ensures Fair(Handle(s), k, kind, since, answered + Stamps(since, HandleTurns(s, k)), high)
    decreases s.blocked, |s.ready|
  {
    hide Sound, HandleRound, RoundTurns, Increasing, Stamps, Low, Sorted, AllOf;
    if s.ready == [] {
      StampsNone(since, answered);
    } else {
      TakeOverSound(s);
      var s1 := s.(ready := []);
      SameQueue(s, s1, k, kind, since, Low(answered), high);
      RoundFair(s1, s.ready, k, kind, since, answered, high);
      var s2, cs := HandleRound(s1, s.ready), RoundTurns(s1, s.ready, k);
      HandleFair(s2, k, kind, since, answered + Stamps(since, cs), high);
      StampsConcat(since, answered, cs, HandleTurns(s2, k));
    }
  }

  // ------------------------------------------------------------------------- whole runs

  /** The clients that a command blocked. */
  function Arrived(s: Server, r: Server): set<ClientId> {
    set c | c in r.clients && r.clients[c].kind.Some? && !(c in s.clients && s.clients[c].kind.Some?)
  }

  function Stamp(since: Arrivals, cs: set<ClientId>, now: nat): Arrivals {
    map c | c in since.Keys + cs :: if c in cs then now else since[c]
  }

  lemma {:induction false} BlockWaiting(s: Server, c: ClientId, keys: seq<Key>, ids: seq<nat>, k: Key)
    requires c in s.clients && |ids| == |keys|
    ensures Waiting(BlockOnAll(s, c, keys, ids), k)
         == Waiting(s, k) + if k in keys && k !in s.clients[c].keys then [c] else []
    ensures BlockOnAll(s, c, keys, ids).clients.Keys == s.clients.Keys
    ensures forall d | d in s.clients && d != c :: BlockOnAll(s, c, keys, ids).clients[d] == s.clients[d]
    decreases |keys|
  {
    if keys != [] {
      BlockWaiting(BlockOn(s, c, keys[0], ids[0]), c, keys[1..], ids[1..], k);
      assert k in keys <==> k == keys[0] || k in keys[1..];
      assert Waiting(s, k) + [] == Waiting(s, k);
    }
  }

  lemma QueueJoined(s: Server, c: ClientId, kind: Kind, keys: seq<Key>, ids: seq<nat>, target: Option<Key>, first: bool,
                    k: Key, since: Arrivals, low: nat, now: nat)
    requires Inv(s) && Idle(s, c) && |ids| == |keys| && kind in s.byKind
    requires Sorted(since, Waiting(s, k), low, now) && low <= now
    ensures var r := Block(s, c, kind, keys, ids, target, first);
            Sorted(Stamp(since, Arrived(s, r), now), Waiting(r, k), low, now + 1)
  {
    hide IndexOk, CountersOk, BlockOnAll, Sorted;
    BlockWaiting(s, c, keys, ids, k);
    var r := Block(s, c, kind, keys, ids, target, first);
    assert Arrived(s, r) == {c};
    AllWait(s, k);
    assert c !in Waiting(s, k);
    JoinSorted(since, Waiting(s, k), c, low, now);
    assert Waiting(s, k) + [] == Waiting(s, k);
  }

  lemma JoinSorted(since: Arrivals, q: seq<ClientId>, c: ClientId, low: nat, now: nat)
    requires Sorted(since, q, low, now) && c !in q && low <= now
    ensures Sorted(Stamp(since, {c}, now), q, low, now + 1)
    ensures Sorted(Stamp(since, {c}, now), q + [c], low, now + 1)
  {
    var stamped := Stamp(since, {c}, now);
    forall i | 0 <= i < |q| ensures q[i] in stamped && stamped[q[i]] == since[q[i]] {
      assert q[i] in q;
    }
  }

  lemma NobodyJoined(s: Server, r: Server, k: Key, since: Arrivals, low: nat, now: nat)
    requires Sorted(since, Waiting(r, k), low, now) && Arrived(s, r) == {}
    ensures Sorted(Stamp(since, Arrived(s, r), now), Waiting(r, k), low, now + 1)
  {
    assert Stamp(since, {}, now) == since;
  }

  lemma QuietJoined(s: Server, r: Server, k: Key, since: Arrivals, low: nat, now: nat)
    requires Sorted(since, Waiting(s, k), low, now) && r.clients == s.clients && r.waiting == s.waiting
    ensures Sorted(Stamp(since, Arrived(s, r), now), Waiting(r, k), low, now + 1)
  {
    hide Sorted;
    assert Arrived(s, r) == {} && Waiting(r, k) == Waiting(s, k);
    NobodyJoined(s, r, k, since, low, now);
  }

  lemma {:induction false} ReadAllQuiet(s: Server, c: ClientId, keys: seq<Key>, ids: seq<nat>)
    requires |ids| == |keys|
    ensures ReadAll(s, c, keys, ids).clients == s.clients && ReadAll(s, c, keys, ids).waiting == s.waiting
    decreases |keys|
  {
    if keys != [] {
      var s1 := if Fresh(s, keys[0], ids[0]) then Answer(s, c, Entries(keys[0], ids[0], s.data[keys[0]].last)) else s;
      ReadAllQuiet(s1, c, keys[1..], ids[1..]);
    }
  }

  /** A command changes a queue only by its client joining at the tail or leaving. */
  lemma ExecuteJoins(s: Server, cmd: Command, k: Key, since: Arrivals, low: nat, now: nat)
    requires Inv(s) && Sorted(since, Waiting(s, k), low, now) && low <= now
    ensures var r := Execute(s, cmd); Sorted(Stamp(since, Arrived(s, r), now), Waiting(r, k), low, now + 1)
  {
    hide IndexOk, CountersOk, Sorted, Stamp, Arrived, Waiting, Unblock, ExecPush, ExecZAdd, ExecXAdd, ExecPop, ExecMove,
         ExecRead, ExecStore, ExecReplace;
    HasCounters(s);
    match cmd {
      case BlockingPop(c, kind, keys, first) =>
        if Idle(s, c) && keys != [] && !kind.StreamKind? {
          PopJoins(s, c, kind, keys, first, k, since, low, now);
        } else {
          QuietJoined(s, s, k, since, low, now);
        }
      case BlockingMove(c, src, dst) =>
        if Idle(s, c) {
          MoveJoins(s, c, src, dst, k, since, low, now);
        } else {
          QuietJoined(s, s, k, since, low, now);
        }
      case XRead(c, keys, ids) => ReadJoins(s, c, keys, ids, k, since, low, now);
      case GiveUp(c) =>
        if c in s.clients && s.clients[c].kind.Some? {
          BlockedCounts(s, c);
          GiveUpLeaves(s, c, k, since, low, now);
        } else {
          QuietJoined(s, s, k, since, low, now);
        }
      case _ =>
        QuietData(s, cmd);
        QuietJoined(s, Execute(s, cmd), k, since, low, now);
    }
  }

  ghost predicate Quiet(s: Server, r: Server) {
    r.clients == s.clients && r.waiting == s.waiting
  }

  lemma AddQuiet(s: Server, k: Key, v: Value)
    ensures Quiet(s, DbAdd(s, k, v)) && Quiet(s, Signal(s, k))
  {
  }

  lemma QuietData(s: Server, cmd: Command)
    requires Inv(s) && (cmd.Push? || cmd.ZAdd? || cmd.XAdd? || cmd.Del? || cmd.Store? || cmd.Replace?)
    ensures Quiet(s, Execute(s, cmd))
  {
    hide Inv, ExecPush, ExecZAdd, ExecXAdd, ExecPop, ExecMove, ExecRead, ExecStore, ExecReplace, Idle, Unblock;
    match cmd {
      case Push(k, values, head) => PushQuiet(s, k, values, head);
      case ZAdd(k, x, place) => ZAddQuiet(s, k, x, place);
      case XAdd(k, id) =>
        HasCounters(s);
        XAddQuiet(s, k, id);
      case Store(k, v) => StoreQuiet(s, k, v);
      case Replace(k, v) => StoreQuiet(s, k, v);
      case _ =>
    }
  }

  lemma PushQuiet(s: Server, k: Key, values: seq<string>, head: bool)
    ensures Quiet(s, ExecPush(s, k, values, head))
  {
    hide DbAdd, Pushed;
    AddQuiet(s, k, List([]));
  }

  lemma ZAddQuiet(s: Server, k: Key, x: string, place: nat)
    ensures Quiet(s, ExecZAdd(s, k, x, place))
  {
    hide DbAdd, Insert, Erase;
    AddQuiet(s, k, Zset([]));
  }

  lemma XAddQuiet(s: Server, k: Key, id: nat)
    requires StreamKind in s.byKind
    ensures Quiet(s, ExecXAdd(s, k, id))
  {
  }

  lemma StoreQuiet(s: Server, k: Key, v: Value)
    ensures Quiet(s, ExecStore(s, k, v)) && Quiet(s, ExecReplace(s, k, v))
  {
    hide DbAdd;
    AddQuiet(s, k, v);
    AddQuiet(s.(data := s.data - {k}), k, v);
  }

  lemma PopJoins(s: Server, c: ClientId, kind: Kind, keys: seq<Key>, first: bool, k: Key, since: Arrivals, low: nat, now: nat)
    requires Inv(s) && Idle(s, c) && kind in s.byKind && !kind.StreamKind?
    requires Sorted(since, Waiting(s, k), low, now) && low <= now
    ensures var r := ExecPop(s, c, kind, keys, first); Sorted(Stamp(since, Arrived(s, r), now), Waiting(r, k), low, now + 1)
  {
    hide IndexOk, CountersOk, Sorted, Block, Stamp, Arrived, Waiting, Deciding;
    if Deciding(s, kind, keys).None? {
      QueueJoined(s, c, kind, keys, Zeros(|keys|), None, first, k, since, low, now);
    } else {
      QuietJoined(s, ExecPop(s, c, kind, keys, first), k, since, low, now);
    }
  }

  lemma MoveJoins(s: Server, c: ClientId, src: Key, dst: Key, k: Key, since: Arrivals, low: nat, now: nat)
    requires Inv(s) && Idle(s, c) && ListKind in s.byKind
    requires Sorted(since, Waiting(s, k), low, now) && low <= now
    ensures var r := ExecMove(s, c, src, dst); Sorted(Stamp(since, Arrived(s, r), now), Waiting(r, k), low, now + 1)
  {
    hide IndexOk, CountersOk, Sorted, Block, Stamp, Arrived, Waiting;
    if src !in s.data {
      QueueJoined(s, c, ListKind, [src], [0], Some(dst), false, k, since, low, now);
    } else {
      QuietJoined(s, ExecMove(s, c, src, dst), k, since, low, now);
    }
  }

  lemma ReadJoins(s: Server, c: ClientId, keys: seq<Key>, ids: seq<nat>, k: Key, since: Arrivals, low: nat, now: nat)
    requires Inv(s) && Sorted(since, Waiting(s, k), low, now) && low <= now
    ensures var r := Execute(s, XRead(c, keys, ids)); Sorted(Stamp(since, Arrived(s, r), now), Waiting(r, k), low, now + 1)
  {
    hide IndexOk, CountersOk, Sorted, Block, ReadAll, Stamp, Arrived;
    HasCounters(s);
    var r := Execute(s, XRead(c, keys, ids));
    if Idle(s, c) && keys != [] && |ids| == |keys| {
      ReadAllQuiet(s, c, keys, ids);
      QueueJoined(s, c, StreamKind, keys, ids, None, false, k, since, low, now);
      if r.clients == s.clients && r.waiting == s.waiting {
        QuietJoined(s, r, k, since, low, now);
      }
    } else {
      QuietJoined(s, r, k, since, low, now);
    }
  }

  lemma GiveUpLeaves(s: Server, c: ClientId, k: Key, since: Arrivals, low: nat, now: nat)
    requires Inv(s) && CanUnblock(s, c) && Sorted(since, Waiting(s, k), low, now)
    ensures var r := Unblock(s, c); Sorted(Stamp(since, Arrived(s, r), now), Waiting(r, k), low, now + 1)
  {
    hide IndexOk, CountersOk, Sorted, WithoutClient;
    var r := Unblock(s, c);
    UnblockKeeps(s, c);
    DropSorted(since, Waiting(s, k), c, low, now);
    assert Arrived(s, r) == {};
    NobodyJoined(s, r, k, since, low, now);
  }

  /** A run watched at one key: when each client blocked, and the arrival numbers of the
      clients answered from the key, in the order of the answers. */
  datatype Watch = Watch(server: Server, since: Arrivals, now: nat, answered: seq<nat>)

  function Tick(h: Watch, cmd: Command, k: Key): (r: Watch)
    requires Sound(h.server, [])
    ensures r.server == Step(h.server, cmd) && Sound(r.server, [])
  {
    ExecuteSound(h.server, cmd);
    var s := Execute(h.server, cmd);
    var since := Stamp(h.since, Arrived(h.server, s), h.now);
    Watch(Handle(s), since, h.now + 1, h.answered + Stamps(since, HandleTurns(s, k)))
  }

  function WatchAll(h: Watch, cmds: seq<Command>, k: Key): (r: Watch)
    requires Sound(h.server, [])
    ensures r.server == Run(h.server, cmds)
    decreases |cmds|
  {
    if cmds == [] then h else WatchAll(Tick(h, cmds[0], k), cmds[1..], k)
  }

  /** Answers have gone out by arrival, the queue stands by arrival, and whoever is in it
      arrived after everyone who was answered. */
  ghost predicate Fifo(h: Watch, k: Key) {
    Increasing(h.answered) && Low(h.answered) <= h.now && Sorted(h.since, Waiting(h.server, k), Low(h.answered), h.now)
  }

  ghost predicate OneKind(s: Server, k: Key) {
    exists kind :: AllOf(s, k, kind)
  }

  /** After each command of the run all clients that wait for the key are of one type. */
  ghost predicate AlwaysOneKind(s: Server, cmds: seq<Command>, k: Key)
    requires Sound(s, [])
    decreases |cmds|
  {
    cmds == [] || (OneKind(Execute(s, cmds[0]), k) && AlwaysOneKind(Step(s, cmds[0]), cmds[1..], k))
  }

  lemma TickFifo(h: Watch, cmd: Command, k: Key)
    requires Sound(h.server, []) && Fifo(h, k) && OneKind(Execute(h.server, cmd), k)
    ensures Fifo(Tick(h, cmd, k), k)
  {
    hide Sound, Inv, Execute, Handle, HandleTurns, Increasing, Sorted, AllOf, Stamps, Arrived, Stamp;
    ExecuteSound(h.server, cmd);
    InvOf(h.server, []);
    var s := Execute(h.server, cmd);
    var since := Stamp(h.since, Arrived(h.server, s), h.now);
    ExecuteJoins(h.server, cmd, k, h.since, Low(h.answered), h.now);
    var kind :| AllOf(s, k, kind);
    HandleFair(s, k, kind, since, h.answered, h.now + 1);
  }

  lemma {:induction false} WatchFifo(h: Watch, cmds: seq<Command>, k: Key)
    requires Sound(h.server, []) && Fifo(h, k) && AlwaysOneKind(h.server, cmds, k)
    ensures Fifo(WatchAll(h, cmds, k), k)
    decreases |cmds|
  {
    hide Sound, Fifo, Tick, Step, OneKind, Execute;
    if cmds != [] {
      InvOf(h.server, []);
      TickFifo(h, cmds[0], k);
      WatchFifo(Tick(h, cmds[0], k), cmds[1..], k);
    }
  }

  function Begin(ids: set<ClientId>): Watch {
    Watch(Start(ids), map[], 0, [])
  }

  /** In every run during which the clients that wait for a key are at any time of one type,
      they stand in the order in which they blocked and are answered in that order. */
  lemma FirstComeFirstServed(ids: set<ClientId>, cmds: seq<Command>, k: Key)
    ensures Sound(Start(ids), [])
    ensures var h := WatchAll(Begin(ids), cmds, k);
            && h.server == Run(Start(ids), cmds)
            && (AlwaysOneKind(Start(ids), cmds, k) ==>
                  && Increasing(h.answered)
                  && (forall kind :: Sorted(h.since, Queue(h.server, k, kind), Low(h.answered), h.now)))
  {
    hide Sound, WatchAll, AlwaysOneKind, Filter, Sorted;
    StartOk(ids);
    if AlwaysOneKind(Start(ids), cmds, k) {
      assert Fifo(Begin(ids), k) by { NothingYet(ids, k); }
      WatchFifo(Begin(ids), cmds, k);
      var h := WatchAll(Begin(ids), cmds, k);
      forall kind ensures Sorted(h.since, Queue(h.server, k, kind), Low(h.answered), h.now) {
        FilterSorted(h.since, h.server.clients, Waiting(h.server, k), kind, Low(h.answered), h.now);
      }
    }
  }

  lemma NothingYet(ids: set<ClientId>, k: Key)
    ensures Fifo(Begin(ids), k)
  {
  }

  lemma {:induction false} FilterSorted(since: Arrivals, clients: Clients, q: seq<ClientId>, kind: Kind, low: nat, high: nat)
    requires Sorted(since, q, low, high)
    ensures Sorted(since, Filter(clients, q, kind), low, high)
    decreases |q|
  {
    if q != [] {
      var rest := Filter(clients, q[1..], kind);
      if q[0] in clients && clients[q[0]].kind == Some(kind) {
        assert Sorted(since, q[1..], since[q[0]] + 1, high);
        FilterSorted(since, clients, q[1..], kind, since[q[0]] + 1, high);
        FrontSorted(since, q[0], rest, low, high);
      } else {
        FilterSorted(since, clients, q[1..], kind, low, high);
        assert Filter(clients, q, kind) == rest;
      }
    }
  }

  lemma FrontSorted(since: Arrivals, c: ClientId, q: seq<ClientId>, low: nat, high: nat)
    requires c in since && low <= since[c] < high && Sorted(since, q, since[c] + 1, high)
    ensures Sorted(since, [c] + q, low, high)
  {
  }

  /** Nor does a newcomer who finds an element jump the queue: if nobody waits in vain, nobody
      of its type is waiting for the key it takes the element from. */
  lemma NewcomerJumpsNobody(s: Server, kind: Kind, keys: seq<Key>, k: Key)
    requires Inv(s) && (forall j :: !Hungry(s, j)) && !kind.StreamKind?
    requires Deciding(s, kind, keys) == Some(k) && k in s.data && MatchesKind(s.data[k], kind) && !Drained(s, k)
    ensures Queue(s, k, kind) == []
  {
    hide CountersOk, Filter;
    AllWait(s, k);
    forall i | 0 <= i < |Waiting(s, k)| ensures !HasKind(s, Waiting(s, k)[i], kind) {
      assert !Hungry(s, k);
      assert !Servable(s, Waiting(s, k)[i], k);
    }
    NoneOf(s, Waiting(s, k), kind);
  }

  lemma {:induction false} NoneOf(s: Server, q: seq<ClientId>, kind: Kind)
    requires forall i | 0 <= i < |q| :: !HasKind(s, q[i], kind)
    ensures Filter(s.clients, q, kind) == []
    decreases |q|
  {
    if q != [] {
      NoneOf(s, q[1..], kind);
    }
  }

  // ------------------------------------------------------------------ overtaken, in a run

  /** Clients 1 and 3 blocked in BLPOP, client 2 between them in BZPOPMIN. */
  function Mixed(k: Key): Server {
    Start({1, 2, 3}).(clients := map[1 := Client(Some(ListKind), map[k := 0], None, true),
                                     2 := Client(Some(ZsetKind), map[k := 0], None, true),
                                     3 := Client(Some(ListKind), map[k := 0], None, true)],
                      waiting := map[k := [1, 2, 3]], blocked := 3, 
                      byKind := map[ListKind := 2, ZsetKind := 1, StreamKind := 0])
  }

  function ThreeBlock(k: Key): seq<Command> {
    [BlockingPop(1, ListKind, [k], true), BlockingPop(2, ZsetKind, [k], true), BlockingPop(3, ListKind, [k], true)]
  }

  /** The server after a client blocked for the first element of one key. */
  function Joined(s: Server, c: ClientId, kind: Kind, k: Key): Server
    requires kind in s.byKind
  {
    s.(clients := s.clients[c := Client(Some(kind), map[k := 0], None, true)],
       waiting := s.waiting[k := Waiting(s, k) + [c]],
       blocked := s.blocked + 1,
       byKind := s.byKind[kind := s.byKind[kind] + 1])
  }

  lemma PopStep(s: Server, c: ClientId, kind: Kind, k: Key)
    requires Sound(s, []) && s.ready == [] && Idle(s, c) && !kind.StreamKind? && k !in s.data && kind in s.byKind
    ensures Step(s, BlockingPop(c, kind, [k], true)) == Joined(s, c, kind, k)
  {
    hide Sound, Inv, Execute, Step;
    InvOf(s, []);
    PopBlocks(s, c, kind, k, true);
    QuietStep(s, BlockingPop(c, kind, [k], true), Joined(s, c, kind, k));
  }

  lemma ThreeBlocked(k: Key)
    ensures Sound(Start({1, 2, 3}), []) && Run(Start({1, 2, 3}), ThreeBlock(k)) == Mixed(k)
  {
    hide Sound, Step, Waiting;
    StartOk({1, 2, 3});
    var s := Start({1, 2, 3});
    var s1 := Joined(s, 1, ListKind, k);
    var s2 := Joined(s1, 2, ZsetKind, k);
    PopStep(s, 1, ListKind, k);
    PopStep(s1, 2, ZsetKind, k);
    PopStep(s2, 3, ListKind, k);
    RunThree(s, ThreeBlock(k)[0], ThreeBlock(k)[1], ThreeBlock(k)[2]);
    MixedIs(k);
  }

  lemma MixedIs(k: Key)
    ensures Joined(Joined(Joined(Start({1, 2, 3}), 1, ListKind, k), 2, ZsetKind, k), 3, ListKind, k) == Mixed(k)
  {
    var s := Start({1, 2, 3});
    var s1 := Joined(s, 1, ListKind, k);
    var s2 := Joined(s1, 2, ZsetKind, k);
    assert Waiting(s1, k) == [1] && Waiting(s2, k) == [1, 2];
    var r := Joined(s2, 3, ListKind, k);
    assert Waiting(s2, k) + [3] == [1, 2, 3];
    assert r.waiting == Mixed(k).waiting;
    assert r.clients == Mixed(k).clients;
    assert r.byKind == Mixed(k).byKind;
  }

  lemma {:induction false} ZsetPassQueues(s: Server, k: Key, n: nat)
    requires Inv(s) && n <= |Waiting(s, k)| && (k in s.data ==> s.data[k].Zset?)
    ensures Serve(s, k, ZsetKind, n).ready == s.ready
    decreases n
  {
    hide IndexOk, CountersOk, Unblock;
    if n > 0 && !Drained(s, k) {
      FirstWaits(s, k);
      var c := s.waiting[k][0];
      if s.clients[c].kind != Some(ZsetKind) {
        RotateKeeps(s, k);
        ZsetPassQueues(Rotate(s, k), k, n - 1);
      } else {
        ServeOneKeeps(s, c, k, ZsetKind);
        ServeZsetQueues(s, c, k);
        ZsetPassQueues(ServeOne(s, c, k), k, n - 1);
      }
    }
  }

  lemma ServeZsetQueues(s: Server, c: ClientId, k: Key)
    requires CanUnblock(s, c) && k in s.data && s.data[k].Zset? && s.data[k].items != []
    ensures ServeZsetClient(s, c, k).ready == s.ready
  {
  }

  /** One ready key with a sorted set: the whole of handleClientsBlockedOnKeys is one pass. */
  lemma OnePass(s: Server, k: Key)
    requires Sound(s, []) && s.ready == [k] && k in s.data && s.data[k].Zset?
    ensures var s1 := s.(ready := [], readySet := s.readySet - {k});
            Inv(s1) && Handle(s) == Serve(s1, k, ZsetKind, |Waiting(s, k)|)
  {
    hide IndexOk, CountersOk, ReadyOk, Serve, HandleKey;
    TakeOverSound(s);
    var s0 := s.(ready := []);
    HandleKeySound(s0, [k]);
    HandleIsServe(s0, k);
    assert [k][1..] == [];
    var r := HandleKey(s0, k);
    assert HandleRound(s0, [k]) == r;
    ZsetPassQueues(s0.(readySet := s0.readySet - {k}), k, |Waiting(s, k)|);
  }

  lemma {:induction false} RunThen(s: Server, cmds: seq<Command>, cmd: Command)
    requires Sound(s, [])
    ensures Run(s, cmds + [cmd]) == Step(Run(s, cmds), cmd)
    decreases |cmds|
  {
    hide Sound, Step;
    if cmds == [] {
      assert ([] + [cmd])[1..] == [];
      RunNothing(Step(s, cmd), []);
    } else {
      assert (cmds + [cmd])[1..] == cmds[1..] + [cmd];
      RunThen(Step(s, cmds[0]), cmds[1..], cmd);
    }
  }

  lemma AddedZset(k: Key, x: string)
    requires Inv(Mixed(k))
    ensures Execute(Mixed(k), ZAdd(k, x, 0)) == Mixed(k).(data := map[k := Zset([x])], ready := [k], readySet := {k})
  {
    hide Inv;
    assert Insert([], x, 0) == [x];
    assert map[k := Zset([])][k := Zset([x])] == map[k := Zset([x])];
    assert [] + [k] == [k];
  }

  /** The pass over a sorted set with one member: client 1 goes to the tail, client 2 gets the
      member, and client 3 is not seen. */
  lemma MixedPass(k: Key, x: string)
    requires Inv(Mixed(k).(data := map[k := Zset([x])]))
    ensures var t := Serve(Mixed(k).(data := map[k := Zset([x])]), k, ZsetKind, 3);
            && Waiting(t, k) == [3, 1] && Queue(t, k, ListKind) == [3, 1]
            && Who(t.replies) == [2]
  {
    hide Inv, Serve, Who, Filter, Others, Visited;
    var s := Mixed(k).(data := map[k := Zset([x])]);
    var q := [1, 2, 3];
    assert q + [] == q;
    PassIs(s, k, ZsetKind, q, []);
    MixedVisits(s, k);
    var t := Serve(s, k, ZsetKind, 3);
    assert q[2..] + [] + [1] == [3, 1];
    assert Who(s.replies) + [2] == [2] by { NobodyYet(); }
    assert SameClient(s, t, 3) && SameClient(s, t, 1) by { assert [3, 1][0] == 3 && [3, 1][1] == 1; }
    TwoList(t.clients);
  }

  lemma NobodyYet()
    ensures Who([]) == []
  {
  }

  lemma TwoList(clients: Clients)
    requires 3 in clients && 1 in clients && clients[3].kind == clients[1].kind == Some(ListKind)
    ensures Filter(clients, [3, 1], ListKind) == [3, 1]
  {
    assert [3, 1][1..] == [1] && [1][1..] == [];
    assert Filter(clients, [1], ListKind) == [1];
  }

  lemma MixedVisits(s: Server, k: Key)
    requires s.clients == Mixed(k).clients
    ensures Visited(s, k, [1, 2, 3], ZsetKind, 1) == 2
    ensures Filter(s.clients, [1, 2, 3][..2], ZsetKind) == [2] && Others(s.clients, [1, 2, 3][..2], ZsetKind) == [1]
  {
    var q := [1, 2, 3];
    assert q[1..] == [2, 3] && [2, 3][1..] == [3] && q[..2] == [1, 2] && [1, 2][1..] == [2] && [2][1..] == [];
    assert Visited(s, k, [3], ZsetKind, 0) == 0;
    assert Visited(s, k, [2, 3], ZsetKind, 1) == 1;
    assert Filter(s.clients, [2], ZsetKind) == [2] && Others(s.clients, [2], ZsetKind) == [];
  }

  /** Where types are mixed the order can be lost: BLPOP by client 1, BZPOPMIN by client 2 and
      BLPOP by client 3 on one key, then ZADD, and client 3 stands before client 1. */
  lemma Overtaken(k: Key, x: string)
    ensures Sound(Start({1, 2, 3}), [])
    ensures Queue(Run(Start({1, 2, 3}), ThreeBlock(k)), k, ListKind) == [1, 3]
    ensures var r := Run(Start({1, 2, 3}), ThreeBlock(k) + [ZAdd(k, x, 0)]);
            Queue(r, k, ListKind) == [3, 1] && Who(r.replies) == [2]
  {
    hide Inv, ReadyOk, Serve, Handle, Step, Who, Filter, Execute, Run;
    StartOk({1, 2, 3});
    ThreeBlocked(k);
    MixedQueue(k);
    RunThen(Start({1, 2, 3}), ThreeBlock(k), ZAdd(k, x, 0));
    var s := Mixed(k).(data := map[k := Zset([x])], ready := [k], readySet := {k});
    ExecuteSound(Mixed(k), ZAdd(k, x, 0));
    AddedZset(k, x);
    OnePass(s, k);
    assert s.(ready := [], readySet := s.readySet - {k}) == Mixed(k).(data := map[k := Zset([x])]);
    MixedPass(k, x);
    StepIs(Mixed(k), ZAdd(k, x, 0));
  }

  lemma StepIs(s: Server, cmd: Command)
    requires Sound(s, [])
    ensures Sound(Execute(s, cmd), []) && Step(s, cmd) == Handle(Execute(s, cmd))
  {
    hide Sound, Execute, Handle;
    InvOf(s, []);
    ExecuteSound(s, cmd);
  }

  lemma MixedQueue(k: Key)
    ensures Queue(Mixed(k), k, ListKind) == [1, 3]
  {
    var clients := Mixed(k).clients;
    assert [1, 2, 3][1..] == [2, 3] && [2, 3][1..] == [3] && [3][1..] == [];
    assert Filter(clients, [3], ListKind) == [3];
    assert Filter(clients, [2, 3], ListKind) == [3];
  }
}
