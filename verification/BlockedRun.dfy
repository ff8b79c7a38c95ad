/** Commands, and the server over whole runs of them: after every command the blocked clients
    are served. Nobody who could be served is left waiting, unless a value was stored in a way
    that tells nobody. */
module BlockedRun {
  import opened Wrappers
  import opened Blocked
  import opened BlockedServe

  datatype Command =
    | Push(key: Key, values: seq<string>, head: bool)              // LPUSH, RPUSH
    | ZAdd(key: Key, member: string, place: nat)                   // the place the score gives it
    | XAdd(key: Key, id: nat)
    | BlockingPop(client: ClientId, kind: Kind, keys: seq<Key>, first: bool) // BLPOP, BRPOP, BZPOPMIN, BZPOPMAX
    | BlockingMove(client: ClientId, src: Key, dst: Key)           // BRPOPLPUSH
    | XRead(client: ClientId, keys: seq<Key>, ids: seq<nat>)       // XREAD BLOCK
    | Del(key: Key)
    | Store(key: Key, value: Value)                                // SET, SORT STORE, GEORADIUS STORE
    | Replace(key: Key, value: Value)                              // RENAME, RESTORE, ZUNIONSTORE
    | GiveUp(client: ClientId)                                     // a timeout, or the client leaves

  function Pushed(items: seq<string>, values: seq<string>, head: bool): (r: seq<string>)
    ensures |r| == |items| + |values|
    decreases |values|
  {
    if values == [] then items else Pushed(PutBack(items, values[0], head), values[1..], head)
  }

  predicate Idle(s: Server, c: ClientId) {
    c in s.clients && s.clients[c].kind.None? && s.clients[c].keys == map[]
  }

  /** The first key that decides the command: of another type, or not empty. */
  function Deciding(s: Server, kind: Kind, keys: seq<Key>): Option<Key> {
    if keys == [] then None
    else if keys[0] in s.data && (!MatchesKind(s.data[keys[0]], kind) || !Drained(s, keys[0])) then Some(keys[0])
    else Deciding(s, kind, keys[1..])
  }

  function Emptied(s: Server, k: Key, v: Value): Server
    requires v.List? || v.Zset?
  {
    s.(data := if v.items == [] then s.data - {k} else s.data[k := v])
  }

  function Zeros(n: nat): (r: seq<nat>)
    ensures |r| == n && forall i | 0 <= i < n :: r[i] == 0
  {
    seq(n, _ => 0)
  }

  /** blockingPopGenericCommand and blockingGenericZpopCommand. */
  function ExecPop(s: Server, c: ClientId, kind: Kind, keys: seq<Key>, first: bool): Server
    requires c in s.clients && kind in s.byKind && !kind.StreamKind?
  {
    match Deciding(s, kind, keys)
    case None => Block(s, c, kind, keys, Zeros(|keys|), None, first)
    case Some(k) =>
      if k in s.data && !Drained(s, k) && MatchesKind(s.data[k], kind) then
        var items := s.data[k].items;
        var rest := Rest(items, first);
        Answer(Emptied(s, k, if kind.ListKind? then List(rest) else Zset(rest)), c, Popped(k, End(items, first)))
      else Answer(s, c, WrongType)
  }

  /** brpoplpushCommand with rpoplpushCommand. The source asserts that a list it finds is not
      empty; between commands none is. */
  function ExecMove(s: Server, c: ClientId, src: Key, dst: Key): Server
    requires c in s.clients && ListKind in s.byKind
  {
    if src !in s.data then Block(s, c, ListKind, [src], [0], Some(dst), false)
    else if !s.data[src].List? || s.data[src].items == [] || (dst in s.data && !s.data[dst].List?) then Answer(s, c, WrongType)
    else
      var items := s.data[src].items;
      var x := End(items, false);
      var s1 := s.(data := s.data[src := List(Rest(items, false))]);
      var s2 := if dst in s1.data then s1 else DbAdd(s1, dst, List([]));
      var s3 := s2.(data := s2.data[dst := List([x] + (if dst in s1.data && s1.data[dst].List? then s1.data[dst].items else []))]);
      Answer(CleanUp(s3, src), c, Moved(x))
  }

  predicate Fresh(s: Server, k: Key, id: nat) {
    k in s.data && s.data[k].Stream? && s.data[k].length > 0 && id < s.data[k].last
  }

  /** One reply for each stream that has something new. */
  function ReadAll(s: Server, c: ClientId, keys: seq<Key>, ids: seq<nat>): Server
    requires |ids| == |keys|
    decreases |keys|
  {
    if keys == [] then s
    else
      var s1 := if Fresh(s, keys[0], ids[0]) then Answer(s, c, Entries(keys[0], ids[0], s.data[keys[0]].last)) else s;
      ReadAll(s1, c, keys[1..], ids[1..])
  }

  /** xreadCommand with BLOCK and without a group. */
  function ExecRead(s: Server, c: ClientId, keys: seq<Key>, ids: seq<nat>): Server
    requires c in s.clients && StreamKind in s.byKind && |ids| == |keys|
  {
    if exists i | 0 <= i < |keys| :: keys[i] in s.data && !s.data[keys[i]].Stream? then Answer(s, c, WrongType)
    else if exists i | 0 <= i < |keys| :: Fresh(s, keys[i], ids[i]) then ReadAll(s, c, keys, ids)
    else Block(s, c, StreamKind, keys, ids, None, false)
  }

  function ExecPush(s: Server, k: Key, values: seq<string>, head: bool): Server {
    if k in s.data && !s.data[k].List? then s
    else if values == [] then s
    else
      var s1 := if k in s.data then s else DbAdd(s, k, List([]));
      var items := if k in s.data then s.data[k].items else [];
      s1.(data := s1.data[k := List(Pushed(items, values, head))])
  }

  function Insert(items: seq<string>, x: string, place: nat): (r: seq<string>)
    ensures r != []
  {
    if items == [] || place == 0 then [x] + items else [items[0]] + Insert(items[1..], x, place - 1)
  }

  function Erase(items: seq<string>, x: string): seq<string> {
    if items == [] then [] else if items[0] == x then items[1..] else [items[0]] + Erase(items[1..], x)
  }

  function ExecZAdd(s: Server, k: Key, x: string, place: nat): Server {
    if k in s.data && !s.data[k].Zset? then s
    else
      var s1 := if k in s.data then s else DbAdd(s, k, Zset([]));
      var items := if k in s.data then Erase(s.data[k].items, x) else [];
      s1.(data := s1.data[k := Zset(Insert(items, x, place))])
  }

  /** xaddCommand: an ID must be above the last one. */
  function ExecXAdd(s: Server, k: Key, id: nat): Server
    requires StreamKind in s.byKind
  {
    if k in s.data && (!s.data[k].Stream? || id <= s.data[k].last) then s
    else
      var length := if k in s.data && s.data[k].Stream? then s.data[k].length else 0;
      var s1 := if k in s.data then s else DbAdd(s, k, Stream(0, 0));
      var s2 := s1.(data := s1.data[k := Stream(id, length + 1)]);
      if s2.byKind[StreamKind] > 0 then Signal(s2, k) else s2
  }

  predicate Empty(v: Value) {
    (v.List? || v.Zset?) && v.items == []
  }

  /** setKey, which overwrites a value that is there; an empty result deletes the key. */
  function ExecStore(s: Server, k: Key, v: Value): Server {
    if Empty(v) then s.(data := s.data - {k})
    else if k in s.data then s.(data := s.data[k := v])
    else DbAdd(s, k, v)
  }

  /** dbDelete, then dbAdd. */
  function ExecReplace(s: Server, k: Key, v: Value): Server {
    var s1 := s.(data := s.data - {k});
    if Empty(v) then s1 else DbAdd(s1, k, v)
  }

  /** A command as the event loop runs it: a blocked client sends none. */
  function Execute(s: Server, cmd: Command): Server
    requires Inv(s)
  {
    match cmd
    case Push(k, values, head) => ExecPush(s, k, values, head)
    case ZAdd(k, x, place) => ExecZAdd(s, k, x, place)
    case XAdd(k, id) => ExecXAdd(s, k, id)
    case BlockingPop(c, kind, keys, first) =>
      if Idle(s, c) && keys != [] && !kind.StreamKind? then ExecPop(s, c, kind, keys, first) else s
    case BlockingMove(c, src, dst) => if Idle(s, c) then ExecMove(s, c, src, dst) else s
    case XRead(c, keys, ids) => if Idle(s, c) && keys != [] && |ids| == |keys| then ExecRead(s, c, keys, ids) else s
    case Del(k) => s.(data := s.data - {k})
    case Store(k, v) => ExecStore(s, k, v)
    case Replace(k, v) => ExecReplace(s, k, v)
    case GiveUp(c) =>
      if c in s.clients && s.clients[c].kind.Some? then BlockedCounts(s, c); Unblock(s, c) else s
  }

  // --------------------------------------------------------------------- blocking keeps

  ghost predicate OnlyKeysOf(s: Server, r: Server, c: ClientId) {
    && c in s.clients && c in r.clients
    && r == s.(clients := r.clients, waiting := r.waiting)
    && r.clients == s.clients[c := r.clients[c]]
    && r.clients[c] == s.clients[c].(keys := r.clients[c].keys)
  }

  lemma BlockOnKeeps(s: Server, c: ClientId, k: Key, id: nat)
    requires IndexOk(s.clients, s.waiting) && c in s.clients
    ensures var r := BlockOn(s, c, k, id);
            && IndexOk(r.clients, r.waiting) && OnlyKeysOf(s, r, c)
            && k in r.clients[c].keys
            && (forall j | j in s.clients[c].keys :: j in r.clients[c].keys)
            && (forall j | j in r.clients[c].keys :: if j in s.clients[c].keys
                  then r.clients[c].keys[j] == s.clients[c].keys[j] else j == k && r.clients[c].keys[j] == id)
  {
    var r := BlockOn(s, c, k, id);
    if k !in s.clients[c].keys {
      assert !WaitsFor(s.clients, c, k);
      assert c !in Waiting(s, k);
      forall j, d | WaitsFor(r.clients, d, j) ensures j in r.waiting && d in r.waiting[j] {
        assert (d == c && j == k) || WaitsFor(s.clients, d, j);
      }
      forall j, d | j in r.waiting && d in r.waiting[j] ensures WaitsFor(r.clients, d, j) {
        assert (d == c && j == k) || WaitsFor(s.clients, d, j);
      }
    }
  }

  lemma {:induction false} BlockAllKeeps(s: Server, c: ClientId, keys: seq<Key>, ids: seq<nat>)
    requires IndexOk(s.clients, s.waiting) && c in s.clients && |ids| == |keys|
    ensures var r := BlockOnAll(s, c, keys, ids);
            && IndexOk(r.clients, r.waiting) && OnlyKeysOf(s, r, c)
            && (forall i | 0 <= i < |keys| :: keys[i] in r.clients[c].keys)
            && (forall j | j in s.clients[c].keys :: j in r.clients[c].keys && r.clients[c].keys[j] == s.clients[c].keys[j])
            && (forall j | j in r.clients[c].keys && j !in s.clients[c].keys ::
                  exists i | 0 <= i < |keys| :: keys[i] == j && ids[i] == r.clients[c].keys[j])
    decreases |keys|
  {
    hide IndexOk, BlockOn;
    if keys != [] {
      BlockOnKeeps(s, c, keys[0], ids[0]);
      var s1 := BlockOn(s, c, keys[0], ids[0]);
      BlockAllKeeps(s1, c, keys[1..], ids[1..]);
      var r := BlockOnAll(s, c, keys, ids);
      forall j | j in r.clients[c].keys && j !in s.clients[c].keys
        ensures exists i | 0 <= i < |keys| :: keys[i] == j && ids[i] == r.clients[c].keys[j]
      {
        if j in s1.clients[c].keys {
          assert keys[0] == j && ids[0] == r.clients[c].keys[j];
        } else {
          var i :| 0 <= i < |keys[1..]| && keys[1..][i] == j && ids[1..][i] == r.clients[c].keys[j];
          assert keys[i + 1] == j && ids[i + 1] == r.clients[c].keys[j];
        }
      }
      forall i | 0 <= i < |keys| ensures keys[i] in r.clients[c].keys {
        if i > 0 {
          assert keys[1..][i - 1] == keys[i];
        }
      }
    }
  }

  /** Blocking a client keeps the index and the counters. */
  lemma BlockKeeps(s: Server, c: ClientId, kind: Kind, keys: seq<Key>, ids: seq<nat>, target: Option<Key>, first: bool)
    requires Inv(s) && Idle(s, c) && |ids| == |keys| && keys != []
    ensures Inv(Block(s, c, kind, keys, ids, target, first))
  {
    hide IndexOk, BlockOnAll;
    BlockAllKeeps(s, c, keys, ids);
    var s1 := BlockOnAll(s, c, keys, ids);
    var r := Block(s, c, kind, keys, ids, target, first);
    assert keys[0] in r.clients[c].keys;
    SameKeys(s1, r);
    BlockCounters(s, r, c, kind);
  }

  lemma SameKeys(s: Server, r: Server)
    requires IndexOk(s.clients, s.waiting) && r.waiting == s.waiting && r.clients.Keys == s.clients.Keys
    requires forall c | c in s.clients :: r.clients[c].keys == s.clients[c].keys
    ensures IndexOk(r.clients, r.waiting)
  {
    assert forall c, k :: WaitsFor(r.clients, c, k) <==> WaitsFor(s.clients, c, k);
  }

  lemma MoreBlocked(a: Clients, b: Clients, c: ClientId, kind: Kind)
    requires c in a && a[c].kind.None? && c in b && b == a[c := b[c]] && b[c].kind == Some(kind)
    ensures |BlockedSet(b)| == |BlockedSet(a)| + 1
    ensures |OfKind(b, kind)| == |OfKind(a, kind)| + 1
    ensures forall t: Kind | t != kind :: OfKind(b, t) == OfKind(a, t)
  {
    assert BlockedSet(b) == BlockedSet(a) + {c};
    assert OfKind(b, kind) == OfKind(a, kind) + {c};
  }

  lemma BlockCounters(s: Server, r: Server, c: ClientId, kind: Kind)
    requires CountersOk(s.clients, s.blocked, s.byKind) && c in s.clients && s.clients[c].kind.None?
    requires c in r.clients && r.clients == s.clients[c := r.clients[c]]
    requires r.clients[c].kind == Some(kind) && r.clients[c].keys != map[]
    requires r.blocked == s.blocked + 1 && r.byKind == s.byKind[kind := s.byKind[kind] + 1]
    ensures CountersOk(r.clients, r.blocked, r.byKind)
  {
    hide BlockedSet, OfKind;
    MoreBlocked(s.clients, r.clients, c, kind);
  }

  // ------------------------------------------------------------ each command is covered

  /** Nothing changed for a key other than k, and k itself is queued or cannot serve anyone. */
  lemma OneKey(s: Server, r: Server, k: Key, stale: set<Key>)
    requires AllOk(s, [], stale) && r.clients == s.clients && r.waiting == s.waiting && r.blocked == s.blocked && r.byKind == s.byKind
    requires r.ready == s.ready && r.readySet == s.readySet
    requires forall j | j != k :: (j in r.data <==> j in s.data) && (j in s.data ==> r.data[j] == s.data[j])
    requires k in r.data && (r.data[k].List? || r.data[k].Zset?) ==> r.data[k].items != []
    requires k !in stale && Hungry(r, k) ==> k in r.readySet
    ensures AllOk(r, [], stale)
  {
    hide IndexOk, CountersOk;
    forall j | j !in stale && Hungry(r, j) ensures j in r.readySet {
      if j != k {
        var c :| Servable(r, c, j);
        assert Servable(s, c, j);
      }
    }
  }

  /** A key whose value has just been created was signalled if anyone waits for it. */
  lemma Created(s: Server, k: Key, v: Value, stale: set<Key>)
    requires AllOk(s, [], stale) && (v.List? || v.Zset? ==> v.items != [])
    ensures AllOk(Signal(s, k).(data := s.data[k := v]), [], stale)
  {
    hide IndexOk, CountersOk;
    var r := Signal(s, k).(data := s.data[k := v]);
    SignalReady(s, k, []);
    SameReady(Signal(s, k), r, []);
    forall j | j !in stale && Hungry(r, j) ensures j in r.readySet {
      var c :| Servable(r, c, j);
      if j == k {
        assert k in r.waiting by { IndexHas(s, c, k); }
      } else {
        assert Servable(s, c, j);
      }
    }
  }

  lemma IndexHas(s: Server, c: ClientId, k: Key)
    requires Inv(s) && WaitsFor(s.clients, c, k)
    ensures k in s.waiting
  {
  }

  lemma PushOk(s: Server, k: Key, values: seq<string>, head: bool, stale: set<Key>)
    requires AllOk(s, [], stale)
    ensures AllOk(ExecPush(s, k, values, head), [], stale)
  {
    hide IndexOk, CountersOk, ReadyOk, Hungry, Servable;
    var r := ExecPush(s, k, values, head);
    if r != s {
      if k in s.data {
        assert Hungry(r, k) ==> Hungry(s, k) by { StillHungry(s, r, k); }
        OneKey(s, r, k, stale);
      } else {
        Created(s, k, List(Pushed([], values, head)), stale);
        assert r == Signal(s, k).(data := s.data[k := r.data[k]]) by { AddedKey(s, k, List([]), r.data[k]); }
      }
    }
  }

  lemma AddedKey(s: Server, k: Key, v: Value, w: Value)
    requires v.List? || v.Zset?
    ensures DbAdd(s, k, v).(data := DbAdd(s, k, v).data[k := w]) == Signal(s, k).(data := s.data[k := w])
  {
    assert s.data[k := v][k := w] == s.data[k := w];
  }

  lemma StillHungry(s: Server, r: Server, k: Key)
    requires r.clients == s.clients && k in s.data && k in r.data
    requires (s.data[k].List? && r.data[k].List?) || (s.data[k].Zset? && r.data[k].Zset?)
    requires s.data[k].items != []
    ensures Hungry(r, k) ==> Hungry(s, k)
  {
    if Hungry(r, k) {
      var c :| Servable(r, c, k);
      assert Servable(s, c, k);
    }
  }

  lemma ZAddOk(s: Server, k: Key, x: string, place: nat, stale: set<Key>)
    requires AllOk(s, [], stale)
    ensures AllOk(ExecZAdd(s, k, x, place), [], stale)
  {
    hide IndexOk, CountersOk, ReadyOk, Hungry, Servable, Insert, Erase;
    var r := ExecZAdd(s, k, x, place);
    if k in s.data {
      if s.data[k].Zset? {
        assert Hungry(r, k) ==> Hungry(s, k) by { StillHungry(s, r, k); }
        OneKey(s, r, k, stale);
      }
    } else {
      Created(s, k, r.data[k], stale);
      AddedKey(s, k, Zset([]), r.data[k]);
    }
  }

  lemma XAddOk(s: Server, k: Key, id: nat, stale: set<Key>)
    requires AllOk(s, [], stale)
    ensures AllOk(ExecXAdd(s, k, id), [], stale)
  {
    hide IndexOk, CountersOk, ReadyOk, Hungry, Servable, Signal;
    HasCounters(s);
    var r := ExecXAdd(s, k, id);
    if !(k in s.data && (!s.data[k].Stream? || id <= s.data[k].last)) {
      var v := Stream(id, if k in s.data then s.data[k].length + 1 else 1);
      XAddIs(s, k, id, v);
      Created(s, k, v, stale);
      if s.byKind[StreamKind] == 0 {
        NoStreamClients(s, r, k);
        OneKey(s, r, k, stale);
      }
    }
  }

  lemma XAddIs(s: Server, k: Key, id: nat, v: Value)
    requires StreamKind in s.byKind && !(k in s.data && (!s.data[k].Stream? || id <= s.data[k].last))
    requires v == Stream(id, if k in s.data then s.data[k].length + 1 else 1)
    ensures ExecXAdd(s, k, id)
         == if s.byKind[StreamKind] > 0 then Signal(s, k).(data := s.data[k := v]) else s.(data := s.data[k := v])
  {
    assert s.data[k := Stream(0, 0)][k := v] == s.data[k := v];
  }

  lemma NoStreamClients(s: Server, r: Server, k: Key)
    requires Inv(s) && r.clients == s.clients && s.byKind[StreamKind] == 0 && k in r.data && r.data[k].Stream?
    ensures !Hungry(r, k)
  {
    assert OfKind(s.clients, StreamKind) == {};
    forall c ensures !Servable(r, c, k) {
      assert c !in OfKind(s.clients, StreamKind);
    }
  }

  /** Blocking a client on keys none of which can serve it. */
  lemma BlockOk(s: Server, c: ClientId, kind: Kind, keys: seq<Key>, ids: seq<nat>, target: Option<Key>, first: bool, stale: set<Key>)
    requires AllOk(s, [], stale) && Idle(s, c) && |ids| == |keys| && keys != []
    requires forall i | 0 <= i < |keys| ::
               keys[i] !in s.data || (kind.StreamKind? && s.data[keys[i]].Stream? && !Fresh(s, keys[i], ids[i]))
    ensures AllOk(Block(s, c, kind, keys, ids, target, first), [], stale)
  {
    hide IndexOk, CountersOk, BlockOnAll, BlockOn;
    HasCounters(s);
    BlockKeeps(s, c, kind, keys, ids, target, first);
    BlockAllKeeps(s, c, keys, ids);
    var r := Block(s, c, kind, keys, ids, target, first);
    SameReady(s, r, []);
    forall j | j !in stale && Hungry(r, j) ensures j in r.readySet {
      var d :| Servable(r, d, j);
      assert d != c;
      assert Servable(s, d, j);
    }
  }

  lemma HasCounters(s: Server)
    requires Inv(s)
    ensures forall kind: Kind :: kind in s.byKind
  {
  }

  lemma {:induction false} DecidingEffect(s: Server, kind: Kind, keys: seq<Key>)
    ensures Deciding(s, kind, keys).None? ==> forall i | 0 <= i < |keys| ::
              keys[i] !in s.data || (Drained(s, keys[i]) && MatchesKind(s.data[keys[i]], kind))
    decreases |keys|
  {
    if keys != [] {
      DecidingEffect(s, kind, keys[1..]);
      forall i | Deciding(s, kind, keys).None? && 0 <= i < |keys|
        ensures keys[i] !in s.data || (Drained(s, keys[i]) && MatchesKind(s.data[keys[i]], kind))
      {
        if i > 0 {
          assert keys[i] == keys[1..][i - 1];
        }
      }
    }
  }

  lemma PopOk(s: Server, c: ClientId, kind: Kind, keys: seq<Key>, first: bool, stale: set<Key>)
    requires AllOk(s, [], stale) && Idle(s, c) && keys != [] && !kind.StreamKind?
    ensures AllOk(ExecPop(s, c, kind, keys, first), [], stale)
  {
    hide IndexOk, CountersOk, ReadyOk, Hungry, Servable, Block, Deciding;
    HasCounters(s);
    var r := ExecPop(s, c, kind, keys, first);
    DecidingEffect(s, kind, keys);
    match Deciding(s, kind, keys) {
      case None => BlockOk(s, c, kind, keys, Zeros(|keys|), None, first, stale);
      case Some(k) =>
        if k in s.data && !Drained(s, k) && MatchesKind(s.data[k], kind) {
          if k in r.data {
            StillHungry(s, r, k);
          } else {
            GoneIsFine(r, k);
          }
          OneKey(s, r, k, stale);
        } else {
          AnswerOk(s, c, WrongType, stale);
        }
    }
  }

  lemma GoneIsFine(s: Server, k: Key)
    requires k !in s.data || s.data[k].Other?
    ensures !Hungry(s, k)
  {
    NotServable(s, k);
  }

  lemma AnswerOk(s: Server, c: ClientId, reply: Reply, stale: set<Key>)
    requires AllOk(s, [], stale)
    ensures AllOk(Answer(s, c, reply), [], stale)
  {
    hide IndexOk, CountersOk;
    var r := Answer(s, c, reply);
    forall j | j !in stale && Hungry(r, j) ensures j in r.readySet {
      var d :| Servable(r, d, j);
      assert Servable(s, d, j);
    }
  }

  lemma {:induction false} ReadAllOk(s: Server, c: ClientId, keys: seq<Key>, ids: seq<nat>, stale: set<Key>)
    requires AllOk(s, [], stale) && |ids| == |keys|
    ensures AllOk(ReadAll(s, c, keys, ids), [], stale)
    decreases |keys|
  {
    hide AllOk;
    if keys != [] {
      if Fresh(s, keys[0], ids[0]) {
        AnswerOk(s, c, Entries(keys[0], ids[0], s.data[keys[0]].last), stale);
      }
      var s1 := if Fresh(s, keys[0], ids[0]) then Answer(s, c, Entries(keys[0], ids[0], s.data[keys[0]].last)) else s;
      ReadAllOk(s1, c, keys[1..], ids[1..], stale);
    }
  }

  lemma ReadOk(s: Server, c: ClientId, keys: seq<Key>, ids: seq<nat>, stale: set<Key>)
    requires AllOk(s, [], stale) && Idle(s, c) && keys != [] && |ids| == |keys|
    ensures AllOk(ExecRead(s, c, keys, ids), [], stale)
  {
    hide IndexOk, CountersOk, ReadyOk, Hungry, Block, ReadAll;
    if exists i | 0 <= i < |keys| :: keys[i] in s.data && !s.data[keys[i]].Stream? {
      AnswerOk(s, c, WrongType, stale);
    } else if exists i | 0 <= i < |keys| :: Fresh(s, keys[i], ids[i]) {
      ReadAllOk(s, c, keys, ids, stale);
    } else {
      BlockOk(s, c, StreamKind, keys, ids, None, false, stale);
    }
  }

  /** The two keys of a move: the source may be left empty for a moment. */
  lemma MoveOk(s: Server, c: ClientId, src: Key, dst: Key, stale: set<Key>)
    requires AllOk(s, [], stale) && Idle(s, c)
    ensures AllOk(ExecMove(s, c, src, dst), [], stale)
  {
    hide IndexOk, CountersOk, ReadyOk, Hungry, Servable, Block, Rest, End, Signal;
    if src !in s.data {
      BlockOk(s, c, ListKind, [src], [0], Some(dst), false, stale);
    } else if !s.data[src].List? || s.data[src].items == [] || (dst in s.data && !s.data[dst].List?) {
      AnswerOk(s, c, WrongType, stale);
    } else {
      var items := s.data[src].items;
      var x, rest := End(items, false), Rest(items, false);
      var was := if dst == src then rest else if dst in s.data then s.data[dst].items else [];
      var s1 := if dst in s.data then s.(data := s.data[dst := List([x] + was)])
                else Signal(s, dst).(data := s.data[dst := List([x] + was)]);
      if dst in s.data {
        assert Hungry(s1, dst) ==> Hungry(s, dst) by { StillHungry(s, s1, dst); }
        OneKey(s, s1, dst, stale);
      } else {
        Created(s, dst, List([x] + was), stale);
      }
      var s2 := if dst == src then s1 else Emptied(s1, src, List(rest));
      if dst != src {
        SignalFrame(s, dst);
        if src in s2.data {
          StillHungry(s1, s2, src);
        } else {
          GoneIsFine(s2, src);
        }
        OneKey(s1, s2, src, stale);
      }
      AnswerOk(s2, c, Moved(x), stale);
      HasCounters(s);
      MoveIs(s, c, src, dst);
    }
  }

  lemma SignalFrame(s: Server, k: Key)
    ensures Signal(s, k).data == s.data && Signal(s, k).clients == s.clients
  {
  }

  /** A move, said without the intermediate states. */
  lemma MoveIs(s: Server, c: ClientId, src: Key, dst: Key)
    requires c in s.clients && ListKind in s.byKind && src in s.data && s.data[src].List? && s.data[src].items != []
    requires dst in s.data ==> s.data[dst].List?
    ensures var items := s.data[src].items;
            var x, rest := End(items, false), Rest(items, false);
            var was := if dst == src then rest else if dst in s.data then s.data[dst].items else [];
            var s1 := if dst in s.data then s.(data := s.data[dst := List([x] + was)])
                      else Signal(s, dst).(data := s.data[dst := List([x] + was)]);
            ExecMove(s, c, src, dst) == Answer(if dst == src then s1 else Emptied(s1, src, List(rest)), c, Moved(x))
  {
    hide Rest, End;
    var items := s.data[src].items;
    var x, rest := End(items, false), Rest(items, false);
    var was := if dst == src then rest else if dst in s.data then s.data[dst].items else [];
    if dst == src {
      assert s.data[src := List(rest)][dst := List([x] + rest)] == s.data[dst := List([x] + rest)];
    } else {
      assert s.data[src := List(rest)][dst := List([])][dst := List([x] + was)] == s.data[dst := List([x] + was)][src := List(rest)];
      assert s.data[src := List(rest)][dst := List([x] + was)] == s.data[dst := List([x] + was)][src := List(rest)];
      assert s.data[dst := List([x] + was)][src := List(rest)] - {src} == s.data[dst := List([x] + was)] - {src};
    }
  }

  lemma GiveUpOk(s: Server, c: ClientId, stale: set<Key>)
    requires AllOk(s, [], stale) && CanUnblock(s, c)
    ensures AllOk(Unblock(s, c), [], stale)
  {
    hide IndexOk, CountersOk, WithoutClient;
    var r := Unblock(s, c);
    UnblockKeeps(s, c);
    SameReady(s, r, []);
    forall j | j !in stale && Hungry(r, j) ensures j in r.readySet {
      var d :| Servable(r, d, j);
      assert Servable(s, d, j);
    }
  }

  // ----------------------------------------------------------------- values stored whole

  /** Whether a client that waits for the key could be served from the value. */
  predicate Wanted(s: Server, k: Key, v: Value) {
    exists i | 0 <= i < |Waiting(s, k)| :: Wants(s.clients, Waiting(s, k)[i], k, v)
  }

  predicate Wants(clients: Clients, c: ClientId, k: Key, v: Value) {
    && WaitsFor(clients, c, k)
    && match v
       case List(items) => clients[c].kind == Some(ListKind) && items != []
       case Zset(items) => clients[c].kind == Some(ZsetKind) && items != []
       case Stream(last, length) => clients[c].kind == Some(StreamKind) && length > 0 && clients[c].keys[k] < last
       case Other => false
  }

  /** The guard of the branches that signal nobody: setKey overwrites silently, and dbAdd is
      silent about streams. */
  predicate Announced(s: Server, cmd: Command) {
    match cmd
    case Store(k, v) => (k !in s.data && !v.Stream?) || !Wanted(s, k, v)
    case Replace(k, v) => !v.Stream? || !Wanted(s, k, v)
    case _ => true
  }

  lemma WantedIsHungry(s: Server, r: Server, k: Key, v: Value)
    requires Inv(s) && r.clients == s.clients && k in r.data && r.data[k] == v
    ensures Hungry(r, k) <==> Wanted(s, k, v)
  {
    hide CountersOk;
    AllWait(s, k);
    if Hungry(r, k) {
      var c :| Servable(r, c, k);
      var i :| 0 <= i < |Waiting(s, k)| && Waiting(s, k)[i] == c;
      assert Wants(s.clients, Waiting(s, k)[i], k, v);
    }
    if Wanted(s, k, v) {
      var i :| 0 <= i < |Waiting(s, k)| && Wants(s.clients, Waiting(s, k)[i], k, v);
      assert Servable(r, Waiting(s, k)[i], k);
    }
  }

  /** The keys that the command leaves with something of which nobody was told. */
  function Silent(s: Server, cmd: Command): set<Key> {
    if Announced(s, cmd) || !(cmd.Store? || cmd.Replace?) then {} else {cmd.key}
  }

  lemma Overwritten(s: Server, k: Key, v: Value, stale: set<Key>)
    requires AllOk(s, [], stale) && !Empty(v) && (k in stale || !Wanted(s, k, v))
    ensures AllOk(s.(data := s.data[k := v]), [], stale)
  {
    hide IndexOk, CountersOk, ReadyOk, Hungry, Wanted;
    var r := s.(data := s.data[k := v]);
    WantedIsHungry(s, r, k, v);
    OneKey(s, r, k, stale);
  }

  lemma Deleted(s: Server, k: Key, stale: set<Key>)
    requires AllOk(s, [], stale)
    ensures AllOk(s.(data := s.data - {k}), [], stale)
  {
    hide IndexOk, CountersOk, ReadyOk, Hungry;
    var r := s.(data := s.data - {k});
    GoneIsFine(r, k);
    OneKey(s, r, k, stale);
  }

  lemma AddOk(s: Server, k: Key, v: Value, stale: set<Key>)
    requires AllOk(s, [], stale) && !Empty(v) && (k in stale || !v.Stream? || !Wanted(s, k, v))
    ensures AllOk(DbAdd(s, k, v), [], stale)
  {
    hide IndexOk, CountersOk, ReadyOk, Hungry, Wanted;
    if v.List? || v.Zset? {
      Created(s, k, v, stale);
      AddedKey(s, k, v, v);
      assert DbAdd(s, k, v) == DbAdd(s, k, v).(data := DbAdd(s, k, v).data[k := v]) by { AddedData(s, k, v); }
    } else {
      assert v.Other? ==> !Wanted(s, k, v) by { NobodyWantsOther(s, k); }
      Overwritten(s, k, v, stale);
    }
  }

  lemma AddedData(s: Server, k: Key, v: Value)
    ensures DbAdd(s, k, v).data == s.data[k := v]
    ensures s.data[k := v][k := v] == s.data[k := v]
  {
  }

  lemma NobodyWantsOther(s: Server, k: Key)
    ensures !Wanted(s, k, Other)
  {
  }

  lemma SameWanted(s: Server, r: Server, k: Key, v: Value)
    requires r.clients == s.clients && r.waiting == s.waiting
    ensures Wanted(r, k, v) <==> Wanted(s, k, v)
  {
    assert Waiting(r, k) == Waiting(s, k);
  }

  lemma StoreOk(s: Server, k: Key, v: Value, stale: set<Key>)
    requires AllOk(s, [], stale) && (k in stale || Announced(s, Store(k, v)))
    ensures AllOk(ExecStore(s, k, v), [], stale)
  {
    hide AllOk, DbAdd, Wanted;
    if Empty(v) {
      Deleted(s, k, stale);
    } else if k in s.data {
      Overwritten(s, k, v, stale);
    } else {
      AddOk(s, k, v, stale);
    }
  }

  lemma ReplaceOk(s: Server, k: Key, v: Value, stale: set<Key>)
    requires AllOk(s, [], stale) && (k in stale || Announced(s, Replace(k, v)))
    ensures AllOk(ExecReplace(s, k, v), [], stale)
  {
    hide AllOk, DbAdd;
    Deleted(s, k, stale);
    SameWanted(s, s.(data := s.data - {k}), k, v);
    if !Empty(v) {
      AddOk(s.(data := s.data - {k}), k, v, stale);
    }
  }

  // ------------------------------------------------------------------------ every command

  /** Every command but a silent store leaves every key that could serve a blocked client
      queued, and a silent one leaves only its own key out. */
  lemma ExecuteOk(s: Server, cmd: Command, stale: set<Key>)
    requires AllOk(s, [], stale) && Silent(s, cmd) <= stale
    ensures AllOk(Execute(s, cmd), [], stale)
  {
    hide IndexOk, CountersOk, ReadyOk, Hungry, ExecPush, ExecZAdd, ExecXAdd, ExecPop, ExecMove, ExecRead, Unblock,
         ExecStore, ExecReplace, Announced;
    match cmd {
      case Push(k, values, head) => PushOk(s, k, values, head, stale);
      case ZAdd(k, x, place) => ZAddOk(s, k, x, place, stale);
      case XAdd(k, id) => XAddOk(s, k, id, stale);
      case BlockingPop(c, kind, keys, first) =>
        if Idle(s, c) && keys != [] && !kind.StreamKind? {
          PopOk(s, c, kind, keys, first, stale);
        }
      case BlockingMove(c, src, dst) =>
        if Idle(s, c) {
          MoveOk(s, c, src, dst, stale);
        }
      case XRead(c, keys, ids) =>
        if Idle(s, c) && keys != [] && |ids| == |keys| {
          ReadOk(s, c, keys, ids, stale);
        }
      case Del(k) => Deleted(s, k, stale);
      case Store(k, v) =>
        assert Announced(s, cmd) || k in Silent(s, cmd);
        StoreOk(s, k, v, stale);
      case Replace(k, v) =>
        assert Announced(s, cmd) || k in Silent(s, cmd);
        ReplaceOk(s, k, v, stale);
      case GiveUp(c) =>
        if c in s.clients && s.clients[c].kind.Some? {
          BlockedCounts(s, c);
          GiveUpOk(s, c, stale);
        }
    }
  }

  lemma ExecuteSound(s: Server, cmd: Command)
    requires Sound(s, [])
    ensures Sound(Execute(s, cmd), [])
  {
    hide ReadyOk, Hungry, Execute, IndexOk, CountersOk;
    SoundIsOk(s, []);
    ExecuteOk(s, cmd, s.data.Keys + Silent(s, cmd));
  }

  /** A command, then handleClientsBlockedOnKeys. */
  function Step(s: Server, cmd: Command): (r: Server)
    requires Sound(s, [])
    ensures Sound(r, []) && r.ready == [] && r.readySet == {}
  {
    ExecuteSound(s, cmd);
    Handle(Execute(s, cmd))
  }

  function Run(s: Server, cmds: seq<Command>): (r: Server)
    requires Sound(s, [])
    ensures Sound(r, [])
    decreases |cmds|
  {
    if cmds == [] then s else Run(Step(s, cmds[0]), cmds[1..])
  }

  /** Only a silent store can make a client wait in vain, and only for the key it stores. */
  lemma OnlySilentStores(s: Server, cmd: Command, k: Key)
    requires Sound(s, []) && s.ready == [] && Hungry(Step(s, cmd), k)
    ensures Hungry(s, k) || k in Silent(s, cmd)
  {
    hide IndexOk, CountersOk, ReadyOk, Execute, Handle, Announced, Servable;
    var stale := (set j | j in s.data && Hungry(s, j)) + Silent(s, cmd);
    forall j | j !in stale ensures !Hungry(s, j) {
      HungryHasData(s, j);
    }
    assert AllOk(s, [], stale);
    ExecuteOk(s, cmd, stale);
    HandleOk(Execute(s, cmd), stale);
  }

  lemma HungryHasData(s: Server, k: Key)
    ensures Hungry(s, k) ==> k in s.data
  {
  }

  lemma SilentStore(s: Server, cmd: Command)
    requires Sound(s, []) && s.ready == [] && !Announced(s, cmd)
    ensures cmd.Store? || cmd.Replace?
    ensures Step(s, cmd) == Execute(s, cmd) && Hungry(Step(s, cmd), cmd.key)
  {
    hide IndexOk, CountersOk, ReadyOk, Wanted, Hungry;
    ExecuteSound(s, cmd);
    var r := Execute(s, cmd);
    NothingEmptyIsWanted(s, cmd.key, cmd.value);
    assert r.ready == [] && r.clients == s.clients && cmd.key in r.data && r.data[cmd.key] == cmd.value;
    WantedIsHungry(s, r, cmd.key, cmd.value);
  }

  lemma NothingEmptyIsWanted(s: Server, k: Key, v: Value)
    ensures Wanted(s, k, v) ==> !Empty(v) && !v.Other?
  {
  }

  /** From a state where nobody waits in vain: after a command nobody does exactly when the
      command announced what it stored. */
  lemma AnnouncedExactly(s: Server, cmd: Command)
    requires Sound(s, []) && s.ready == [] && forall k :: !Hungry(s, k)
    ensures (forall k :: !Hungry(Step(s, cmd), k)) <==> Announced(s, cmd)
  {
    hide Sound, Hungry, Step, Announced;
    if Announced(s, cmd) {
      forall k ensures !Hungry(Step(s, cmd), k) {
        if Hungry(Step(s, cmd), k) {
          OnlySilentStores(s, cmd, k);
        }
      }
    } else {
      SilentStore(s, cmd);
      var k := cmd.key;
      assert Hungry(Step(s, cmd), k);
    }
  }

  ghost predicate AllAnnounced(s: Server, cmds: seq<Command>)
    requires Sound(s, [])
    decreases |cmds|
  {
    cmds == [] || (Announced(s, cmds[0]) && AllAnnounced(Step(s, cmds[0]), cmds[1..]))
  }

  /** In no state between two commands of the run does a client wait for a key that could
      serve it. */
  ghost predicate NeverInVain(s: Server, cmds: seq<Command>)
    requires Sound(s, [])
  {
    forall i, k | 0 <= i <= |cmds| :: !Hungry(Run(s, cmds[..i]), k)
  }

  lemma RunPrefix(s: Server, cmds: seq<Command>, i: nat)
    requires Sound(s, []) && 0 < i <= |cmds|
    ensures Run(s, cmds[..i]) == Run(Step(s, cmds[0]), cmds[1..][..i - 1])
  {
    hide Sound, Step;
    assert cmds[..i][0] == cmds[0] && cmds[..i][1..] == cmds[1..][..i - 1];
  }

  lemma FirstInVain(s: Server, cmds: seq<Command>)
    requires Sound(s, []) && cmds != [] && NeverInVain(s, cmds)
    ensures NeverInVain(Step(s, cmds[0]), cmds[1..])
  {
    hide Sound, Step, Hungry, Run;
    forall i, k | 0 <= i <= |cmds[1..]| ensures !Hungry(Run(Step(s, cmds[0]), cmds[1..][..i]), k) {
      RunPrefix(s, cmds, i + 1);
    }
  }

  lemma RestInVain(s: Server, cmds: seq<Command>)
    requires Sound(s, []) && cmds != [] && (forall k :: !Hungry(s, k)) && NeverInVain(Step(s, cmds[0]), cmds[1..])
    ensures NeverInVain(s, cmds)
  {
    hide Sound, Step, Hungry, Run;
    forall i, k | 0 <= i <= |cmds| ensures !Hungry(Run(s, cmds[..i]), k) {
      if i > 0 {
        RunPrefix(s, cmds, i);
      } else {
        RunNothing(s, cmds[..i]);
      }
    }
  }

  lemma RunNothing(s: Server, cmds: seq<Command>)
    requires Sound(s, []) && cmds == []
    ensures Run(s, cmds) == s
  {
  }

  /** Over a whole run nobody ever waits in vain exactly when every store was announced. */
  lemma {:induction false} InVainExactly(s: Server, cmds: seq<Command>)
    requires Sound(s, []) && s.ready == [] && forall k :: !Hungry(s, k)
    ensures NeverInVain(s, cmds) <==> AllAnnounced(s, cmds)
    decreases |cmds|
  {
    hide Sound, Step, Hungry, Run, Announced;
    if cmds == [] {
      forall i, k | 0 <= i <= |cmds| ensures !Hungry(Run(s, cmds[..i]), k) {
        RunNothing(s, cmds[..i]);
      }
    } else {
      var s1 := Step(s, cmds[0]);
      AnnouncedExactly(s, cmds[0]);
      if Announced(s, cmds[0]) {
        InVainExactly(s1, cmds[1..]);
        if NeverInVain(s, cmds) {
          FirstInVain(s, cmds);
        }
        if NeverInVain(s1, cmds[1..]) {
          RestInVain(s, cmds);
        }
      } else if NeverInVain(s, cmds) {
        FirstInVain(s, cmds);
        forall k ensures !Hungry(s1, k) {
          RunNothing(s1, cmds[1..][..0]);
        }
        assert false;
      }
    }
  }

  /** No keys, and nobody blocked. */
  function Start(ids: set<ClientId>): Server {
    Server(map c | c in ids :: IDLE, map[], [], {}, map[], 0, map[ListKind := 0, ZsetKind := 0, StreamKind := 0], [], [])
  }

  lemma StartOk(ids: set<ClientId>)
    ensures Sound(Start(ids), []) && forall k :: !Hungry(Start(ids), k)
  {
    var s := Start(ids);
    assert BlockedSet(s.clients) == {};
    forall kind: Kind ensures kind in s.byKind && s.byKind[kind] == |OfKind(s.clients, kind)| {
      assert OfKind(s.clients, kind) == {};
      assert kind == ListKind || kind == ZsetKind || kind == StreamKind;
    }
    forall k, c ensures !Servable(s, c, k) {}
  }

  /** In every state between two commands of every run the index and the counters are right.
      No client waits for a key that could serve it, in any of these states, exactly when
      every store of the run was announced. */
  lemma NobodyWaitsInVain(ids: set<ClientId>, cmds: seq<Command>)
    ensures Sound(Start(ids), []) && Inv(Run(Start(ids), cmds))
    ensures NeverInVain(Start(ids), cmds) <==> AllAnnounced(Start(ids), cmds)
  {
    hide ReadyOk, IndexOk, CountersOk, Run, Hungry, NeverInVain, AllAnnounced;
    StartOk(ids);
    InVainExactly(Start(ids), cmds);
  }

  /** A run where a client waits in vain: BLPOP on a key that is not there, SET, and a SORT
      with STORE to the same key. */
  lemma SortStoreTellsNobody(k: Key, x: string)
    ensures Sound(Start({1}), [])
    ensures Servable(Run(Start({1}), [BlockingPop(1, ListKind, [k], true), Store(k, Other), Store(k, List([x]))]), 1, k)
  {
    hide Sound, Handle, Step, Run, Servable;
    StartOk({1});
    var s, pop := Start({1}), BlockingPop(1, ListKind, [k], true);
    var s1 := BlockedOnOne(k);
    var s2 := s1.(data := map[k := Other]);
    var s3 := s1.(data := map[k := List([x])]);
    OnePop(k);
    QuietStep(s1, Store(k, Other), s2);
    QuietStep(s2, Store(k, List([x])), s3);
    RunThree(s, pop, Store(k, Other), Store(k, List([x])));
    assert Servable(s3, 1, k) by { OneIsServable(k, x); }
  }

  /** Client 1 blocked in BLPOP on a key, and nothing else. */
  function BlockedOnOne(k: Key): Server {
    Start({1}).(clients := map[1 := Client(Some(ListKind), map[k := 0], None, true)],
                waiting := map[k := [1]], blocked := 1,
                byKind := map[ListKind := 1, ZsetKind := 0, StreamKind := 0])
  }

  lemma QuietStep(s: Server, cmd: Command, r: Server)
    requires Sound(s, []) && Execute(s, cmd) == r && r.ready == []
    ensures Step(s, cmd) == r
  {
    hide Sound, Execute;
    ExecuteSound(s, cmd);
  }

  lemma OnePop(k: Key)
    ensures Sound(Start({1}), []) && Step(Start({1}), BlockingPop(1, ListKind, [k], true)) == BlockedOnOne(k)
    ensures Sound(BlockedOnOne(k), [])
  {
    hide Sound, Inv, Handle, Step;
    StartOk({1});
    InvOf(Start({1}), []);
    PopBlocks(Start({1}), 1, ListKind, k, true);
    var s, r := Start({1}), BlockedOnOne(k);
    assert s.clients[1 := Client(Some(ListKind), map[k := 0], None, true)] == r.clients;
    assert Waiting(s, k) + [1] == [1];
    assert s.waiting[k := Waiting(s, k) + [1]] == r.waiting && s.byKind[ListKind := 1] == r.byKind;
    QuietStep(Start({1}), BlockingPop(1, ListKind, [k], true), BlockedOnOne(k));
  }

  /** An idle client that pops from one key that is not there goes to the tail of its list. */
  lemma PopBlocks(s: Server, c: ClientId, kind: Kind, k: Key, first: bool)
    requires Inv(s) && Idle(s, c) && !kind.StreamKind? && k !in s.data
    ensures kind in s.byKind
    ensures Execute(s, BlockingPop(c, kind, [k], first))
         == s.(clients := s.clients[c := Client(Some(kind), map[k := 0], None, first)],
               waiting := s.waiting[k := Waiting(s, k) + [c]],
               blocked := s.blocked + 1,
               byKind := s.byKind[kind := s.byKind[kind] + 1])
  {
    hide IndexOk, CountersOk;
    HasCounters(s);
    assert [k][1..] == [] && Deciding(s, kind, [k]) == None;
    var ids := Zeros(1);
    assert BlockOnAll(s, c, [k], ids) == BlockOn(s, c, k, ids[0]);
  }

  lemma RunThree(s: Server, a: Command, b: Command, c: Command)
    requires Sound(s, [])
    ensures Run(s, [a, b, c]) == Step(Step(Step(s, a), b), c)
  {
    hide Sound, Step;
    var s1 := Step(s, a);
    var s2 := Step(s1, b);
    assert [a, b, c][1..] == [b, c] && [b, c][1..] == [c] && [c][1..] == [];
    assert Run(s2, [c]) == Step(s2, c) by { RunNothing(Step(s2, c), []); }
    assert Run(s1, [b, c]) == Run(s2, [c]);
  }

  lemma OneIsServable(k: Key, x: string)
    ensures Servable(BlockedOnOne(k).(data := map[k := List([x])]), 1, k)
  {
  }
}
