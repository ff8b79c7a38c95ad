/**
 Clients blocked on keys: the two-way index between clients and keys, the queue of ready
 keys, and the loop that serves clients until no key is ready.
 */
module Blocked {
  import opened Wrappers

  type ClientId = nat

  datatype Key = Key(db: nat, name: string)

  /** The blocking types that wait for data. */
  datatype Kind = ListKind | ZsetKind | StreamKind

  /** A client, as far as blocking goes. For streams, keys gives the ID read so far. The
      flag first tells BLPOP from BRPOP and BZPOPMIN from BZPOPMAX. */
  datatype Client = Client(kind: Option<Kind>, keys: map<Key, nat>, target: Option<Key>, first: bool)

  const IDLE := Client(None, map[], None, false)

  /** Sorted sets by ascending score; of a stream only its last ID and its length. */
  datatype Value = List(items: seq<string>) | Zset(items: seq<string>) | Stream(last: nat, length: nat) | Other

  datatype Reply =
    | Popped(key: Key, value: string)
    | Moved(value: string)
    | Entries(key: Key, after: nat, last: nat)
    | WrongType

  type Clients = map<ClientId, Client>

  type Index = map<Key, seq<ClientId>>

  datatype Server = Server(
    clients: Clients,
    waiting: Index,                        // db->blocking_keys
    ready: seq<Key>,                       // server.ready_keys
    readySet: set<Key>,                    // db->ready_keys
    data: map<Key, Value>,
    blocked: nat,
    byKind: map<Kind, nat>,
    unblocked: seq<ClientId>,
    replies: seq<(ClientId, Reply)>)

  // ---------------------------------------------------------------------- invariants

  predicate NoDup<T(==)>(q: seq<T>) {
    forall i, j | 0 <= i < j < |q| :: q[i] != q[j]
  }

  function Waiting(s: Server, k: Key): seq<ClientId> {
    if k in s.waiting then s.waiting[k] else []
  }

  predicate WaitsFor(clients: Clients, c: ClientId, k: Key) {
    c in clients && k in clients[c].keys
  }

  /** A client is in the list of a key, and then once, exactly when the key is one of its own. */
  ghost predicate IndexOk(clients: Clients, waiting: Index) {
    && (forall k | k in waiting :: waiting[k] != [] && NoDup(waiting[k]))
    && (forall k, c | k in waiting && c in waiting[k] :: WaitsFor(clients, c, k))
    && (forall k, c | WaitsFor(clients, c, k) :: k in waiting && c in waiting[k])
  }

  function BlockedSet(clients: Clients): set<ClientId> {
    set c | c in clients && clients[c].kind.Some?
  }

  function OfKind(clients: Clients, kind: Kind): set<ClientId> {
    set c | c in clients && clients[c].kind == Some(kind)
  }

  ghost predicate CountersOk(clients: Clients, blocked: nat, byKind: map<Kind, nat>) {
    && blocked == |BlockedSet(clients)|
    && (forall kind: Kind :: kind in byKind && byKind[kind] == |OfKind(clients, kind)|)
    && (forall c | c in clients :: clients[c].kind.Some? <==> clients[c].keys != map[])
  }

  /** Each ready key is queued once: in the server's list or in the part of the old list
      still to be handled. */
  ghost predicate ReadyOk(s: Server, left: seq<Key>) {
    && NoDup(s.ready + left)
    && (forall k :: k in s.readySet <==> k in s.ready || k in left)
  }

  ghost predicate Inv(s: Server) {
    IndexOk(s.clients, s.waiting) && CountersOk(s.clients, s.blocked, s.byKind)
  }

  // ------------------------------------------------------------------------- blocking


  /** One round of the loop in blockForKeys. */
  function BlockOn(s: Server, c: ClientId, k: Key, id: nat): Server
    requires c in s.clients
  {
    if k in s.clients[c].keys then s
    else
      var client := s.clients[c];
      s.(clients := s.clients[c := client.(keys := client.keys[k := id])],
         waiting := s.waiting[k := Waiting(s, k) + [c]])
  }

  function BlockOnAll(s: Server, c: ClientId, keys: seq<Key>, ids: seq<nat>): (r: Server)
    requires c in s.clients && |ids| == |keys|
    ensures c in r.clients
    decreases |keys|
  {
    if keys == [] then s else BlockOnAll(BlockOn(s, c, keys[0], ids[0]), c, keys[1..], ids[1..])
  }

  /** blockForKeys with blockClient. */
  function Block(s: Server, c: ClientId, kind: Kind, keys: seq<Key>, ids: seq<nat>, target: Option<Key>, first: bool): Server
    requires c in s.clients && |ids| == |keys| && kind in s.byKind
  {
    var s1 := BlockOnAll(s, c, keys, ids);
    s1.(clients := s1.clients[c := s1.clients[c].(kind := Some(kind), target := target, first := first)],
        blocked := s.blocked + 1,
        byKind := s.byKind[kind := s.byKind[kind] + 1])
  }

  function Drop(q: seq<ClientId>, c: ClientId): seq<ClientId> {
    if q == [] then [] else if q[0] == c then q[1..] else [q[0]] + Drop(q[1..], c)
  }

  function WithoutClient(clients: Clients, waiting: Index, c: ClientId): Index {
    map k | k in waiting && (!WaitsFor(clients, c, k) || Drop(waiting[k], c) != [])
      :: if WaitsFor(clients, c, k) then Drop(waiting[k], c) else waiting[k]
  }

  /** unblockClient with unblockClientWaitingData and queueClientForReprocessing. */
  function Unblock(s: Server, c: ClientId): Server
    requires c in s.clients && s.clients[c].kind.Some?
    requires s.clients[c].kind.value in s.byKind && s.byKind[s.clients[c].kind.value] > 0 && s.blocked > 0
  {
    var kind := s.clients[c].kind.value;
    s.(clients := s.clients[c := s.clients[c].(kind := None, keys := map[], target := None)],
       waiting := WithoutClient(s.clients, s.waiting, c),
       blocked := s.blocked - 1,
       byKind := s.byKind[kind := s.byKind[kind] - 1],
       unblocked := if c in s.unblocked then s.unblocked else s.unblocked + [c])
  }

  /** signalKeyAsReady. */
  function Signal(s: Server, k: Key): Server {
    if k !in s.waiting || k in s.readySet then s
    else s.(ready := s.ready + [k], readySet := s.readySet + {k})
  }

  /** dbAdd. */
  function DbAdd(s: Server, k: Key, v: Value): Server {
    var s1 := s.(data := s.data[k := v]);
    if v.List? || v.Zset? then Signal(s1, k) else s1
  }

  // -------------------------------------------------------------------------- serving

  function Rest(items: seq<string>, first: bool): seq<string>
    requires items != []
  {
    if first then items[1..] else items[..|items| - 1]
  }

  function End(items: seq<string>, first: bool): string
    requires items != []
  {
    if first then items[0] else items[|items| - 1]
  }

  function PutBack(items: seq<string>, x: string, first: bool): seq<string> {
    if first then [x] + items else items + [x]
  }

  function Answer(s: Server, c: ClientId, r: Reply): Server {
    s.(replies := s.replies + [(c, r)])
  }

  predicate Drained(s: Server, k: Key) {
    k !in s.data || match s.data[k] case List(items) => items == [] case Zset(items) => items == [] case _ => true
  }

  predicate MatchesKind(v: Value, kind: Kind) {
    (v.List? && kind.ListKind?) || (v.Zset? && kind.ZsetKind?)
  }

  ghost predicate Servable(s: Server, c: ClientId, k: Key) {
    && WaitsFor(s.clients, c, k) && k in s.data
    && match s.data[k]
       case List(items) => s.clients[c].kind == Some(ListKind) && items != []
       case Zset(items) => s.clients[c].kind == Some(ZsetKind) && items != []
       case Stream(last, length) => s.clients[c].kind == Some(StreamKind) && length > 0 && s.clients[c].keys[k] < last
       case Other => false
  }

  ghost predicate CanUnblock(s: Server, c: ClientId) {
    && c in s.clients && s.clients[c].kind.Some?
    && s.clients[c].kind.value in s.byKind && s.byKind[s.clients[c].kind.value] > 0 && s.blocked > 0
  }

  /** A list client: pop from its end of the list, unblock it, then serveClientBlockedOnList;
      if that fails the value goes back to the same end. */
  function ServeListClient(s: Server, c: ClientId, k: Key): Server
    requires CanUnblock(s, c) && k in s.data && s.data[k].List? && s.data[k].items != []
  {
    var client, items := s.clients[c], s.data[k].items;
    var x, rest := End(items, client.first), Rest(items, client.first);
    var s1 := Unblock(s.(data := s.data[k := List(rest)]), c);
    if client.target.None? then Answer(s1, c, Popped(k, x))
    else
      var d := client.target.value;
      if d !in s1.data then
        var s2 := DbAdd(s1, d, List([]));
        Answer(s2.(data := s2.data[d := List([x])]), c, Moved(x))
      else if s1.data[d].List? then
        Answer(s1.(data := s1.data[d := List([x] + s1.data[d].items)]), c, Moved(x))
      else
        Answer(s1, c, WrongType).(data := s1.data[k := List(PutBack(rest, x, client.first))])
  }

  /** A sorted set client; genericZpopCommand deletes a sorted set it empties. */
  function ServeZsetClient(s: Server, c: ClientId, k: Key): Server
    requires CanUnblock(s, c) && k in s.data && s.data[k].Zset? && s.data[k].items != []
  {
    var client, items := s.clients[c], s.data[k].items;
    var x, rest := End(items, client.first), Rest(items, client.first);
    var s1 := Unblock(s, c);
    Answer(s1.(data := if rest == [] then s1.data - {k} else s1.data[k := Zset(rest)]), c, Popped(k, x))
  }

  function Rotate(s: Server, k: Key): Server
    requires k in s.waiting && s.waiting[k] != []
  {
    s.(waiting := s.waiting[k := s.waiting[k][1..] + [s.waiting[k][0]]])
  }

  /** The loop of serveClientsBlockedOnListKey and of serveClientsBlockedOnSortedSetKey, with
      n rounds to go. The one stops when it meets a client it has nothing for, the other
      as soon as the set is empty. */
  function Serve(s: Server, k: Key, kind: Kind, n: nat): Server
    requires Inv(s) && n <= |Waiting(s, k)| && (k in s.data ==> MatchesKind(s.data[k], kind))
    decreases n
  {
    if n == 0 || (kind.ZsetKind? && Drained(s, k)) then s
    else
      FirstWaits(s, k);
      var c := s.waiting[k][0];
      if s.clients[c].kind != Some(kind) then
        RotateKeeps(s, k);
        Serve(Rotate(s, k), k, kind, n - 1)
      else if Drained(s, k) then s
      else
        ServeOneKeeps(s, c, k, kind);
        Serve(ServeOne(s, c, k), k, kind, n - 1)
  }

  function ServeOne(s: Server, c: ClientId, k: Key): Server
    requires CanUnblock(s, c) && !Drained(s, k)
  {
    if s.data[k].List? then ServeListClient(s, c, k) else ServeZsetClient(s, c, k)
  }

  /** The end of serveClientsBlockedOnListKey: an emptied list is deleted. */
  function CleanUp(s: Server, k: Key): Server {
    if k in s.data && s.data[k].List? && s.data[k].items == [] then s.(data := s.data - {k}) else s
  }

  /** serveClientsBlockedOnStreamKey, with the clients its iterator has still to visit. */
  function ServeStream(s: Server, k: Key, left: seq<ClientId>): Server
    requires Inv(s) && k in s.data && s.data[k].Stream?
    requires NoDup(left) && forall i | 0 <= i < |left| :: WaitsFor(s.clients, left[i], k)
    decreases |left|
  {
    if left == [] then s
    else
      var c, last := left[0], s.data[k].last;
      if s.clients[c].kind == Some(StreamKind) && s.clients[c].keys[k] < last then
        BlockedCounts(s, c);
        UnblockKeeps(s, c);
        UnblockOthers(s, c);
        ServeStream(Answer(Unblock(s, c), c, Entries(k, s.clients[c].keys[k], last)), k, left[1..])
      else ServeStream(s, k, left[1..])
  }

  // ------------------------------------------------------------------ invariant proofs

  lemma FirstWaits(s: Server, k: Key)
    requires Inv(s) && Waiting(s, k) != []
    ensures WaitsFor(s.clients, s.waiting[k][0], k) && s.clients[s.waiting[k][0]].kind.Some?
  {
    assert s.waiting[k][0] in s.waiting[k];
  }

  lemma BlockedCounts(s: Server, c: ClientId)
    requires Inv(s) && c in s.clients && s.clients[c].kind.Some?
    ensures CanUnblock(s, c)
  {
    assert c in BlockedSet(s.clients);
    assert c in OfKind(s.clients, s.clients[c].kind.value);
  }

  lemma {:induction false} DropEffect(q: seq<ClientId>, c: ClientId)
    requires NoDup(q)
    ensures NoDup(Drop(q, c))
    ensures forall d :: d in Drop(q, c) <==> d in q && d != c
    ensures |Drop(q, c)| == if c in q then |q| - 1 else |q|
    decreases |q|
  {
    if q != [] {
      DropEffect(q[1..], c);
      assert forall d :: d in q <==> d == q[0] || d in q[1..];
      var r := Drop(q, c);
      if q[0] != c {
        assert q[0] !in q[1..];
        forall i, j | 0 <= i < j < |r| ensures r[i] != r[j] {
          assert r[j] == Drop(q[1..], c)[j - 1];
        }
      }
    }
  }

  lemma RotateKeeps(s: Server, k: Key)
    requires Inv(s) && Waiting(s, k) != []
    ensures Inv(Rotate(s, k)) && |Waiting(Rotate(s, k), k)| == |Waiting(s, k)|
  {
    var q, r := s.waiting[k], Rotate(s, k).waiting[k];
    assert forall d :: d in r <==> d in q;
    assert NoDup(r);
  }

  lemma UnblockIndex(s: Server, c: ClientId)
    requires IndexOk(s.clients, s.waiting) && CanUnblock(s, c)
    ensures IndexOk(Unblock(s, c).clients, Unblock(s, c).waiting)
    ensures forall k :: Waiting(Unblock(s, c), k) == if WaitsFor(s.clients, c, k) then Drop(Waiting(s, k), c) else Waiting(s, k)
  {
    var r := Unblock(s, c);
    forall k | k in s.waiting
      ensures NoDup(Drop(s.waiting[k], c))
      ensures forall d :: d in Drop(s.waiting[k], c) <==> d in s.waiting[k] && d != c
    {
      DropEffect(s.waiting[k], c);
    }
    forall k, d | WaitsFor(r.clients, d, k) ensures k in r.waiting && d in r.waiting[k] {
      assert WaitsFor(s.clients, d, k);
    }
    forall k, d | k in r.waiting && d in r.waiting[k] ensures WaitsFor(r.clients, d, k) {
      assert d in s.waiting[k] && WaitsFor(s.clients, d, k);
    }
  }

  lemma UnblockCounters(s: Server, c: ClientId)
    requires CountersOk(s.clients, s.blocked, s.byKind) && CanUnblock(s, c)
    ensures CountersOk(Unblock(s, c).clients, Unblock(s, c).blocked, Unblock(s, c).byKind)
  {
    var r := Unblock(s, c);
    assert BlockedSet(r.clients) == BlockedSet(s.clients) - {c};
    assert c in BlockedSet(s.clients);
    forall kind: Kind ensures kind in r.byKind && r.byKind[kind] == |OfKind(r.clients, kind)| {
      if Some(kind) == s.clients[c].kind {
        assert OfKind(r.clients, kind) == OfKind(s.clients, kind) - {c};
        assert c in OfKind(s.clients, kind);
      } else {
        assert OfKind(r.clients, kind) == OfKind(s.clients, kind);
      }
    }
  }

  lemma UnblockKeeps(s: Server, c: ClientId)
    requires Inv(s) && CanUnblock(s, c)
    ensures Inv(Unblock(s, c))
    ensures forall k :: Waiting(Unblock(s, c), k) == if WaitsFor(s.clients, c, k) then Drop(Waiting(s, k), c) else Waiting(s, k)
  {
    UnblockIndex(s, c);
    UnblockCounters(s, c);
  }

  lemma UnblockOthers(s: Server, c: ClientId)
    requires CanUnblock(s, c)
    ensures forall d, k | d != c :: WaitsFor(Unblock(s, c).clients, d, k) <==> WaitsFor(s.clients, d, k)
  {
  }

  ghost predicate SameIndex(r: Server, u: Server) {
    r.clients == u.clients && r.waiting == u.waiting && r.blocked == u.blocked && r.byKind == u.byKind
  }

  lemma ServeListFrame(s: Server, c: ClientId, k: Key)
    requires CanUnblock(s, c) && k in s.data && s.data[k].List? && s.data[k].items != []
    ensures var r := ServeListClient(s, c, k);
            SameIndex(r, Unblock(s, c)) && k in r.data && r.data[k].List?
  {
    hide WithoutClient, Rest, End, PutBack;
  }

  lemma ServeZsetFrame(s: Server, c: ClientId, k: Key)
    requires CanUnblock(s, c) && k in s.data && s.data[k].Zset? && s.data[k].items != []
    ensures var r := ServeZsetClient(s, c, k);
            SameIndex(r, Unblock(s, c)) && (k in r.data ==> r.data[k].Zset?)
  {
    hide WithoutClient, Rest, End, PutBack;
  }

  lemma ServeOneKeeps(s: Server, c: ClientId, k: Key, kind: Kind)
    requires Inv(s) && Waiting(s, k) != [] && c == s.waiting[k][0]
    requires !Drained(s, k) && MatchesKind(s.data[k], kind)
    ensures CanUnblock(s, c) && Inv(ServeOne(s, c, k))
    ensures Waiting(ServeOne(s, c, k), k) == Waiting(s, k)[1..]
    ensures k in ServeOne(s, c, k).data ==> MatchesKind(ServeOne(s, c, k).data[k], kind)
    ensures ServeOne(s, c, k).blocked == s.blocked - 1
  {
    hide ServeListClient, ServeZsetClient, IndexOk, CountersOk;
    FirstWaits(s, k);
    BlockedCounts(s, c);
    UnblockKeeps(s, c);
    if s.data[k].List? {
      ServeListFrame(s, c, k);
    } else {
      ServeZsetFrame(s, c, k);
    }
    assert Waiting(ServeOne(s, c, k), k) == Waiting(Unblock(s, c), k);
  }
}
