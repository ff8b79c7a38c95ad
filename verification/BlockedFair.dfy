/** Who is served, in which order, and where the elements go. */
module BlockedFair {
  import opened Wrappers
  import opened Blocked
  import opened BlockedServe

  // ---------------------------------------------------------------------------- order

  function Filter(clients: Clients, q: seq<ClientId>, kind: Kind): seq<ClientId> {
    if q == [] then []
    else (if q[0] in clients && clients[q[0]].kind == Some(kind) then [q[0]] else []) + Filter(clients, q[1..], kind)
  }

  /** The clients of one blocking type that wait for a key, first to be served first. */
  function Queue(s: Server, k: Key, kind: Kind): seq<ClientId> {
    Filter(s.clients, Waiting(s, k), kind)
  }

  predicate HasKind(s: Server, c: ClientId, kind: Kind) {
    c in s.clients && s.clients[c].kind == Some(kind)
  }

  function Who(replies: seq<(ClientId, Reply)>): seq<ClientId> {
    seq(|replies|, i requires 0 <= i < |replies| => replies[i].0)
  }

  lemma {:induction false} FilterConcat(clients: Clients, a: seq<ClientId>, b: seq<ClientId>, kind: Kind)
    ensures Filter(clients, a + b, kind) == Filter(clients, a, kind) + Filter(clients, b, kind)
    decreases |a|
  {
    if a == [] {
      assert a + b == b;
    } else {
      assert (a + b)[1..] == a[1..] + b;
      FilterConcat(clients, a[1..], b, kind);
    }
  }

  lemma {:induction false} FilterSame(a: Clients, b: Clients, q: seq<ClientId>, kind: Kind)
    requires forall i | 0 <= i < |q| :: q[i] in a && q[i] in b && a[q[i]].kind == b[q[i]].kind
    ensures Filter(a, q, kind) == Filter(b, q, kind)
    decreases |q|
  {
    if q != [] {
      FilterSame(a, b, q[1..], kind);
    }
  }

  lemma ServedReply(s: Server, c: ClientId, k: Key)
    requires CanUnblock(s, c) && !Drained(s, k)
    ensures Who(ServeOne(s, c, k).replies) == Who(s.replies) + [c]
  {
    hide WithoutClient, Rest, End, PutBack, Who;
    if s.data[k].List? {
      ListReply(s, c, k);
    } else {
      ZsetReply(s, c, k);
    }
  }

  lemma OneMore(replies: seq<(ClientId, Reply)>, c: ClientId, r: Reply)
    ensures Who(replies + [(c, r)]) == Who(replies) + [c]
  {
  }

  lemma ListReply(s: Server, c: ClientId, k: Key)
    requires CanUnblock(s, c) && k in s.data && s.data[k].List? && s.data[k].items != []
    ensures Who(ServeListClient(s, c, k).replies) == Who(s.replies) + [c]
  {
    hide WithoutClient, Rest, End, PutBack, Who;
    var r := ServeListClient(s, c, k).replies;
    assert |r| == |s.replies| + 1 && r[..|s.replies|] == s.replies && r[|s.replies|].0 == c;
    OneMore(s.replies, c, r[|s.replies|].1);
    assert r == s.replies + [(c, r[|s.replies|].1)];
  }

  lemma ZsetReply(s: Server, c: ClientId, k: Key)
    requires CanUnblock(s, c) && k in s.data && s.data[k].Zset? && s.data[k].items != []
    ensures Who(ServeZsetClient(s, c, k).replies) == Who(s.replies) + [c]
  {
    hide WithoutClient, Rest, End, Who;
    OneMore(s.replies, c, Popped(k, End(s.data[k].items, s.clients[c].first)));
  }

  // ------------------------------------------------------------------- one pass, exactly

  function ItemCount(s: Server, k: Key): nat {
    if k !in s.data then 0
    else match s.data[k] case List(items) => |items| case Zset(items) => |items| case _ => 0
  }

  /** Whether serving the client makes the key smaller: an element moved into the same list
      stays, and so does one whose target is of another type. */
  predicate Takes(s: Server, c: ClientId, k: Key, kind: Kind) {
    kind.ZsetKind? ||
    (c in s.clients && match s.clients[c].target
                       case None => true
                       case Some(d) => d != k && (d !in s.data || s.data[d].List?))
  }

  /** How many clients of the queue a pass gets to see: over a sorted set it ends when the set
      is empty, over a list when it meets a client it has nothing for. */
  function Visited(s: Server, k: Key, q: seq<ClientId>, kind: Kind, items: nat): (v: nat)
    ensures v <= |q|
  {
    if q == [] || (kind.ZsetKind? && items == 0) then 0
    else if !HasKind(s, q[0], kind) then 1 + Visited(s, k, q[1..], kind, items)
    else if items == 0 then 0
    else 1 + Visited(s, k, q[1..], kind, if Takes(s, q[0], k, kind) then items - 1 else items)
  }

  /** The part of the queue that a pass sees. */
  function Seen(s: Server, k: Key, kind: Kind): seq<ClientId> {
    Waiting(s, k)[..Visited(s, k, Waiting(s, k), kind, ItemCount(s, k))]
  }

  function Others(clients: Clients, q: seq<ClientId>, kind: Kind): seq<ClientId> {
    if q == [] then []
    else (if q[0] in clients && clients[q[0]].kind == Some(kind) then [] else [q[0]]) + Others(clients, q[1..], kind)
  }

  lemma {:induction false} FilterOthers(clients: Clients, q: seq<ClientId>, kind: Kind, other: Kind)
    ensures Filter(clients, Others(clients, q, kind), other) == if other == kind then [] else Filter(clients, q, other)
    decreases |q|
  {
    if q != [] {
      FilterOthers(clients, q[1..], kind, other);
      var rest := Others(clients, q[1..], kind);
      if q[0] in clients && clients[q[0]].kind == Some(kind) {
        assert Others(clients, q, kind) == rest;
      } else {
        assert Others(clients, q, kind) == [q[0]] + rest && ([q[0]] + rest)[1..] == rest;
      }
    }
  }

  lemma {:induction false} OthersSame(a: Clients, b: Clients, q: seq<ClientId>, kind: Kind)
    requires forall i | 0 <= i < |q| :: q[i] in a && q[i] in b && a[q[i]] == b[q[i]]
    ensures Others(a, q, kind) == Others(b, q, kind)
    decreases |q|
  {
    if q != [] {
      OthersSame(a, b, q[1..], kind);
    }
  }

  lemma {:induction false} VisitedSame(s: Server, r: Server, k: Key, q: seq<ClientId>, kind: Kind, items: nat)
    requires forall i | 0 <= i < |q| :: HasKind(s, q[i], kind) <==> HasKind(r, q[i], kind)
    requires forall i | 0 <= i < |q| :: Takes(s, q[i], k, kind) <==> Takes(r, q[i], k, kind)
    ensures Visited(s, k, q, kind, items) == Visited(r, k, q, kind, items)
    decreases |q|
  {
    hide Takes, HasKind;
    if q != [] {
      VisitedSame(s, r, k, q[1..], kind, items);
      if items > 0 {
        VisitedSame(s, r, k, q[1..], kind, items - 1);
      }
    }
  }

  /** What serving the first client changes for the rest of the pass. */
  lemma ServedCount(s: Server, c: ClientId, k: Key, kind: Kind)
    requires CanUnblock(s, c) && !Drained(s, k) && MatchesKind(s.data[k], kind)
    ensures ItemCount(ServeOne(s, c, k), k) == if Takes(s, c, k, kind) then ItemCount(s, k) - 1 else ItemCount(s, k)
  {
    hide WithoutClient;
  }

  lemma TakesSame(s: Server, c: ClientId, k: Key, kind: Kind, d: ClientId)
    requires CanUnblock(s, c) && !Drained(s, k) && MatchesKind(s.data[k], kind) && d != c && d in s.clients
    ensures var r := ServeOne(s, c, k);
            d in r.clients && r.clients[d] == s.clients[d] && (Takes(r, d, k, kind) <==> Takes(s, d, k, kind))
  {
    hide WithoutClient, ServeListClient, ServeZsetClient;
    if s.data[k].List? {
      ServeListFrame(s, c, k);
      if s.clients[d].target.Some? && s.clients[d].target.value != k {
        ServeListData(s, c, k, s.clients[d].target.value);
      }
    } else {
      ServeZsetFrame(s, c, k);
    }
  }

  /** After the first client was served: its list, the others, and what they would take. */
  lemma ServedRest(s: Server, c: ClientId, k: Key, kind: Kind, q: seq<ClientId>)
    requires Inv(s) && Waiting(s, k) != [] && c == s.waiting[k][0] && HasKind(s, c, kind)
    requires !Drained(s, k) && MatchesKind(s.data[k], kind) && CanUnblock(s, c)
    requires forall i | 0 <= i < |q| :: q[i] in Waiting(s, k)[1..]
    ensures var r := ServeOne(s, c, k);
            && (forall i | 0 <= i < |q| :: q[i] in s.clients && q[i] in r.clients && r.clients[q[i]] == s.clients[q[i]])
            && (forall items: nat :: Visited(r, k, q, kind, items) == Visited(s, k, q, kind, items))
            && Filter(r.clients, q, kind) == Filter(s.clients, q, kind)
            && Others(r.clients, q, kind) == Others(s.clients, q, kind)
  {
    hide IndexOk, CountersOk, ServeOne, Takes, HasKind, Filter, Others, Visited;
    AllWait(s, k);
    var r := ServeOne(s, c, k);
    forall i | 0 <= i < |q|
      ensures q[i] in s.clients && q[i] in r.clients && r.clients[q[i]] == s.clients[q[i]]
      ensures Takes(r, q[i], k, kind) <==> Takes(s, q[i], k, kind)
    {
      var j :| 0 <= j < |Waiting(s, k)[1..]| && Waiting(s, k)[1..][j] == q[i];
      assert Waiting(s, k)[j + 1] == q[i] && q[i] != c;
      TakesSame(s, c, k, kind, q[i]);
    }
    forall i | 0 <= i < |q| ensures HasKind(s, q[i], kind) <==> HasKind(r, q[i], kind) {
      SameKind(s, r, q[i], kind);
    }
    forall items: nat ensures Visited(r, k, q, kind, items) == Visited(s, k, q, kind, items) {
      VisitedSame(s, r, k, q, kind, items);
    }
    FilterSame(s.clients, r.clients, q, kind);
    OthersSame(s.clients, r.clients, q, kind);
  }

  lemma SameKind(s: Server, r: Server, c: ClientId, kind: Kind)
    requires c in s.clients && c in r.clients && r.clients[c] == s.clients[c]
    ensures HasKind(s, c, kind) <==> HasKind(r, c, kind)
  {
  }

  predicate SameClient(s: Server, t: Server, c: ClientId) {
    c in s.clients && c in t.clients && t.clients[c] == s.clients[c]
  }

  /** The server after a pass that found q + r in the queue and had |q| rounds: of the clients
      it saw, those of its type were answered in their order and left, and the others went to
      the tail in theirs. */
  ghost predicate Passed(s: Server, t: Server, k: Key, kind: Kind, q: seq<ClientId>, r: seq<ClientId>) {
    var v := Visited(s, k, q, kind, ItemCount(s, k));
    && Waiting(t, k) == q[v..] + r + Others(s.clients, q[..v], kind)
    && Who(t.replies) == Who(s.replies) + Filter(s.clients, q[..v], kind)
    && (forall c | c in Waiting(t, k) :: SameClient(s, t, c))
  }

  lemma PassEnds(s: Server, k: Key, kind: Kind, q: seq<ClientId>, r: seq<ClientId>)
    requires Inv(s) && Waiting(s, k) == q + r && Visited(s, k, q, kind, ItemCount(s, k)) == 0
    ensures Passed(s, s, k, kind, q, r)
  {
    hide IndexOk, CountersOk, Visited;
    AllWait(s, k);
    assert q[0..] + r + [] == q + r && Who(s.replies) + [] == Who(s.replies);
  }

  lemma PassRotates(s: Server, t: Server, k: Key, kind: Kind, q: seq<ClientId>, r: seq<ClientId>)
    requires q != [] && Waiting(s, k) == q + r && !HasKind(s, q[0], kind)
    requires !(kind.ZsetKind? && ItemCount(s, k) == 0)
    requires Passed(Rotate(s, k), t, k, kind, q[1..], r + [q[0]])
    ensures Passed(s, t, k, kind, q, r)
  {
    hide Who, Takes, Visited, Others, Filter, ItemCount;
    var items := ItemCount(s, k);
    assert ItemCount(Rotate(s, k), k) == items by { SameCount(s, k); }
    VisitedRotated(s, k, q[1..], kind, items);
    var v1 := Visited(s, k, q[1..], kind, items);
    VisitedOther(s, k, q, kind, items);
    OtherFront(s.clients, q, v1, kind);
    assert q[1..][v1..] == q[v1 + 1..];
    assert q[v1 + 1..] + (r + [q[0]]) + Others(s.clients, q[1..][..v1], kind)
        == q[v1 + 1..] + r + ([q[0]] + Others(s.clients, q[1..][..v1], kind));
  }

  lemma SameCount(s: Server, k: Key)
    requires k in s.waiting && s.waiting[k] != []
    ensures ItemCount(Rotate(s, k), k) == ItemCount(s, k)
  {
  }

  lemma VisitedOther(s: Server, k: Key, q: seq<ClientId>, kind: Kind, items: nat)
    requires q != [] && !HasKind(s, q[0], kind) && !(kind.ZsetKind? && items == 0)
    ensures Visited(s, k, q, kind, items) == 1 + Visited(s, k, q[1..], kind, items)
  {
  }

  lemma OtherFront(clients: Clients, q: seq<ClientId>, v: nat, kind: Kind)
    requires v < |q| && !(q[0] in clients && clients[q[0]].kind == Some(kind))
    ensures Filter(clients, q[..v + 1], kind) == Filter(clients, q[1..][..v], kind)
    ensures Others(clients, q[..v + 1], kind) == [q[0]] + Others(clients, q[1..][..v], kind)
  {
    assert q[..v + 1][0] == q[0] && q[..v + 1][1..] == q[1..][..v];
  }

  lemma VisitedRotated(s: Server, k: Key, q: seq<ClientId>, kind: Kind, items: nat)
    requires k in s.waiting && s.waiting[k] != []
    ensures Visited(Rotate(s, k), k, q, kind, items) == Visited(s, k, q, kind, items)
  {
    hide Visited;
    VisitedSame(s, Rotate(s, k), k, q, kind, items);
  }

  lemma PassServes(s: Server, t: Server, c: ClientId, k: Key, kind: Kind, q: seq<ClientId>, r: seq<ClientId>)
    requires Inv(s) && q != [] && Waiting(s, k) == q + r && c == q[0] && HasKind(s, c, kind)
    requires !Drained(s, k) && MatchesKind(s.data[k], kind) && CanUnblock(s, c)
    requires Passed(ServeOne(s, c, k), t, k, kind, q[1..], r)
    ensures Passed(s, t, k, kind, q, r)
  {
    hide IndexOk, CountersOk, ServeOne, Who, ItemCount, Filter, Others, Visited, MatchesKind, Drained;
    var s1 := ServeOne(s, c, k);
    var v1 := Visited(s1, k, q[1..], kind, ItemCount(s1, k));
    var seen := q[1..][..v1];
    assert Waiting(s, k)[1..] == q[1..] + r;
    ServedRest(s, c, k, kind, seen);
    VisitedServed(s, c, k, kind, q);
    FilterFront(s.clients, q, v1, kind);
    assert q[1..][v1..] == q[v1 + 1..];
    ServedReply(s, c, k);
    assert Who(s.replies) + [c] + Filter(s.clients, seen, kind) == Who(s.replies) + ([c] + Filter(s.clients, seen, kind));
    forall d | d in Waiting(t, k) ensures SameClient(s, t, d) {
      OthersAreIn(s1.clients, seen, kind, d);
      assert d in Waiting(s, k)[1..] && SameClient(s1, t, d);
      ServedSame(s, c, k, kind, d);
    }
  }

  lemma FilterFront(clients: Clients, q: seq<ClientId>, v: nat, kind: Kind)
    requires v < |q| && q[0] in clients && clients[q[0]].kind == Some(kind)
    ensures Filter(clients, q[..v + 1], kind) == [q[0]] + Filter(clients, q[1..][..v], kind)
    ensures Others(clients, q[..v + 1], kind) == Others(clients, q[1..][..v], kind)
  {
    assert q[..v + 1][0] == q[0] && q[..v + 1][1..] == q[1..][..v];
  }

  lemma VisitedServed(s: Server, c: ClientId, k: Key, kind: Kind, q: seq<ClientId>)
    requires Inv(s) && q != [] && c == q[0] && HasKind(s, c, kind)
    requires Waiting(s, k) != [] && c == s.waiting[k][0] && forall i | 0 <= i < |q[1..]| :: q[1..][i] in Waiting(s, k)[1..]
    requires !Drained(s, k) && MatchesKind(s.data[k], kind) && CanUnblock(s, c)
    ensures Visited(s, k, q, kind, ItemCount(s, k)) == 1 + Visited(ServeOne(s, c, k), k, q[1..], kind, ItemCount(ServeOne(s, c, k), k))
  {
    hide IndexOk, CountersOk, ServeOne, Takes, ItemCount, Filter, Others;
    ServedRest(s, c, k, kind, q[1..]);
    ServedCount(s, c, k, kind);
    assert ItemCount(s, k) > 0 by { SomethingThere(s, k); }
  }

  lemma ServedSame(s: Server, c: ClientId, k: Key, kind: Kind, d: ClientId)
    requires Inv(s) && Waiting(s, k) != [] && c == s.waiting[k][0] && HasKind(s, c, kind)
    requires !Drained(s, k) && MatchesKind(s.data[k], kind) && CanUnblock(s, c) && d in Waiting(s, k)[1..]
    ensures SameClient(s, ServeOne(s, c, k), d)
  {
    hide IndexOk, CountersOk, ServeOne, Visited, Filter, Others;
    ServedRest(s, c, k, kind, [d]);
    assert [d][0] == d;
  }

  lemma SomethingThere(s: Server, k: Key)
    ensures !Drained(s, k) ==> ItemCount(s, k) > 0
  {
  }

  lemma {:induction false} OthersAreIn(clients: Clients, q: seq<ClientId>, kind: Kind, c: ClientId)
    ensures c in Others(clients, q, kind) ==> c in q
    decreases |q|
  {
    if q != [] {
      OthersAreIn(clients, q[1..], kind, c);
    }
  }

  lemma {:induction false} PassIs(s: Server, k: Key, kind: Kind, q: seq<ClientId>, r: seq<ClientId>)
    requires Inv(s) && Waiting(s, k) == q + r && (k in s.data ==> MatchesKind(s.data[k], kind))
    ensures Passed(s, Serve(s, k, kind, |q|), k, kind, q, r)
    decreases |q|
  {
    hide IndexOk, CountersOk, ServeOne, Passed;
    assert Drained(s, k) <==> ItemCount(s, k) == 0;
    if q == [] || (kind.ZsetKind? && Drained(s, k)) {
      PassEnds(s, k, kind, q, r);
    } else {
      FirstWaits(s, k);
      var c := s.waiting[k][0];
      assert c == q[0];
      if s.clients[c].kind != Some(kind) {
        RotateKeeps(s, k);
        assert Rotate(s, k).waiting[k] == q[1..] + (r + [c]);
        PassIs(Rotate(s, k), k, kind, q[1..], r + [c]);
        PassRotates(s, Serve(s, k, kind, |q|), k, kind, q, r);
      } else if Drained(s, k) {
        PassEnds(s, k, kind, q, r);
      } else {
        ServeOneKeeps(s, c, k, kind);
        assert Waiting(s, k)[1..] == q[1..] + r;
        PassIs(ServeOne(s, c, k), k, kind, q[1..], r);
        PassServes(s, Serve(s, k, kind, |q|), c, k, kind, q, r);
      }
    }
  }

  /** A pass answers the clients of its type among those it sees, in the order of the queue and
      nobody else, and leaves the queue of its type otherwise as it was. */
  lemma ServedInOrder(s: Server, k: Key, kind: Kind)
    requires Inv(s) && (k in s.data ==> MatchesKind(s.data[k], kind))
    ensures var t, m := Serve(s, k, kind, |Waiting(s, k)|), |Filter(s.clients, Seen(s, k, kind), kind)|;
            && m <= |Queue(s, k, kind)|
            && Who(t.replies) == Who(s.replies) + Queue(s, k, kind)[..m]
            && Queue(t, k, kind) == Queue(s, k, kind)[m..]
  {
    hide IndexOk, CountersOk, Serve, Filter, Others, Who, Visited;
    var q := Waiting(s, k);
    var v := Visited(s, k, q, kind, ItemCount(s, k));
    assert q + [] == q;
    PassIs(s, k, kind, q, []);
    PassQueue(s, Serve(s, k, kind, |q|), k, kind, kind, v);
  }

  /** The queue of another type is turned, not shuffled: those that the pass saw go behind those
      that it did not. So it keeps its order exactly when the pass saw none or all of them. */
  lemma OthersTurned(s: Server, k: Key, kind: Kind, other: Kind)
    requires Inv(s) && (k in s.data ==> MatchesKind(s.data[k], kind)) && other != kind
    ensures var q, m := Queue(s, k, other), |Filter(s.clients, Seen(s, k, kind), other)|;
            && m <= |q|
            && Queue(Serve(s, k, kind, |Waiting(s, k)|), k, other) == q[m..] + q[..m]
            && (Queue(Serve(s, k, kind, |Waiting(s, k)|), k, other) == q <==> m == 0 || m == |q|)
  {
    hide IndexOk, CountersOk, Serve, Filter, Others, Who, Visited;
    var w := Waiting(s, k);
    var v := Visited(s, k, w, kind, ItemCount(s, k));
    assert w + [] == w;
    PassIs(s, k, kind, w, []);
    PassQueue(s, Serve(s, k, kind, |w|), k, kind, other, v);
    var m := |Filter(s.clients, Seen(s, k, kind), other)|;
    AllWait(s, k);
    FilterNoDup(s.clients, w, other);
    TurnsBack(Queue(s, k, other), m);
  }

  lemma PassQueue(s: Server, t: Server, k: Key, kind: Kind, other: Kind, v: nat)
    requires v <= |Waiting(s, k)| && Waiting(t, k) == Waiting(s, k)[v..] + [] + Others(s.clients, Waiting(s, k)[..v], kind)
    requires forall c | c in Waiting(t, k) :: SameClient(s, t, c)
    ensures var q, seen := Queue(s, k, other), Filter(s.clients, Waiting(s, k)[..v], other);
            && |seen| <= |q| && seen == q[..|seen|]
            && Queue(t, k, other) == q[|seen|..] + (if other == kind then [] else seen)
  {
    hide Filter, Others;
    var w := Waiting(s, k);
    assert w == w[..v] + w[v..];
    FilterConcat(s.clients, w[..v], w[v..], other);
    forall i | 0 <= i < |Waiting(t, k)| ensures SameClient(s, t, Waiting(t, k)[i]) {
      assert Waiting(t, k)[i] in Waiting(t, k);
    }
    FilterSame(s.clients, t.clients, Waiting(t, k), other);
    FilterOthers(s.clients, w[..v], kind, other);
    FilterConcat(s.clients, w[v..], Others(s.clients, w[..v], kind), other);
    assert w[v..] + [] == w[v..];
  }

  lemma {:induction false} FilterNoDup(clients: Clients, q: seq<ClientId>, kind: Kind)
    requires NoDup(q)
    ensures NoDup(Filter(clients, q, kind))
    ensures forall c | c in Filter(clients, q, kind) :: c in q
    decreases |q|
  {
    if q != [] {
      FilterNoDup(clients, q[1..], kind);
      assert q[0] !in q[1..];
    }
  }

  /** Turning a queue of distinct clients gives it back only if nobody or everybody passes. */
  lemma TurnsBack(q: seq<ClientId>, m: nat)
    requires NoDup(q) && m <= |q|
    ensures q[m..] + q[..m] == q <==> m == 0 || m == |q|
  {
    if 0 < m < |q| {
      assert (q[m..] + q[..m])[0] == q[m] != q[0];
    }
  }

  // ---------------------------------------------------------------- a pass over a stream

  predicate IsBehind(s: Server, c: ClientId, k: Key, last: nat) {
    WaitsFor(s.clients, c, k) && s.clients[c].kind == Some(StreamKind) && s.clients[c].keys[k] < last
  }

  /** The clients that have not seen the last entry, and the others. */
  function Behind(s: Server, q: seq<ClientId>, k: Key, last: nat): seq<ClientId> {
    if q == [] then [] else (if IsBehind(s, q[0], k, last) then [q[0]] else []) + Behind(s, q[1..], k, last)
  }

  function Ahead(s: Server, q: seq<ClientId>, k: Key, last: nat): seq<ClientId> {
    if q == [] then [] else (if IsBehind(s, q[0], k, last) then [] else [q[0]]) + Ahead(s, q[1..], k, last)
  }

  lemma {:induction false} SameBehind(s: Server, r: Server, q: seq<ClientId>, k: Key, last: nat)
    requires forall i | 0 <= i < |q| :: SameClient(s, r, q[i])
    ensures Behind(s, q, k, last) == Behind(r, q, k, last) && Ahead(s, q, k, last) == Ahead(r, q, k, last)
    decreases |q|
  {
    if q != [] {
      SameBehind(s, r, q[1..], k, last);
    }
  }

  lemma {:induction false} DropAt(a: seq<ClientId>, c: ClientId, b: seq<ClientId>)
    requires c !in a
    ensures Drop(a + [c] + b, c) == a + b
    decreases |a|
  {
    if a == [] {
      assert [] + [c] + b == [c] + b && ([c] + b)[1..] == b;
    } else {
      assert a[0] != c && c !in a[1..];
      assert (a + [c] + b)[1..] == a[1..] + [c] + b;
      DropAt(a[1..], c, b);
    }
  }

  lemma AnswerWaits(s: Server, c: ClientId, reply: Reply, k: Key)
    ensures Waiting(Answer(s, c, reply), k) == Waiting(s, k)
  {
  }

  /** One client is answered and leaves the queue. */
  lemma StreamAnswered(s: Server, c: ClientId, k: Key, a: seq<ClientId>, b: seq<ClientId>, reply: Reply)
    requires Inv(s) && CanUnblock(s, c) && Waiting(s, k) == a + [c] + b && WaitsFor(s.clients, c, k)
    ensures var r := Answer(Unblock(s, c), c, reply);
            && Waiting(r, k) == a + b && Who(r.replies) == Who(s.replies) + [c]
            && (forall i | 0 <= i < |b| :: SameClient(s, r, b[i]))
  {
    hide IndexOk, CountersOk, WithoutClient, Who, Waiting, Drop;
    AllWait(s, k);
    UnblockKeeps(s, c);
    var w := Waiting(s, k);
    assert Waiting(Answer(Unblock(s, c), c, reply), k) == Waiting(Unblock(s, c), k) by { AnswerWaits(Unblock(s, c), c, reply, k); }
    forall i | 0 <= i < |a| ensures a[i] != c {
      assert w[i] == a[i] && w[|a|] == c;
    }
    DropAt(a, c, b);
    OneMore(s.replies, c, reply);
    forall i | 0 <= i < |b| ensures SameClient(s, Answer(Unblock(s, c), c, reply), b[i]) {
      assert w[|a| + 1 + i] == b[i] && w[|a|] == c;
    }
  }

  /** A pass over a stream is no queue: it answers everybody who is behind, in the order in
      which they stand, and the others stay as they stand. */
  lemma {:induction false} StreamPassIs(s: Server, k: Key, a: seq<ClientId>, q: seq<ClientId>)
    requires Inv(s) && k in s.data && s.data[k].Stream? && Waiting(s, k) == a + q
    requires NoDup(q) && forall i | 0 <= i < |q| :: WaitsFor(s.clients, q[i], k)
    ensures var t, last := ServeStream(s, k, q), s.data[k].last;
            && Waiting(t, k) == a + Ahead(s, q, k, last)
            && Who(t.replies) == Who(s.replies) + Behind(s, q, k, last)
    decreases |q|
  {
    hide IndexOk, CountersOk, Who, Unblock;
    if q == [] {
      assert a + [] == a && Who(s.replies) + [] == Who(s.replies);
    } else {
      var c, last, rest := q[0], s.data[k].last, q[1..];
      assert a + q == a + [c] + rest;
      if IsBehind(s, c, k, last) {
        BlockedCounts(s, c);
        UnblockKeeps(s, c);
        UnblockOthers(s, c);
        var s1 := Answer(Unblock(s, c), c, Entries(k, s.clients[c].keys[k], last));
        assert s1.data == s.data by { UnblockData(s, c); }
        StreamAnswered(s, c, k, a, rest, Entries(k, s.clients[c].keys[k], last));
        StreamPassIs(s1, k, a, rest);
        SameBehind(s, s1, rest, k, last);
        assert Who(s.replies) + [c] + Behind(s, rest, k, last) == Who(s.replies) + ([c] + Behind(s, rest, k, last));
      } else {
        StreamPassIs(s, k, a + [c], rest);
        assert a + [c] + Ahead(s, rest, k, last) == a + ([c] + Ahead(s, rest, k, last));
      }
    }
  }

  lemma UnblockData(s: Server, c: ClientId)
    requires CanUnblock(s, c)
    ensures Unblock(s, c).data == s.data
  {
  }

  // ---------------------------------------------------------------------- conservation

  function ItemsOf(v: Value): multiset<string> {
    match v
    case List(items) => multiset(items)
    case Zset(items) => multiset(items)
    case _ => multiset{}
  }

  /** Every element of every list and sorted set. */
  ghost function Total(data: map<Key, Value>): multiset<string> {
    if data == map[] then multiset{}
    else
      var k :| k in data;
      ItemsOf(data[k]) + Total(data - {k})
  }

  lemma {:induction false} TotalAt(data: map<Key, Value>, k: Key)
    requires k in data
    ensures Total(data) == ItemsOf(data[k]) + Total(data - {k})
    decreases |data|
  {
    hide ItemsOf;
    var k0 :| k0 in data && Total(data) == ItemsOf(data[k0]) + Total(data - {k0});
    if k0 != k {
      assert |data - {k0}| < |data| && |data - {k}| < |data| by {
        assert (data - {k0}).Keys == data.Keys - {k0} && (data - {k}).Keys == data.Keys - {k};
      }
      TotalAt(data - {k0}, k);
      TotalAt(data - {k}, k0);
      assert data - {k0} - {k} == data - {k} - {k0};
    }
  }

  lemma TotalUpdate(data: map<Key, Value>, k: Key, v: Value)
    ensures Total(data[k := v]) == ItemsOf(v) + Total(data - {k})
  {
    TotalAt(data[k := v], k);
    assert data[k := v] - {k} == data - {k};
  }

  /** What the clients took away: moved elements stay in the keyspace. */
  function Taken(replies: seq<(ClientId, Reply)>): multiset<string> {
    if replies == [] then multiset{}
    else Taken(replies[..|replies| - 1]) + (match replies[|replies| - 1].1 case Popped(_, x) => multiset{x} case _ => multiset{})
  }

  ghost function Elements(s: Server): multiset<string> {
    Total(s.data) + Taken(s.replies)
  }

  lemma TakenMore(s: Server, c: ClientId, r: Reply)
    ensures Taken(Answer(s, c, r).replies) == Taken(s.replies) + (match r case Popped(_, x) => multiset{x} case _ => multiset{})
  {
    var replies := Answer(s, c, r).replies;
    assert replies[..|replies| - 1] == s.replies;
  }

  lemma EndRest(items: seq<string>, first: bool)
    requires items != []
    ensures multiset(items) == multiset(Rest(items, first)) + multiset{End(items, first)}
    ensures PutBack(Rest(items, first), End(items, first), first) == items
  {
    if first {
      assert items == [items[0]] + items[1..];
    } else {
      assert items == items[..|items| - 1] + [items[|items| - 1]];
    }
  }

  lemma ListConserves(s: Server, c: ClientId, k: Key)
    requires CanUnblock(s, c) && k in s.data && s.data[k].List? && s.data[k].items != []
    ensures Elements(ServeListClient(s, c, k)) == Elements(s)
  {
    hide Total, Taken, ItemsOf, WithoutClient, Rest, End, PutBack, DbAdd;
    var client, items := s.clients[c], s.data[k].items;
    var x, rest := End(items, client.first), Rest(items, client.first);
    EndRest(items, client.first);
    var data1 := s.data[k := List(rest)];
    TotalAt(s.data, k);
    TotalUpdate(s.data, k, List(rest));
    assert Total(s.data) == Total(data1) + multiset{x} by { OfList(items); OfList(rest); }
    var s1 := Unblock(s.(data := data1), c);
    if client.target.None? {
      TakenMore(s1, c, Popped(k, x));
    } else {
      var d := client.target.value;
      if d !in data1 {
        MovedToNew(data1, d, x);
        Added(s1, d);
        TakenMore(DbAdd(s1, d, List([])), c, Moved(x));
      } else if data1[d].List? {
        MovedToOld(data1, d, x);
        TakenMore(s1, c, Moved(x));
      } else {
        assert data1[k := List(items)] == s.data;
        TakenMore(s1, c, WrongType);
      }
    }
  }

  lemma OfList(items: seq<string>)
    ensures ItemsOf(List(items)) == multiset(items)
  {
  }

  lemma Added(s: Server, d: Key)
    ensures DbAdd(s, d, List([])).data == s.data[d := List([])] && DbAdd(s, d, List([])).replies == s.replies
  {
  }

  lemma MovedToNew(data: map<Key, Value>, d: Key, x: string)
    requires d !in data
    ensures Total(data[d := List([])][d := List([x])]) == Total(data) + multiset{x}
  {
    hide Total;
    TotalUpdate(data[d := List([])], d, List([x]));
    assert data[d := List([])] - {d} == data;
  }

  lemma MovedToOld(data: map<Key, Value>, d: Key, x: string)
    requires d in data && data[d].List?
    ensures Total(data[d := List([x] + data[d].items)]) == Total(data) + multiset{x}
  {
    hide Total;
    TotalAt(data, d);
    TotalUpdate(data, d, List([x] + data[d].items));
  }

  lemma ZsetConserves(s: Server, c: ClientId, k: Key)
    requires CanUnblock(s, c) && k in s.data && s.data[k].Zset? && s.data[k].items != []
    ensures Elements(ServeZsetClient(s, c, k)) == Elements(s)
  {
    hide Total, Taken, WithoutClient, Rest, End;
    var client, items := s.clients[c], s.data[k].items;
    var x, rest := End(items, client.first), Rest(items, client.first);
    EndRest(items, client.first);
    TotalAt(s.data, k);
    TotalUpdate(s.data, k, Zset(rest));
    TakenMore(Unblock(s, c), c, Popped(k, x));
  }

  lemma {:induction false} ServeConserves(s: Server, k: Key, kind: Kind, n: nat)
    requires Inv(s) && n <= |Waiting(s, k)| && (k in s.data ==> MatchesKind(s.data[k], kind))
    ensures Elements(Serve(s, k, kind, n)) == Elements(s)
    decreases n
  {
    hide IndexOk, CountersOk, Total, Taken, ServeListClient, ServeZsetClient;
    if n > 0 && !(kind.ZsetKind? && Drained(s, k)) {
      FirstWaits(s, k);
      var c := s.waiting[k][0];
      if s.clients[c].kind != Some(kind) {
        RotateKeeps(s, k);
        ServeConserves(Rotate(s, k), k, kind, n - 1);
      } else if !Drained(s, k) {
        ServeOneKeeps(s, c, k, kind);
        if s.data[k].List? {
          ListConserves(s, c, k);
        } else {
          ZsetConserves(s, c, k);
        }
        ServeConserves(ServeOne(s, c, k), k, kind, n - 1);
      }
    }
  }

  lemma CleanUpConserves(s: Server, k: Key)
    ensures Elements(CleanUp(s, k)) == Elements(s)
  {
    hide Total, Taken;
    if k in s.data {
      TotalAt(s.data, k);
    }
  }

  lemma {:induction false} StreamConserves(s: Server, k: Key, q: seq<ClientId>)
    requires Inv(s) && k in s.data && s.data[k].Stream?
    requires NoDup(q) && forall i | 0 <= i < |q| :: WaitsFor(s.clients, q[i], k)
    ensures Elements(ServeStream(s, k, q)) == Elements(s)
    decreases |q|
  {
    hide IndexOk, CountersOk, Total, Taken, WithoutClient;
    if q != [] {
      var c, last := q[0], s.data[k].last;
      if s.clients[c].kind == Some(StreamKind) && s.clients[c].keys[k] < last {
        BlockedCounts(s, c);
        UnblockKeeps(s, c);
        UnblockOthers(s, c);
        TakenMore(Unblock(s, c), c, Entries(k, s.clients[c].keys[k], last));
        StreamConserves(Answer(Unblock(s, c), c, Entries(k, s.clients[c].keys[k], last)), k, q[1..]);
      } else {
        StreamConserves(s, k, q[1..]);
      }
    }
  }

  lemma KeyConserves(s: Server, k: Key)
    requires Inv(s)
    ensures Elements(HandleKey(s, k)) == Elements(s)
  {
    hide IndexOk, CountersOk, Total, Taken, Serve, ServeStream, ModulePass, CleanUp;
    var s1 := s.(readySet := s.readySet - {k});
    if k in s.data {
      FullTurn(ServeKey(s1, k), k);
      match s.data[k] {
        case List(_) =>
          ServeConserves(s1, k, ListKind, |Waiting(s1, k)|);
          CleanUpConserves(Serve(s1, k, ListKind, |Waiting(s1, k)|), k);
        case Zset(_) => ServeConserves(s1, k, ZsetKind, |Waiting(s1, k)|);
        case Stream(_, _) =>
          AllWait(s1, k);
          StreamConserves(s1, k, Waiting(s1, k));
        case Other =>
      }
    }
  }

  lemma {:induction false} RoundConserves(s: Server, l: seq<Key>)
    requires Sound(s, l)
    ensures Elements(HandleRound(s, l)) == Elements(s)
    decreases |l|
  {
    hide Sound, Elements, HandleKey;
    if l != [] {
      HandleKeySound(s, l);
      assert Elements(HandleKey(s, l[0])) == Elements(s) by { InvOf(s, l); KeyConserves(s, l[0]); }
      RoundConserves(HandleKey(s, l[0]), l[1..]);
    }
  }

  /** Serving blocked clients neither loses nor invents an element: what is in the keyspace
      and what was handed to clients is together the same before and after. */
  lemma {:induction false} HandleConserves(s: Server)
    requires Sound(s, [])
    ensures Elements(Handle(s)) == Elements(s)
    decreases s.blocked, |s.ready|
  {
    hide Sound, HandleRound;
    if s.ready != [] {
      TakeOverSound(s);
      RoundConserves(s.(ready := []), s.ready);
      HandleConserves(HandleRound(s.(ready := []), s.ready));
    }
  }
}
