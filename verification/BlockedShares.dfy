/** Which element each client gets, and where the elements are in the end. */
module BlockedShares {
  import opened Wrappers
  import opened Blocked
  import opened BlockedServe
  import opened BlockedFair
  import opened BlockedRun
  import opened BlockedOrder

  // ----------------------------------------------------------------------------- one client

  /** A list client gets the element at its end of the list. If it is to be moved it goes to
      the head of the target, which is created if need be and may be the same list; a target
      of another type leaves everything as it was. */
  lemma ListStep(s: Server, c: ClientId, k: Key)
    requires CanUnblock(s, c) && k in s.data && s.data[k].List? && s.data[k].items != []
    ensures var items, client, r := s.data[k].items, s.clients[c], ServeListClient(s, c, k);
            var x := if client.first then items[0] else items[|items| - 1];
            var left := if client.first then items[1..] else items[..|items| - 1];
            match client.target
            case None => r.replies == s.replies + [(c, Popped(k, x))] && r.data == s.data[k := List(left)]
            case Some(d) =>
              if d == k then r.replies == s.replies + [(c, Moved(x))] && r.data == s.data[k := List([x] + left)]
              else if d !in s.data then r.replies == s.replies + [(c, Moved(x))] && r.data == s.data[k := List(left)][d := List([x])]
              else if s.data[d].List? then
                r.replies == s.replies + [(c, Moved(x))] && r.data == s.data[k := List(left)][d := List([x] + s.data[d].items)]
              else r.replies == s.replies + [(c, WrongType)] && r.data == s.data
  {
    hide WithoutClient;
    var items, client := s.data[k].items, s.clients[c];
    EndRest(items, client.first);
    assert s.data[k := List(items)] == s.data;
    var left := Rest(items, client.first);
    assert s.data[k := List(left)][k := List(items)] == s.data;
    assert s.data[k := List(left)][k := List([End(items, client.first)] + left)] == s.data[k := List([End(items, client.first)] + left)];
    if client.target.Some? {
      var d := client.target.value;
      assert s.data[k := List(left)][d := List([])][d := List([End(items, client.first)])]
          == s.data[k := List(left)][d := List([End(items, client.first)])];
    }
  }

  /** A sorted set client gets the member with the lowest or the highest score; a set that
      loses its last member goes. */
  lemma ZsetStep(s: Server, c: ClientId, k: Key)
    requires CanUnblock(s, c) && k in s.data && s.data[k].Zset? && s.data[k].items != []
    ensures var items, client, r := s.data[k].items, s.clients[c], ServeZsetClient(s, c, k);
            var x := if client.first then items[0] else items[|items| - 1];
            var left := if client.first then items[1..] else items[..|items| - 1];
            && r.replies == s.replies + [(c, Popped(k, x))]
            && r.data == if |items| == 1 then s.data - {k} else s.data[k := Zset(left)]
  {
    hide WithoutClient;
  }

  // ------------------------------------------------------------------------------- one pass

  function Target(s: Server, c: ClientId): Option<Key> {
    if c in s.clients then s.clients[c].target else None
  }

  predicate Front(s: Server, c: ClientId) {
    c in s.clients && s.clients[c].first
  }

  /** What is left of the elements when the first n of the clients have had their turn: each
      takes from its own end, except that an element moved into its own list stays there, at
      the head, and that a client whose target is of another type takes nothing. */
  function Left(s: Server, k: Key, kind: Kind, items: seq<string>, cs: seq<ClientId>, n: nat): seq<string>
    requires n <= |cs|
  {
    if n == 0 then items
    else
      var l, c := Left(s, k, kind, items, cs, n - 1), cs[n - 1];
      if l == [] then []
      else if Takes(s, c, k, kind) then if Front(s, c) then l[1..] else l[..|l| - 1]
      else if Target(s, c) == Some(k) then if Front(s, c) then l else [l[|l| - 1]] + l[..|l| - 1]
      else l
  }

  /** The element at the end from which the i-th client takes. */
  function Share(s: Server, k: Key, kind: Kind, items: seq<string>, cs: seq<ClientId>, i: nat): string
    requires i < |cs|
  {
    var l := Left(s, k, kind, items, cs, i);
    if l == [] then "" else if Front(s, cs[i]) then l[0] else l[|l| - 1]
  }

  function AnswerTo(s: Server, k: Key, kind: Kind, items: seq<string>, cs: seq<ClientId>, i: nat): Reply
    requires i < |cs|
  {
    var x := Share(s, k, kind, items, cs, i);
    if kind.ZsetKind? || Target(s, cs[i]) == None then Popped(k, x)
    else if Takes(s, cs[i], k, kind) || Target(s, cs[i]) == Some(k) then Moved(x)
    else WrongType
  }

  /** The elements that the first n clients moved to the key d, the last one first. */
  function Gathered(s: Server, k: Key, kind: Kind, items: seq<string>, cs: seq<ClientId>, d: Key, n: nat): seq<string>
    requires n <= |cs|
  {
    if n == 0 then []
    else
      var rest := Gathered(s, k, kind, items, cs, d, n - 1);
      if kind.ListKind? && Target(s, cs[n - 1]) == Some(d) && Takes(s, cs[n - 1], k, kind)
      then [Share(s, k, kind, items, cs, n - 1)] + rest else rest
  }

  function At(s: Server, d: Key): Option<Value> {
    if d in s.data then Some(s.data[d]) else None
  }

  /** A key after elements were put in front of what it holds. */
  function Landed(s: Server, d: Key, moved: seq<string>): Option<Value> {
    if moved == [] then At(s, d)
    else Some(List(moved + if d in s.data && s.data[d].List? then s.data[d].items else []))
  }

  /** The list stays, even empty, until the pass is over; a sorted set does not. */
  predicate Holds(t: Server, k: Key, kind: Kind, left: seq<string>) {
    if kind.ListKind? then At(t, k) == Some(List(left))
    else At(t, k) == if left == [] then None else Some(Zset(left))
  }

  /** t is s after n of the clients were served from the elements the key k holds in s. */
  ghost predicate Dealt(s: Server, t: Server, k: Key, kind: Kind, items: seq<string>, cs: seq<ClientId>, n: nat)
    requires n <= |cs|
  {
    && (forall i | 0 <= i < n :: Left(s, k, kind, items, cs, i) != [])
    && Holds(t, k, kind, Left(s, k, kind, items, cs, n))
    && |t.replies| == |s.replies| + n && t.replies[..|s.replies|] == s.replies
    && (forall i | 0 <= i < n :: t.replies[|s.replies| + i] == (cs[i], AnswerTo(s, k, kind, items, cs, i)))
    && (forall d | d != k :: At(t, d) == Landed(s, d, Gathered(s, k, kind, items, cs, d, n)))
  }

  /** The client is as it was before the pass, and so is what it would take. */
  ghost predicate Unchanged(s: Server, t: Server, k: Key, kind: Kind, c: ClientId) {
    SameClient(s, t, c) && (Takes(t, c, k, kind) <==> Takes(s, c, k, kind))
  }

  /** What an answered client adds to the replies. */
  lemma OneReply(s: Server, t: Server, r: Server, k: Key, kind: Kind, items: seq<string>, cs: seq<ClientId>, n: nat)
    requires n < |cs| && Dealt(s, t, k, kind, items, cs, n)
    requires r.replies == t.replies + [(cs[n], AnswerTo(s, k, kind, items, cs, n))]
    requires Left(s, k, kind, items, cs, n) != []
    requires Holds(r, k, kind, Left(s, k, kind, items, cs, n + 1))
    requires forall d | d != k :: At(r, d) == Landed(s, d, Gathered(s, k, kind, items, cs, d, n + 1))
    ensures Dealt(s, r, k, kind, items, cs, n + 1)
  {
    hide Left, AnswerTo, Gathered, Landed, Holds, At;
    forall i | 0 <= i < n + 1 ensures r.replies[|s.replies| + i] == (cs[i], AnswerTo(s, k, kind, items, cs, i)) {
      if i < n {
        assert r.replies[|s.replies| + i] == t.replies[|s.replies| + i];
      }
    }
    assert r.replies[..|s.replies|] == t.replies[..|s.replies|];
  }

  lemma DealZset(s: Server, t: Server, k: Key, items: seq<string>, cs: seq<ClientId>, n: nat)
    requires n < |cs| && Dealt(s, t, k, ZsetKind, items, cs, n) && CanUnblock(t, cs[n]) && SameClient(s, t, cs[n])
    requires k in t.data && t.data[k].Zset? && t.data[k].items != []
    ensures Dealt(s, ServeZsetClient(t, cs[n], k), k, ZsetKind, items, cs, n + 1)
  {
    hide ServeZsetClient;
    var r := ServeZsetClient(t, cs[n], k);
    ZsetStep(t, cs[n], k);
    forall d | d != k ensures At(r, d) == Landed(s, d, Gathered(s, k, ZsetKind, items, cs, d, n + 1)) {
      assert At(r, d) == At(t, d);
    }
    OneReply(s, t, r, k, ZsetKind, items, cs, n);
  }

  /** An element more in front of what has landed in a key. */
  lemma LandOne(s: Server, t: Server, d: Key, was: seq<string>, x: string)
    requires At(t, d) == Landed(s, d, was) && (d in t.data ==> t.data[d].List?)
    ensures Some(List([x] + if d in t.data then t.data[d].items else [])) == Landed(s, d, [x] + was)
  {
    var below := if d in s.data && s.data[d].List? then s.data[d].items else [];
    assert [x] + (was + below) == ([x] + was) + below;
    assert was == [] ==> [x] + was == [x];
    assert below == [] ==> [x] + [] == [x];
  }

  /** The client's turn in a list: its element, its reply, and what it leaves. */
  lemma Turn(s: Server, t: Server, k: Key, items: seq<string>, cs: seq<ClientId>, n: nat)
    requires n < |cs| && Dealt(s, t, k, ListKind, items, cs, n) && CanUnblock(t, cs[n]) && Unchanged(s, t, k, ListKind, cs[n])
    requires k in t.data && t.data[k].List? && t.data[k].items != []
    ensures var r, x := ServeListClient(t, cs[n], k), Share(s, k, ListKind, items, cs, n);
            && r.replies == t.replies + [(cs[n], AnswerTo(s, k, ListKind, items, cs, n))]
            && At(r, k) == Some(List(Left(s, k, ListKind, items, cs, n + 1)))
            && forall d | d != k :: At(r, d) == if Target(s, cs[n]) == Some(d) && Takes(s, cs[n], k, ListKind)
                                               then Some(List([x] + if d in t.data && t.data[d].List? then t.data[d].items else []))
                                               else At(t, d)
  {
    hide ServeListClient, Gathered, Landed, Dealt, CanUnblock;
    var c := cs[n];
    assert t.data[k].items == Left(s, k, ListKind, items, cs, n) by { HoldsLeft(s, t, k, items, cs, n); }
    ListStep(t, c, k);
    var l := t.data[k].items;
    assert s.clients[c] == t.clients[c];
    assert Front(s, c) ==> [l[0]] + l[1..] == l;
    var x := if s.clients[c].first then l[0] else l[|l| - 1];
    assert x == Share(s, k, ListKind, items, cs, n);
    assert [x] + [] == [x];
  }

  lemma HoldsLeft(s: Server, t: Server, k: Key, items: seq<string>, cs: seq<ClientId>, n: nat)
    requires n <= |cs| && Dealt(s, t, k, ListKind, items, cs, n)
    ensures At(t, k) == Some(List(Left(s, k, ListKind, items, cs, n)))
  {
    hide Left;
  }

  lemma GatheredNext(s: Server, k: Key, items: seq<string>, cs: seq<ClientId>, d: Key, n: nat)
    requires n < |cs|
    ensures var was := Gathered(s, k, ListKind, items, cs, d, n);
            Gathered(s, k, ListKind, items, cs, d, n + 1) ==
              if Target(s, cs[n]) == Some(d) && Takes(s, cs[n], k, ListKind)
              then [Share(s, k, ListKind, items, cs, n)] + was else was
  {
  }

  lemma DealList(s: Server, t: Server, k: Key, items: seq<string>, cs: seq<ClientId>, n: nat)
    requires n < |cs| && Dealt(s, t, k, ListKind, items, cs, n) && CanUnblock(t, cs[n]) && Unchanged(s, t, k, ListKind, cs[n])
    requires k in t.data && t.data[k].List? && t.data[k].items != []
    ensures Dealt(s, ServeListClient(t, cs[n], k), k, ListKind, items, cs, n + 1)
  {
    hide ServeListClient, Gathered, Landed, Dealt, CanUnblock, Left, Share, AnswerTo;
    var r := ServeListClient(t, cs[n], k);
    Turn(s, t, k, items, cs, n);
    forall d | d != k ensures At(r, d) == Landed(s, d, Gathered(s, k, ListKind, items, cs, d, n + 1)) {
      GatheredNext(s, k, items, cs, d, n);
      var was := Gathered(s, k, ListKind, items, cs, d, n);
      assert At(t, d) == Landed(s, d, was) by { HasLanded(s, t, k, items, cs, n, d); }
      if Target(s, cs[n]) == Some(d) && Takes(s, cs[n], k, ListKind) {
        LandOne(s, t, d, was, Share(s, k, ListKind, items, cs, n));
      }
    }
    HoldsLeft(s, t, k, items, cs, n);
    OneReply(s, t, r, k, ListKind, items, cs, n);
  }

  lemma HasLanded(s: Server, t: Server, k: Key, items: seq<string>, cs: seq<ClientId>, n: nat, d: Key)
    requires n <= |cs| && Dealt(s, t, k, ListKind, items, cs, n) && d != k
    ensures At(t, d) == Landed(s, d, Gathered(s, k, ListKind, items, cs, d, n))
  {
    hide Gathered, Landed, Left;
  }

  /** The whole pass, from any point of it on: the clients it sees from there are those from
      the i-th on. */
  lemma {:induction false} PassDeals(s: Server, t: Server, k: Key, kind: Kind, items: seq<string>, cs: seq<ClientId>, i: nat,
                                     q: seq<ClientId>, r: seq<ClientId>)
    requires Inv(t) && Waiting(t, k) == q + r && (k in t.data ==> MatchesKind(t.data[k], kind))
    requires i <= |cs| && cs[i..] == Filter(t.clients, q[..Visited(t, k, q, kind, ItemCount(t, k))], kind)
    requires forall c | c in Waiting(t, k) :: Unchanged(s, t, k, kind, c)
    requires Dealt(s, t, k, kind, items, cs, i)
    ensures Dealt(s, Serve(t, k, kind, |q|), k, kind, items, cs, |cs|)
    decreases |q|
  {
    hide IndexOk, CountersOk, ServeOne, Dealt, Filter, Unchanged, Visited;
    assert Drained(t, k) <==> ItemCount(t, k) == 0;
    VisitedNone(t, k, q, kind);
    if q == [] || (kind.ZsetKind? && Drained(t, k)) {
      assert i == |cs|;
    } else {
      FirstWaits(t, k);
      var c := t.waiting[k][0];
      assert c == q[0];
      if t.clients[c].kind != Some(kind) {
        RotateKeeps(t, k);
        assert Rotate(t, k).waiting[k] == q[1..] + (r + [c]);
        DealtRotated(s, t, k, kind, items, cs, i, q);
        PassDeals(s, Rotate(t, k), k, kind, items, cs, i, q[1..], r + [c]);
      } else if Drained(t, k) {
        assert i == |cs|;
      } else {
        ServeOneKeeps(t, c, k, kind);
        assert Waiting(t, k)[1..] == q[1..] + r;
        DealtServed(s, t, k, kind, items, cs, i, q, r);
        PassDeals(s, ServeOne(t, c, k), k, kind, items, cs, i + 1, q[1..], r);
      }
    }
  }

  lemma VisitedNone(t: Server, k: Key, q: seq<ClientId>, kind: Kind)
    ensures q == [] || (ItemCount(t, k) == 0 && (kind.ZsetKind? || HasKind(t, q[0], kind))) ==>
              Visited(t, k, q, kind, ItemCount(t, k)) == 0
    ensures Filter(t.clients, q[..0], kind) == []
  {
  }

  lemma DealtRotated(s: Server, t: Server, k: Key, kind: Kind, items: seq<string>, cs: seq<ClientId>, i: nat, q: seq<ClientId>)
    requires k in t.waiting && t.waiting[k] != [] && q != [] && q[0] == t.waiting[k][0]
    requires !HasKind(t, q[0], kind) && !(kind.ZsetKind? && ItemCount(t, k) == 0)
    requires forall c | c in Waiting(t, k) :: Unchanged(s, t, k, kind, c)
    requires i <= |cs| && cs[i..] == Filter(t.clients, q[..Visited(t, k, q, kind, ItemCount(t, k))], kind)
    requires Dealt(s, t, k, kind, items, cs, i)
    ensures var r := Rotate(t, k);
            && (forall c | c in Waiting(r, k) :: Unchanged(s, r, k, kind, c))
            && cs[i..] == Filter(r.clients, q[1..][..Visited(r, k, q[1..], kind, ItemCount(r, k))], kind)
            && Dealt(s, r, k, kind, items, cs, i)
  {
    hide Filter, Visited, Left, AnswerTo, Gathered, Landed;
    var r := Rotate(t, k);
    SameCount(t, k);
    VisitedRotated(t, k, q[1..], kind, ItemCount(t, k));
    VisitedOther(t, k, q, kind, ItemCount(t, k));
    OtherFront(t.clients, q, Visited(t, k, q[1..], kind, ItemCount(t, k)), kind);
    forall c | c in Waiting(r, k) ensures Unchanged(s, r, k, kind, c) {
      assert c in Waiting(t, k);
    }
  }

  lemma DealtServed(s: Server, t: Server, k: Key, kind: Kind, items: seq<string>, cs: seq<ClientId>, i: nat,
                    q: seq<ClientId>, r: seq<ClientId>)
    requires Inv(t) && q != [] && Waiting(t, k) == q + r && HasKind(t, q[0], kind)
    requires !Drained(t, k) && MatchesKind(t.data[k], kind) && CanUnblock(t, q[0])
    requires forall c | c in Waiting(t, k) :: Unchanged(s, t, k, kind, c)
    requires i <= |cs| && cs[i..] == Filter(t.clients, q[..Visited(t, k, q, kind, ItemCount(t, k))], kind)
    requires Dealt(s, t, k, kind, items, cs, i)
    ensures var u := ServeOne(t, q[0], k);
            && (forall c | c in Waiting(t, k)[1..] :: Unchanged(s, u, k, kind, c))
            && i < |cs| && cs[i + 1..] == Filter(u.clients, q[1..][..Visited(u, k, q[1..], kind, ItemCount(u, k))], kind)
            && Dealt(s, u, k, kind, items, cs, i + 1)
  {
    hide IndexOk, CountersOk, ServeListClient, ServeZsetClient, Filter, Visited, Dealt, Others, Takes, ItemCount;
    var c := q[0];
    var u := ServeOne(t, c, k);
    assert Waiting(t, k)[1..] == q[1..] + r && c == t.waiting[k][0];
    VisitedServed(t, c, k, kind, q);
    var v1 := Visited(u, k, q[1..], kind, ItemCount(u, k));
    ServedRest(t, c, k, kind, q[1..][..v1]);
    FilterFront(t.clients, q, v1, kind);
    assert cs[i..][0] == c && cs[i..][1..] == cs[i + 1..];
    assert c in Waiting(t, k);
    if t.data[k].List? {
      DealList(s, t, k, items, cs, i);
    } else {
      DealZset(s, t, k, items, cs, i);
    }
    forall d | d in Waiting(t, k)[1..] ensures Unchanged(s, u, k, kind, d) {
      NextUnchanged(s, t, c, k, kind, d);
    }
  }

  lemma NextUnchanged(s: Server, t: Server, c: ClientId, k: Key, kind: Kind, d: ClientId)
    requires Inv(t) && Waiting(t, k) != [] && c == t.waiting[k][0] && HasKind(t, c, kind)
    requires !Drained(t, k) && MatchesKind(t.data[k], kind) && CanUnblock(t, c) && d in Waiting(t, k)[1..]
    requires forall c | c in Waiting(t, k) :: Unchanged(s, t, k, kind, c)
    ensures Unchanged(s, ServeOne(t, c, k), k, kind, d)
  {
    hide IndexOk, CountersOk, ServeOne, Takes;
    AllWait(t, k);
    var j :| 0 <= j < |Waiting(t, k)[1..]| && Waiting(t, k)[1..][j] == d;
    assert Waiting(t, k)[j + 1] == d && d != c;
    assert d in Waiting(t, k);
    TakesSame(t, c, k, kind, d);
  }

  /** One pass over a list or a sorted set: the clients of its type that it sees are answered in
      the order of the queue, each with the element at its end of what the ones before it left;
      the last of these is what the key holds in the end; a moved element is at the head of its
      target, in front of what was there; and no other key changes. */
  lemma SharesAre(s: Server, k: Key, kind: Kind)
    requires Inv(s) && k in s.data && MatchesKind(s.data[k], kind) && (kind.ZsetKind? ==> s.data[k].items != [])
    ensures var cs := Filter(s.clients, Seen(s, k, kind), kind);
            Dealt(s, Serve(s, k, kind, |Waiting(s, k)|), k, kind, s.data[k].items, cs, |cs|)
  {
    hide IndexOk, CountersOk, Filter, Visited, Serve;
    var cs := Filter(s.clients, Seen(s, k, kind), kind);
    var w := Waiting(s, k);
    assert w + [] == w && cs[0..] == cs;
    assert s.replies[..|s.replies|] == s.replies;
    assert Dealt(s, s, k, kind, s.data[k].items, cs, 0);
    AllWait(s, k);
    forall c | c in w ensures Unchanged(s, s, k, kind, c) {}
    PassDeals(s, s, k, kind, s.data[k].items, cs, 0, w, []);
  }

  // ------------------------------------------------------------------- the shares by place

  /** How many of the first n clients took an element from that end. */
  function Took(s: Server, k: Key, kind: Kind, cs: seq<ClientId>, front: bool, n: nat): nat
    requires n <= |cs|
  {
    if n == 0 then 0
    else Took(s, k, kind, cs, front, n - 1) + if Takes(s, cs[n - 1], k, kind) && Front(s, cs[n - 1]) == front then 1 else 0
  }

  /** As long as nobody moves elements within the list, what is left is the middle of it. */
  lemma {:induction false} LeftIsMiddle(s: Server, k: Key, kind: Kind, items: seq<string>, cs: seq<ClientId>, n: nat)
    requires n <= |cs| && forall i | 0 <= i < n :: Left(s, k, kind, items, cs, i) != []
    requires forall i | 0 <= i < n :: Takes(s, cs[i], k, kind) || Target(s, cs[i]) != Some(k)
    ensures var f, b := Took(s, k, kind, cs, true, n), Took(s, k, kind, cs, false, n);
            f + b <= |items| && Left(s, k, kind, items, cs, n) == items[f..|items| - b]
  {
    hide Takes, Front;
    if n == 0 {
      assert items[0..|items|] == items;
    } else {
      LeftIsMiddle(s, k, kind, items, cs, n - 1);
    }
  }

  /** The answer to a client that comes after f clients took from the front and b from the back. */
  function AnswerWith(s: Server, k: Key, kind: Kind, c: ClientId, items: seq<string>, f: nat, b: nat): Reply
    requires f + b < |items|
  {
    var x := if Front(s, c) then items[f] else items[|items| - 1 - b];
    if kind.ZsetKind? || Target(s, c) == None then Popped(k, x) else if Takes(s, c, k, kind) then Moved(x) else WrongType
  }

  /** The i-th client answered gets the first element that nobody before it took from the front
      or, from the back, the last one; in the end the middle of the elements is left. */
  lemma SharesByPlace(s: Server, k: Key, kind: Kind)
    requires Inv(s) && k in s.data && MatchesKind(s.data[k], kind) && s.data[k].items != []
    requires kind.ListKind? ==> forall c | c in s.clients && c in Waiting(s, k) :: s.clients[c].target != Some(k)
    ensures var t, items := Serve(s, k, kind, |Waiting(s, k)|), s.data[k].items;
            var cs := Filter(s.clients, Seen(s, k, kind), kind);
            var front, back := Took(s, k, kind, cs, true, |cs|), Took(s, k, kind, cs, false, |cs|);
            && front + back <= |items| && Holds(t, k, kind, items[front..|items| - back])
            && |t.replies| == |s.replies| + |cs| && t.replies[..|s.replies|] == s.replies
            && forall i | 0 <= i < |cs| ::
                 var f, b := Took(s, k, kind, cs, true, i), Took(s, k, kind, cs, false, i);
                 f + b < |items| && t.replies[|s.replies| + i] == (cs[i], AnswerWith(s, k, kind, cs[i], items, f, b))
  {
    hide IndexOk, CountersOk, Serve, Took, Left, Takes, Visited, Filter, Gathered, Landed, Dealt, Holds, Seen;
    SharesAre(s, k, kind);
    var t := Serve(s, k, kind, |Waiting(s, k)|);
    var cs := Filter(s.clients, Seen(s, k, kind), kind);
    forall i | 0 <= i < |cs| ensures Takes(s, cs[i], k, kind) || Target(s, cs[i]) != Some(k) {
      SeenWaits(s, k, kind, i);
    }
    DealtByPlace(s, t, k, kind, s.data[k].items, cs);
  }

  lemma DealtByPlace(s: Server, t: Server, k: Key, kind: Kind, items: seq<string>, cs: seq<ClientId>)
    requires Dealt(s, t, k, kind, items, cs, |cs|)
    requires forall i | 0 <= i < |cs| :: Takes(s, cs[i], k, kind) || Target(s, cs[i]) != Some(k)
    ensures var front, back := Took(s, k, kind, cs, true, |cs|), Took(s, k, kind, cs, false, |cs|);
            && front + back <= |items| && Holds(t, k, kind, items[front..|items| - back])
            && |t.replies| == |s.replies| + |cs| && t.replies[..|s.replies|] == s.replies
    ensures forall i | 0 <= i < |cs| ::
              var f, b := Took(s, k, kind, cs, true, i), Took(s, k, kind, cs, false, i);
              f + b < |items| && t.replies[|s.replies| + i] == (cs[i], AnswerWith(s, k, kind, cs[i], items, f, b))
  {
    hide Took, Left, Takes, Gathered, Landed, Target, Front, Holds, AnswerTo;
    LeftIsMiddle(s, k, kind, items, cs, |cs|);
    forall i | 0 <= i < |cs|
      ensures var f, b := Took(s, k, kind, cs, true, i), Took(s, k, kind, cs, false, i);
              && f + b < |items|
              && AnswerTo(s, k, kind, items, cs, i) == AnswerWith(s, k, kind, cs[i], items, f, b)
    {
      assert Left(s, k, kind, items, cs, i) != [];
      AnswerByPlace(s, k, kind, items, cs, i);
    }
  }

  lemma AnswerByPlace(s: Server, k: Key, kind: Kind, items: seq<string>, cs: seq<ClientId>, i: nat)
    requires i < |cs| && forall j | 0 <= j <= i :: Left(s, k, kind, items, cs, j) != []
    requires forall j | 0 <= j <= i :: Takes(s, cs[j], k, kind) || Target(s, cs[j]) != Some(k)
    ensures var f, b := Took(s, k, kind, cs, true, i), Took(s, k, kind, cs, false, i);
            && f + b < |items|
            && AnswerTo(s, k, kind, items, cs, i) == AnswerWith(s, k, kind, cs[i], items, f, b)
  {
    hide Took, Left, Takes, Target, Front;
    LeftIsMiddle(s, k, kind, items, cs, i);
    assert Left(s, k, kind, items, cs, i) != [];
  }

  lemma SeenWaits(s: Server, k: Key, kind: Kind, i: nat)
    requires Inv(s) && i < |Filter(s.clients, Seen(s, k, kind), kind)|
    requires kind.ListKind? ==> forall c | c in s.clients && c in Waiting(s, k) :: s.clients[c].target != Some(k)
    requires kind.ListKind? || kind.ZsetKind?
    ensures var c := Filter(s.clients, Seen(s, k, kind), kind)[i];
            Takes(s, c, k, kind) || Target(s, c) != Some(k)
  {
    hide IndexOk, CountersOk, Visited, Filter;
    var cs := Filter(s.clients, Seen(s, k, kind), kind);
    AllWait(s, k);
    FilterNoDup(s.clients, Seen(s, k, kind), kind);
    assert cs[i] in cs;
    var j :| 0 <= j < |Seen(s, k, kind)| && Seen(s, k, kind)[j] == cs[i];
    assert Waiting(s, k)[j] == cs[i];
  }

  // ---------------------------------------------------------------------------- only BLPOP

  /** Everybody waits in BLPOP. */
  ghost predicate AllPop(s: Server, k: Key) {
    forall c | c in Waiting(s, k) :: HasKind(s, c, ListKind) && s.clients[c].target == None && s.clients[c].first
  }

  function Min(a: nat, b: nat): nat {
    if a < b then a else b
  }

  lemma {:induction false} VisitedTakers(s: Server, k: Key, q: seq<ClientId>, kind: Kind, items: nat)
    requires forall i | 0 <= i < |q| :: HasKind(s, q[i], kind) && Takes(s, q[i], k, kind)
    ensures Visited(s, k, q, kind, items) == Min(|q|, items)
    decreases |q|
  {
    hide Takes, HasKind;
    if q != [] && items > 0 {
      VisitedTakers(s, k, q[1..], kind, items - 1);
    }
  }

  lemma {:induction false} LeftByPops(s: Server, k: Key, items: seq<string>, cs: seq<ClientId>, n: nat)
    requires n <= |cs| && n <= |items|
    requires forall i | 0 <= i < |cs| :: Takes(s, cs[i], k, ListKind) && Front(s, cs[i])
    ensures Left(s, k, ListKind, items, cs, n) == items[n..]
  {
    hide Takes, Front;
    if n > 0 {
      LeftByPops(s, k, items, cs, n - 1);
    }
  }

  lemma {:induction false} NothingGathered(s: Server, k: Key, items: seq<string>, cs: seq<ClientId>, d: Key, n: nat)
    requires n <= |cs| && forall i | 0 <= i < |cs| :: Target(s, cs[i]) == None
    ensures Gathered(s, k, ListKind, items, cs, d, n) == []
  {
    if n > 0 {
      NothingGathered(s, k, items, cs, d, n - 1);
    }
  }

  /** Clients that wait in BLPOP get the elements in their order, one each, as far as they go;
      the rest of the list stays, and so does everything else. */
  lemma PopsGetElements(s: Server, k: Key)
    requires Inv(s) && k in s.data && s.data[k].List? && AllPop(s, k)
    ensures var t, w, items := HandleKey(s, k), Waiting(s, k), s.data[k].items;
            var m := Min(|w|, |items|);
            && |t.replies| == |s.replies| + m && t.replies[..|s.replies|] == s.replies
            && (forall i | 0 <= i < m :: t.replies[|s.replies| + i] == (w[i], Popped(k, items[i])))
            && t.data == (if m == |items| then s.data - {k} else s.data[k := List(items[m..])])
            && Waiting(t, k) == w[m..]
  {
    hide IndexOk, CountersOk, Serve, HandleKey, Takes, Visited, Filter, Others, Left, Gathered, Dealt, Who;
    var s1 := s.(readySet := s.readySet - {k});
    HandleIsServe(s, k);
    var w, items := Waiting(s, k), s.data[k].items;
    var m := Min(|w|, |items|);
    forall i | 0 <= i < |w| ensures w[i] in s.clients && s.clients[w[i]].kind == Some(ListKind)
                                    && Takes(s1, w[i], k, ListKind) && Front(s1, w[i]) && Target(s1, w[i]) == None {
      assert w[i] in w;
      PopTakes(s1, w[i], k);
    }
    VisitedTakers(s1, k, w, ListKind, |items|);
    AllOfKind(s1.clients, w[..m], ListKind, ListKind);
    SharesAre(s1, k, ListKind);
    assert w + [] == w;
    PassIs(s1, k, ListKind, w, []);
    var t := Serve(s1, k, ListKind, |w|);
    assert Seen(s1, k, ListKind) == w[..m];
    PopsDealt(s1, t, k, items, w[..m]);
    assert w[m..] + [] + [] == w[m..];
    assert CleanUp(t, k).data == if m == |items| then s.data - {k} else s.data[k := List(items[m..])];
  }

  lemma PopTakes(s: Server, c: ClientId, k: Key)
    requires c in s.clients && s.clients[c].target == None
    ensures Takes(s, c, k, ListKind)
  {
  }

  lemma PopsDealt(s: Server, t: Server, k: Key, items: seq<string>, cs: seq<ClientId>)
    requires k in s.data && s.data[k] == List(items) && |cs| <= |items| && Dealt(s, t, k, ListKind, items, cs, |cs|)
    requires forall i | 0 <= i < |cs| :: Takes(s, cs[i], k, ListKind) && Front(s, cs[i]) && Target(s, cs[i]) == None
    ensures |t.replies| == |s.replies| + |cs| && t.replies[..|s.replies|] == s.replies
    ensures forall i | 0 <= i < |cs| :: t.replies[|s.replies| + i] == (cs[i], Popped(k, items[i]))
    ensures t.data == s.data[k := List(items[|cs|..])]
  {
    hide Takes, Left, Gathered;
    forall i | 0 <= i <= |cs| ensures Left(s, k, ListKind, items, cs, i) == items[i..] {
      LeftByPops(s, k, items, cs, i);
    }
    forall d | d != k ensures At(t, d) == At(s, d) {
      NothingGathered(s, k, items, cs, d, |cs|);
    }
    SameData(s, t, k, List(items[|cs|..]));
  }

  lemma SameData(s: Server, t: Server, k: Key, v: Value)
    requires At(t, k) == Some(v) && forall d | d != k :: At(t, d) == At(s, d)
    ensures t.data == s.data[k := v]
  {
    forall d ensures (d in t.data <==> d in s.data[k := v]) && (d in t.data ==> t.data[d] == s.data[k := v][d]) {
      assert d != k ==> At(t, d) == At(s, d);
    }
  }

  // ------------------------------------------------------------------------------- streams

  /** Every reply of a pass over a stream tells the client what came after the ID it had read. */
  lemma {:induction false} StreamShares(s: Server, k: Key, q: seq<ClientId>)
    requires Inv(s) && k in s.data && s.data[k].Stream?
    requires NoDup(q) && forall i | 0 <= i < |q| :: WaitsFor(s.clients, q[i], k)
    ensures var t := ServeStream(s, k, q);
            && t.data == s.data && |s.replies| <= |t.replies| && t.replies[..|s.replies|] == s.replies
            && forall j | |s.replies| <= j < |t.replies| ::
                 var (c, reply) := t.replies[j];
                 c in q && reply == Entries(k, s.clients[c].keys[k], s.data[k].last)
    decreases |q|
  {
    hide IndexOk, CountersOk, WithoutClient;
    if q != [] {
      var c, last := q[0], s.data[k].last;
      if s.clients[c].kind == Some(StreamKind) && s.clients[c].keys[k] < last {
        BlockedCounts(s, c);
        UnblockKeeps(s, c);
        UnblockOthers(s, c);
        var s1 := Answer(Unblock(s, c), c, Entries(k, s.clients[c].keys[k], last));
        StreamShares(s1, k, q[1..]);
        var t := ServeStream(s, k, q);
        assert s1.replies[..|s.replies|] == s.replies;
        forall j | |s.replies| <= j < |t.replies|
          ensures t.replies[j].0 in q && t.replies[j].1 == Entries(k, s.clients[t.replies[j].0].keys[k], last)
        {
          if j == |s.replies| {
            assert t.replies[j] == t.replies[..|s1.replies|][j] == s1.replies[j];
          } else {
            assert t.replies[j].0 in q[1..] && t.replies[j].0 != c;
          }
        }
      } else {
        StreamShares(s, k, q[1..]);
      }
    }
  }
}
