/** What the commands that take part in blocking do themselves, and what a client that blocks
    gets from the next push. */
module BlockedCommands {
  import opened Wrappers
  import opened Blocked
  import opened BlockedServe
  import opened BlockedFair
  import opened BlockedRun
  import opened BlockedOrder
  import opened BlockedShares

  function Reversed(xs: seq<string>): (r: seq<string>)
    ensures |r| == |xs| && forall i | 0 <= i < |xs| :: r[i] == xs[|xs| - 1 - i]
  {
    seq(|xs|, i requires 0 <= i < |xs| => xs[|xs| - 1 - i])
  }

  /** RPUSH appends the values in their order, LPUSH puts each in front of the one before. */
  lemma {:induction false} PushedIs(items: seq<string>, values: seq<string>, head: bool)
    ensures Pushed(items, values, head) == if head then Reversed(values) + items else items + values
    decreases |values|
  {
    if values == [] {
      assert Reversed([]) == [];
    } else {
      PushedIs(PutBack(items, values[0], head), values[1..], head);
      if head {
        assert Reversed(values) == Reversed(values[1..]) + [values[0]];
      } else {
        assert items + [values[0]] + values[1..] == items + values;
      }
    }
  }

  /** A push onto a key that holds no other type: the values are there, nothing else changes,
      and a key that was created is ready if anybody waits for it. */
  lemma PushExactly(s: Server, k: Key, values: seq<string>, head: bool)
    requires Inv(s) && values != [] && (k in s.data ==> s.data[k].List?)
    ensures var r := Execute(s, Push(k, values, head));
            var items := if k in s.data then s.data[k].items else [];
            && r == s.(data := r.data, ready := r.ready, readySet := r.readySet)
            && r.data == s.data[k := List(if head then Reversed(values) + items else items + values)]
            && (if k !in s.data && k in s.waiting && k !in s.readySet
                then r.ready == s.ready + [k] && r.readySet == s.readySet + {k}
                else r.ready == s.ready && r.readySet == s.readySet)
  {
    hide Inv, Pushed;
    var items := if k in s.data then s.data[k].items else [];
    PushedIs(items, values, head);
    assert s.data[k := List([])][k := List(Pushed(items, values, head))] == s.data[k := List(Pushed(items, values, head))];
  }

  /** The key is not there, or empty and of the right type. */
  predicate Undecided(s: Server, kind: Kind, k: Key) {
    k !in s.data || (MatchesKind(s.data[k], kind) && s.data[k].items == [])
  }

  /** The keys are tried in their order. */
  lemma {:induction false} FirstDecides(s: Server, kind: Kind, keys: seq<Key>, i: nat)
    requires i < |keys| && !Undecided(s, kind, keys[i]) && forall j | 0 <= j < i :: Undecided(s, kind, keys[j])
    ensures Deciding(s, kind, keys) == Some(keys[i])
    decreases |keys|
  {
    if i > 0 {
      assert Undecided(s, kind, keys[0]);
      FirstDecides(s, kind, keys[1..], i - 1);
    }
  }

  lemma {:induction false} NoneDecides(s: Server, kind: Kind, keys: seq<Key>)
    requires forall j | 0 <= j < |keys| :: Undecided(s, kind, keys[j])
    ensures Deciding(s, kind, keys) == None
    decreases |keys|
  {
    if keys != [] {
      assert Undecided(s, kind, keys[0]);
      NoneDecides(s, kind, keys[1..]);
    }
  }

  /** A blocking pop takes the element at its end of the first key that is not empty; a key
      of another type before it is an error. */
  lemma PopExactly(s: Server, c: ClientId, kind: Kind, keys: seq<Key>, first: bool, i: nat)
    requires Inv(s) && Idle(s, c) && !kind.StreamKind?
    requires i < |keys| && !Undecided(s, kind, keys[i]) && forall j | 0 <= j < i :: Undecided(s, kind, keys[j])
    ensures var k, r := keys[i], Execute(s, BlockingPop(c, kind, keys, first));
            if !MatchesKind(s.data[k], kind) then r == s.(replies := s.replies + [(c, WrongType)])
            else
              var items := s.data[k].items;
              var x := if first then items[0] else items[|items| - 1];
              var left := if first then items[1..] else items[..|items| - 1];
              && r == s.(data := r.data, replies := s.replies + [(c, Popped(k, x))])
              && r.data == if left == [] then s.data - {k} else s.data[k := if kind.ListKind? then List(left) else Zset(left)]
  {
    hide IndexOk, CountersOk, Deciding;
    HasCounters(s);
    FirstDecides(s, kind, keys, i);
  }

  /** If there is none the client waits, at the tail of the list of every key it named. */
  lemma PopWaits(s: Server, c: ClientId, kind: Kind, keys: seq<Key>, first: bool)
    requires Inv(s) && Idle(s, c) && !kind.StreamKind? && keys != []
    requires forall j | 0 <= j < |keys| :: Undecided(s, kind, keys[j])
    ensures var r := Execute(s, BlockingPop(c, kind, keys, first));
            && r == s.(clients := r.clients, waiting := r.waiting, blocked := s.blocked + 1, byKind := r.byKind)
            && c in r.clients && r.clients == s.clients[c := r.clients[c]]
            && r.clients[c].kind == Some(kind) && r.clients[c].target == None && r.clients[c].first == first
            && (forall k :: k in r.clients[c].keys <==> k in keys)
            && (forall k :: Waiting(r, k) == Waiting(s, k) + if k in keys then [c] else [])
  {
    hide IndexOk, CountersOk, Deciding, BlockOnAll;
    HasCounters(s);
    NoneDecides(s, kind, keys);
    var ids := Zeros(|keys|);
    BlockAllKeeps(s, c, keys, ids);
    var s1 := BlockOnAll(s, c, keys, ids);
    var r := Execute(s, BlockingPop(c, kind, keys, first));
    forall k ensures Waiting(r, k) == Waiting(s, k) + if k in keys then [c] else [] {
      BlockWaiting(s, c, keys, ids, k);
      assert Waiting(s, k) + [] == Waiting(s, k);
    }
    assert r.clients == s.clients[c := r.clients[c]];
  }

  /** BRPOPLPUSH that finds its list: the last element goes to the head of the target. */
  lemma MoveExactly(s: Server, c: ClientId, src: Key, dst: Key)
    requires Inv(s) && Idle(s, c) && src in s.data && s.data[src].List? && s.data[src].items != []
    ensures var items, r := s.data[src].items, Execute(s, BlockingMove(c, src, dst));
            var x, left := items[|items| - 1], items[..|items| - 1];
            var data := if left == [] && dst != src then s.data - {src} else s.data[src := List(left)];
            if dst in s.data && !s.data[dst].List? then r == s.(replies := s.replies + [(c, WrongType)])
            else
              && r.replies == s.replies + [(c, Moved(x))]
              && r.clients == s.clients && r.waiting == s.waiting
              && r.data == data[dst := List([x] + if dst == src then left else if dst in s.data then s.data[dst].items else [])]
  {
    hide IndexOk, CountersOk;
    HasCounters(s);
    var items := s.data[src].items;
    var left := items[..|items| - 1];
    assert s.data[src := List(items)] == s.data;
    if dst !in s.data || s.data[dst].List? {
      var r := Execute(s, BlockingMove(c, src, dst));
      var x := items[|items| - 1];
      assert [x] + [] == [x];
      var data := if left == [] && dst != src then s.data - {src} else s.data[src := List(left)];
      var want := data[dst := List([x] + if dst == src then left else if dst in s.data then s.data[dst].items else [])];
      assert r.data.Keys == want.Keys;
      assert r.data == want;
    }
  }

  /** BRPOPLPUSH without a list waits for the last element of it, to be moved to the target. */
  lemma MoveWaits(s: Server, c: ClientId, src: Key, dst: Key)
    requires Inv(s) && Idle(s, c) && src !in s.data
    ensures ListKind in s.byKind
    ensures Execute(s, BlockingMove(c, src, dst))
         == s.(clients := s.clients[c := Client(Some(ListKind), map[src := 0], Some(dst), false)],
               waiting := s.waiting[src := Waiting(s, src) + [c]],
               blocked := s.blocked + 1,
               byKind := s.byKind[ListKind := s.byKind[ListKind] + 1])
  {
    hide IndexOk, CountersOk;
    HasCounters(s);
    assert [src][1..] == [];
    assert BlockOnAll(s, c, [src], [0]) == BlockOn(s, c, src, 0);
  }

  /** The replies of XREAD: for each stream with entries after the given ID, in their order. */
  function News(s: Server, c: ClientId, keys: seq<Key>, ids: seq<nat>): seq<(ClientId, Reply)>
    requires |ids| == |keys|
  {
    if keys == [] then []
    else (if keys[0] in s.data && s.data[keys[0]].Stream? && s.data[keys[0]].length > 0 && ids[0] < s.data[keys[0]].last
          then [(c, Entries(keys[0], ids[0], s.data[keys[0]].last))] else [])
         + News(s, c, keys[1..], ids[1..])
  }

  lemma {:induction false} ReadsNews(s: Server, t: Server, c: ClientId, keys: seq<Key>, ids: seq<nat>)
    requires |ids| == |keys| && t == s.(replies := t.replies)
    ensures ReadAll(t, c, keys, ids) == s.(replies := t.replies + News(s, c, keys, ids))
    decreases |keys|
  {
    if keys == [] {
      assert t.replies + [] == t.replies;
    } else {
      var one := if Fresh(s, keys[0], ids[0]) then [(c, Entries(keys[0], ids[0], s.data[keys[0]].last))] else [];
      var t1 := s.(replies := t.replies + one);
      assert t.replies + [] == t.replies;
      ReadsNews(s, t1, c, keys[1..], ids[1..]);
      assert t.replies + one + News(s, c, keys[1..], ids[1..]) == t.replies + (one + News(s, c, keys[1..], ids[1..]));
    }
  }

  lemma {:induction false} NewsIs(s: Server, c: ClientId, keys: seq<Key>, ids: seq<nat>)
    requires |ids| == |keys|
    ensures News(s, c, keys, ids) != [] <==> exists i | 0 <= i < |keys| :: Fresh(s, keys[i], ids[i])
    decreases |keys|
  {
    if keys != [] {
      NewsIs(s, c, keys[1..], ids[1..]);
      if i :| 0 <= i < |keys| && Fresh(s, keys[i], ids[i]) {
        assert i > 0 ==> Fresh(s, keys[1..][i - 1], ids[1..][i - 1]);
      }
      if News(s, c, keys[1..], ids[1..]) != [] {
        var i :| 0 <= i < |keys[1..]| && Fresh(s, keys[1..][i], ids[1..][i]);
        assert Fresh(s, keys[i + 1], ids[i + 1]);
      }
    }
  }

  /** XREAD BLOCK answers with all there is, and waits only if there is nothing: then at the tail
      of the queue of every stream, with the ID it has read of each. */
  lemma ReadExactly(s: Server, c: ClientId, keys: seq<Key>, ids: seq<nat>)
    requires Inv(s) && Idle(s, c) && keys != [] && |ids| == |keys|
    requires forall i | 0 <= i < |keys| && keys[i] in s.data :: s.data[keys[i]].Stream?
    ensures var r := Execute(s, XRead(c, keys, ids));
            if News(s, c, keys, ids) != [] then r == s.(replies := s.replies + News(s, c, keys, ids))
            else
              && r == s.(clients := r.clients, waiting := r.waiting, blocked := s.blocked + 1, byKind := r.byKind)
              && c in r.clients && r.clients[c].kind == Some(StreamKind)
              && (forall k :: k in r.clients[c].keys <==> k in keys)
              && (forall k | k in r.clients[c].keys :: exists i | 0 <= i < |keys| :: keys[i] == k && ids[i] == r.clients[c].keys[k])
              && (forall k :: Waiting(r, k) == Waiting(s, k) + if k in keys then [c] else [])
  {
    hide IndexOk, CountersOk, BlockOnAll, News, ReadAll;
    HasCounters(s);
    NewsIs(s, c, keys, ids);
    ReadsNews(s, s, c, keys, ids);
    BlockAllKeeps(s, c, keys, ids);
    var r := Execute(s, XRead(c, keys, ids));
    if News(s, c, keys, ids) == [] {
      forall k ensures Waiting(r, k) == Waiting(s, k) + if k in keys then [c] else [] {
        BlockWaiting(s, c, keys, ids, k);
        assert Waiting(s, k) + [] == Waiting(s, k);
      }
    }
  }

  /** A client that is released waits for nothing and is queued once for its next command;
      nothing happens to any other, nor to the data. */
  lemma ReleasedExactly(s: Server, c: ClientId)
    requires Inv(s) && CanUnblock(s, c) && NoDup(s.unblocked)
    ensures var r := Execute(s, GiveUp(c));
            && r == s.(clients := r.clients, waiting := r.waiting, blocked := s.blocked - 1, byKind := r.byKind, unblocked := r.unblocked)
            && r.clients == s.clients[c := s.clients[c].(kind := None, keys := map[], target := None)]
            && (forall k :: c !in Waiting(r, k))
            && NoDup(r.unblocked) && (forall d :: d in r.unblocked <==> d == c || d in s.unblocked)
  {
    hide IndexOk, CountersOk;
    UnblockKeeps(s, c);
    var r := Unblock(s, c);
    forall k ensures c !in Waiting(r, k) {
      AllWait(r, k);
      forall i | 0 <= i < |Waiting(r, k)| ensures Waiting(r, k)[i] != c {
        assert WaitsFor(r.clients, Waiting(r, k)[i], k);
      }
    }
  }

  lemma {:induction false} InsertIs(items: seq<string>, x: string, place: nat)
    ensures var p := Min(place, |items|); Insert(items, x, place) == items[..p] + [x] + items[p..]
    decreases |items|
  {
    if items != [] && place > 0 {
      InsertIs(items[1..], x, place - 1);
      var p := Min(place, |items|);
      assert [items[0]] + items[1..][..p - 1] == items[..p];
      assert items[1..][p - 1..] == items[p..];
    }
  }

  lemma {:induction false} EraseIs(items: seq<string>, x: string, j: nat)
    requires j <= |items| && x !in items[..j] && (j < |items| ==> items[j] == x)
    ensures Erase(items, x) == items[..j] + if j < |items| then items[j + 1..] else []
    decreases |items|
  {
    if j > 0 {
      assert items[0] in items[..j] && items[1..][..j - 1] == items[..j][1..];
      EraseIs(items[1..], x, j - 1);
      assert [items[0]] + items[1..][..j - 1] == items[..j];
    }
  }

  /** ZADD puts the member where its score belongs, once: at place p of the other members. */
  lemma ZAddExactly(s: Server, k: Key, x: string, place: nat, j: nat)
    requires Inv(s) && (k in s.data ==> s.data[k].Zset?)
    requires var items := if k in s.data then s.data[k].items else [];
             j <= |items| && x !in items[..j] && (j < |items| ==> items[j] == x)
    ensures var items := if k in s.data then s.data[k].items else [];
            var others := items[..j] + if j < |items| then items[j + 1..] else [];
            var p := Min(place, |others|);
            Execute(s, ZAdd(k, x, place)).data == s.data[k := Zset(others[..p] + [x] + others[p..])]
  {
    hide Inv, Insert, Erase;
    var items := if k in s.data then s.data[k].items else [];
    EraseIs(items, x, j);
    InsertIs(Erase(items, x), x, place);
    InsertIs([], x, place);
    assert s.data[k := Zset([])][k := Zset(Insert([], x, place))] == s.data[k := Zset(Insert([], x, place))];
  }

  // ---------------------------------------------------------------- a pop, and then a push

  /** The server once client c waits for an element at that end of the list k. */
  function WaitingFor(s: Server, c: ClientId, k: Key, first: bool): Server
    requires ListKind in s.byKind
  {
    s.(clients := s.clients[c := Client(Some(ListKind), map[k := 0], None, first)],
       waiting := s.waiting[k := Waiting(s, k) + [c]],
       blocked := s.blocked + 1,
       byKind := s.byKind[ListKind := s.byKind[ListKind] + 1])
  }

  /** A ready list that one client waits for: handling it serves that client. */
  lemma OneWaiter(s: Server, c: ClientId, k: Key)
    requires Inv(s) && Waiting(s, k) == [c] && HasKind(s, c, ListKind) && k in s.data && s.data[k].List? && s.data[k].items != []
    ensures CanUnblock(s, c) && HandleKey(s, k) == CleanUp(ServeListClient(s.(readySet := s.readySet - {k}), c, k), k)
  {
    hide IndexOk, CountersOk, HandleKey, ServeListClient;
    HandleIsServe(s, k);
    var s1 := s.(readySet := s.readySet - {k});
    BlockedCounts(s1, c);
    ServeOneKeeps(s1, c, k, ListKind);
    assert Serve(s1, k, ListKind, 1) == Serve(ServeOne(s1, c, k), k, ListKind, 0);
  }

  /** If one key is ready and handling it makes no other ready, that is all. */
  lemma OneReady(s: Server, k: Key)
    requires Sound(s, []) && s.ready == [k] && Inv(s) && HandleKey(s.(ready := []), k).ready == []
    ensures Handle(s) == HandleKey(s.(ready := []), k)
  {
    hide IndexOk, CountersOk, ReadyOk, HandleKey;
    TakeOverSound(s);
    var s0 := s.(ready := []);
    HandleKeySound(s0, [k]);
    assert [k][1..] == [];
    assert HandleRound(s0, [k]) == HandleKey(s0, k);
  }

  lemma NothingReady(s: Server)
    requires Sound(s, []) && s.ready == []
    ensures s.readySet == {}
  {
    hide Inv;
  }

  lemma ListStepKeepsReady(s: Server, c: ClientId, k: Key)
    requires CanUnblock(s, c) && k in s.data && s.data[k].List? && s.data[k].items != [] && s.clients[c].target == None
    ensures CleanUp(ServeListClient(s, c, k), k).ready == s.ready
    ensures CleanUp(ServeListClient(s, c, k), k).replies == ServeListClient(s, c, k).replies
    ensures CleanUp(ServeListClient(s, c, k), k).clients == s.clients[c := s.clients[c].(kind := None, keys := map[])]
  {
    hide WithoutClient;
  }

  /** In whatever state a run has reached: a client that blocks in BLPOP or BRPOP on a key nobody
      else waits for gets, from the next push onto it, the element at its end of the list that
      this push makes; the rest of that list stays, and nothing else is answered or stored. */
  lemma PopThenPush(s: Server, c: ClientId, k: Key, first: bool, values: seq<string>, head: bool)
    requires Sound(s, []) && s.ready == [] && Idle(s, c) && k !in s.data && Waiting(s, k) == [] && values != []
    ensures var r := Run(s, [BlockingPop(c, ListKind, [k], first), Push(k, values, head)]);
            var list := if head then Reversed(values) else values;
            && r.replies == s.replies + [(c, Popped(k, if first then list[0] else list[|list| - 1]))]
            && r.data == (if |list| == 1 then s.data
                          else s.data[k := List(if first then list[1..] else list[..|list| - 1])])
            && Idle(r, c)
  {
    hide Inv, ReadyOk, Execute, Step, Run, Handle, HandleKey, ServeListClient, CleanUp, Reversed;
    InvOf(s, []);
    var pop, push := BlockingPop(c, ListKind, [k], first), Push(k, values, head);
    var list := if head then Reversed(values) else values;
    PopBlocks(s, c, ListKind, k, first);
    var s1 := WaitingFor(s, c, k, first);
    QuietStep(s, pop, s1);
    InvOf(s1, []);
    NothingReady(s1);
    PushExactly(s1, k, values, head);
    assert Reversed(values) + [] == Reversed(values) && [] + values == values;
    var s2 := Execute(s1, push);
    assert s2 == s1.(data := s.data[k := List(list)], ready := [k], readySet := {k}) by { assert [] + [k] == [k]; }
    StepIs(s1, push);
    TwoRun(s, pop, push);
    PushServes(s, c, k, first, list, s2);
  }

  lemma TwoRun(s: Server, a: Command, b: Command)
    requires Sound(s, [])
    ensures Run(s, [a, b]) == Step(Step(s, a), b)
  {
    hide Sound, Step;
    assert [a, b][1..] == [b] && [b][1..] == [];
    RunNothing(Step(Step(s, a), b), []);
    assert Run(Step(s, a), [b]) == Step(Step(s, a), b);
  }

  lemma PushServes(s: Server, c: ClientId, k: Key, first: bool, list: seq<string>, s2: Server)
    requires ListKind in s.byKind && Waiting(s, k) == [] && k !in s.data && list != []
    requires s2 == WaitingFor(s, c, k, first).(data := s.data[k := List(list)], ready := [k], readySet := {k})
    requires Sound(s2, [])
    ensures var r := Handle(s2);
            && r.replies == s.replies + [(c, Popped(k, if first then list[0] else list[|list| - 1]))]
            && r.data == (if |list| == 1 then s.data
                          else s.data[k := List(if first then list[1..] else list[..|list| - 1])])
            && Idle(r, c)
  {
    hide Inv, ReadyOk, Handle, HandleKey, ServeListClient;
    InvOf(s2, []);
    var s3 := s2.(ready := []);
    InvSame(s2, s3);
    OneWaiter(s3, c, k);
    var s4 := s3.(readySet := s3.readySet - {k});
    assert CanUnblock(s4, c);
    ListStep(s4, c, k);
    ListStepKeepsReady(s4, c, k);
    OneReady(s2, k);
    var left := if first then list[1..] else list[..|list| - 1];
    assert s2.data[k := List(left)] == s.data[k := List(left)];
    assert s.data[k := List(left)] - {k} == s.data;
  }

  lemma InvSame(s: Server, r: Server)
    requires Inv(s) && r.clients == s.clients && r.waiting == s.waiting && r.blocked == s.blocked && r.byKind == s.byKind
    ensures Inv(r)
  {
  }
}
