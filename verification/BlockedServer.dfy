/** The blocking machinery as the server runs it: tables and lists changed in place. */
module BlockedServer {
  import opened Wrappers
  import opened Blocked
  import opened BlockedServe

  lemma StillThere(s: Server, c: ClientId, k: Key, id: nat)
    requires c in s.clients
    ensures c in BlockOn(s, c, k, id).clients
  {
  }

  /** The index while a client is leaving it: it is still in the lists of the keys left. */
  ghost function Leaving(clients: Clients, waiting: Index, c: ClientId, left: set<Key>): Index {
    map k | k in waiting && (k in left || !WaitsFor(clients, c, k) || Drop(waiting[k], c) != [])
      :: if k in left || !WaitsFor(clients, c, k) then waiting[k] else Drop(waiting[k], c)
  }

  lemma LeavingEnds(s: Server, c: ClientId)
    requires Inv(s) && c in s.clients
    ensures Leaving(s.clients, s.waiting, c, s.clients[c].keys.Keys) == s.waiting
    ensures Leaving(s.clients, s.waiting, c, {}) == WithoutClient(s.clients, s.waiting, c)
  {
  }

  lemma LeavingStep(s: Server, c: ClientId, left: set<Key>, k: Key)
    requires Inv(s) && c in s.clients && left <= s.clients[c].keys.Keys && k in left
    ensures var w := Leaving(s.clients, s.waiting, c, left);
            && k in w && w[k] == s.waiting[k]
            && Leaving(s.clients, s.waiting, c, left - {k})
            == if Drop(w[k], c) == [] then w - {k} else w[k := Drop(w[k], c)]
  {
    hide CountersOk, NoDup, Leaving, Drop;
    assert WaitsFor(s.clients, c, k);
    var w := Leaving(s.clients, s.waiting, c, left);
    var a := Leaving(s.clients, s.waiting, c, left - {k});
    LeavingAt(s.clients, s.waiting, c, left, k);
    var b := if Drop(w[k], c) == [] then w - {k} else w[k := Drop(w[k], c)];
    forall j ensures (j in a <==> j in b) && (j in a ==> a[j] == b[j]) {
      LeavingAt(s.clients, s.waiting, c, left, j);
      LeavingAt(s.clients, s.waiting, c, left - {k}, j);
    }
    assert a == b;
  }

  lemma LeavingAt(clients: Clients, waiting: Index, c: ClientId, left: set<Key>, j: Key)
    ensures var w := Leaving(clients, waiting, c, left);
            && (j in w <==> j in waiting && (j in left || !WaitsFor(clients, c, j) || Drop(waiting[j], c) != []))
            && (j in w ==> w[j] == if j in left || !WaitsFor(clients, c, j) then waiting[j] else Drop(waiting[j], c))
  {
    hide Drop, WaitsFor;
  }

  ghost function AfterTurn(s: Server, c: ClientId, k: Key): Server
    requires Inv(s) && k in s.data && s.data[k].Stream? && WaitsFor(s.clients, c, k)
  {
    var last := s.data[k].last;
    if s.clients[c].kind == Some(StreamKind) && s.clients[c].keys[k] < last then
      BlockedCounts(s, c);
      Answer(Unblock(s, c), c, Entries(k, s.clients[c].keys[k], last))
    else s
  }

  /** One round of the pass over a stream's clients. */
  lemma StreamTurn(s: Server, k: Key, left: seq<ClientId>)
    requires Inv(s) && k in s.data && s.data[k].Stream? && left != []
    requires NoDup(left) && forall i | 0 <= i < |left| :: WaitsFor(s.clients, left[i], k)
    ensures var r := AfterTurn(s, left[0], k);
            && Inv(r) && r.data == s.data
            && (forall i | 0 <= i < |left[1..]| :: WaitsFor(r.clients, left[1..][i], k))
            && NoDup(left[1..])
            && ServeStream(s, k, left) == ServeStream(r, k, left[1..])
  {
    hide IndexOk, CountersOk, WithoutClient;
    var c := left[0];
    if s.clients[c].kind == Some(StreamKind) && s.clients[c].keys[k] < s.data[k].last {
      BlockedCounts(s, c);
      UnblockKeeps(s, c);
      UnblockOthers(s, c);
    }
  }

  class BlockedServer {
    var clients: Clients
    var waiting: Index
    var ready: seq<Key>
    var readySet: set<Key>
    var data: map<Key, Value>
    var blocked: nat
    var byKind: map<Kind, nat>
    var unblocked: seq<ClientId>
    var replies: seq<(ClientId, Reply)>

    ghost function View(): Server
      reads this
    {
      Server(clients, waiting, ready, readySet, data, blocked, byKind, unblocked, replies)
    }

    constructor (ids: set<ClientId>)
      ensures View() == Server(map c | c in ids :: IDLE, map[], [], {}, map[], 0,
                               map[ListKind := 0, ZsetKind := 0, StreamKind := 0], [], [])
    {
      clients, waiting, ready, readySet := map c | c in ids :: IDLE, map[], [], {};
      data, blocked, byKind := map[], 0, map[ListKind := 0, ZsetKind := 0, StreamKind := 0];
      unblocked, replies := [], [];
    }

    /** One round of the loop below. */
    method BlockForKey(c: ClientId, k: Key, id: nat)
      requires c in clients
      modifies this`clients, this`waiting
      ensures View() == BlockOn(old(View()), c, k, id)
    {
      if k in clients[c].keys {
        return;
      }
      ghost var s := View();
      clients := clients[c := clients[c].(keys := clients[c].keys[k := id])];
      if k !in waiting {
        waiting := waiting[k := []];
      }
      waiting := waiting[k := waiting[k] + [c]];
      assert waiting == s.waiting[k := Waiting(s, k) + [c]];
    }

    /** blockForKeys. */
    method BlockForKeys(c: ClientId, kind: Kind, keys: seq<Key>, ids: seq<nat>, target: Option<Key>, first: bool)
      requires c in clients && |ids| == |keys| && kind in byKind
      modifies this
      ensures View() == Block(old(View()), c, kind, keys, ids, target, first)
    {
      hide BlockOn;
      var j := 0;
      ghost var s0 := View();
      assert keys[0..] == keys && ids[0..] == ids;
      while j < |keys|
        invariant j <= |keys| && c in clients && blocked == s0.blocked && byKind == s0.byKind
        invariant BlockOnAll(View(), c, keys[j..], ids[j..]) == BlockOnAll(s0, c, keys, ids)
      {
        assert c in BlockOn(View(), c, keys[j], ids[j]).clients by { StillThere(View(), c, keys[j], ids[j]); }
        assert keys[j..][1..] == keys[j + 1..] && ids[j..][1..] == ids[j + 1..];
        BlockForKey(c, keys[j], ids[j]);
        j := j + 1;
      }
      clients := clients[c := clients[c].(kind := Some(kind), target := target, first := first)];
      blocked := blocked + 1;
      byKind := byKind[kind := byKind[kind] + 1];
    }

    /** unblockClientWaitingData: the client leaves the list of each of its keys, and a list
        it leaves empty is dropped. */
    method UnblockWaitingData(c: ClientId)
      requires Inv(View()) && c in clients
      modifies this`clients, this`waiting
      ensures clients == old(clients)[c := old(clients[c]).(keys := map[], target := None)]
      ensures waiting == WithoutClient(old(clients), old(waiting), c)
    {
      hide IndexOk, CountersOk, Leaving, WithoutClient;
      var left := clients[c].keys.Keys;
      LeavingEnds(View(), c);
      while left != {}
        invariant clients == old(clients) && left <= old(clients[c]).keys.Keys
        invariant waiting == Leaving(clients, old(waiting), c, left)
        decreases |left|
      {
        var k :| k in left;
        LeavingStep(old(View()), c, left, k);
        var q := Drop(waiting[k], c);
        if q == [] {
          waiting := waiting - {k};
        } else {
          waiting := waiting[k := q];
        }
        left := left - {k};
      }
      clients := clients[c := clients[c].(keys := map[], target := None)];
    }

    /** unblockClient. */
    method UnblockClient(c: ClientId)
      requires Inv(View()) && CanUnblock(View(), c)
      modifies this
      ensures View() == Unblock(old(View()), c)
    {
      hide IndexOk, CountersOk, WithoutClient;
      var kind := clients[c].kind.value;
      UnblockWaitingData(c);
      blocked := blocked - 1;
      byKind := byKind[kind := byKind[kind] - 1];
      ghost var last := old(clients[c]).(keys := map[], target := None, kind := None);
      clients := clients[c := clients[c].(kind := None)];
      assert clients == old(clients)[c := last];
      if c !in unblocked {
        unblocked := unblocked + [c];
      }
    }

    /** signalKeyAsReady: a key nobody waits for, or one queued before, is not queued. */
    method SignalKeyAsReady(k: Key)
      modifies this`ready, this`readySet
      ensures View() == Signal(old(View()), k)
    {
      if k !in waiting || k in readySet {
        return;
      }
      ready := ready + [k];
      readySet := readySet + {k};
    }

    method ReplyTo(c: ClientId, r: Reply)
      modifies this`replies
      ensures View() == Answer(old(View()), c, r)
    {
      replies := replies + [(c, r)];
    }

    /** One list client, with serveClientBlockedOnList. */
    method ServeOneList(c: ClientId, k: Key)
      requires Inv(View()) && CanUnblock(View(), c) && k in data && data[k].List? && data[k].items != []
      modifies this
      ensures View() == ServeListClient(old(View()), c, k)
    {
      hide Unblock, IndexOk, CountersOk, Signal, Rest, End, PutBack;
      var dst, first := clients[c].target, clients[c].first;
      var x, rest := End(data[k].items, first), Rest(data[k].items, first);
      ghost var client := clients[c];
      data := data[k := List(rest)];
      UnblockFrame(View(), c);
      UnblockClient(c);
      if dst.None? {
        ReplyTo(c, Popped(k, x));
      } else if dst.value !in data {
        ghost var s1 := View();
        data := data[dst.value := List([])];
        SignalKeyAsReady(dst.value);
        SignalFrame(s1.(data := s1.data[dst.value := List([])]), dst.value);
        data := data[dst.value := List([x])];
        ReplyTo(c, Moved(x));
      } else if data[dst.value].List? {
        data := data[dst.value := List([x] + data[dst.value].items)];
        ReplyTo(c, Moved(x));
      } else {
        ReplyTo(c, WrongType);
        data := data[k := List(PutBack(rest, x, first))];
      }
    }

    method ServeOneZset(c: ClientId, k: Key)
      requires Inv(View()) && CanUnblock(View(), c) && k in data && data[k].Zset? && data[k].items != []
      modifies this
      ensures View() == ServeZsetClient(old(View()), c, k)
    {
      hide Unblock, IndexOk, CountersOk, Rest, End;
      var first := clients[c].first;
      UnblockFrame(View(), c);
      UnblockClient(c);
      var x, rest := End(data[k].items, first), Rest(data[k].items, first);
      if rest == [] {
        data := data - {k};
      } else {
        data := data[k := Zset(rest)];
      }
      ReplyTo(c, Popped(k, x));
    }

    /** serveClientsBlockedOnListKey: the head of the list is there on every round, although
        serving may unlink clients and drop the list. */
    method ServeListKey(k: Key)
      requires Inv(View()) && k in data && data[k].List?
      modifies this
      ensures View() == CleanUp(Serve(old(View()), k, ListKind, |Waiting(old(View()), k)|), k)
    {
      hide IndexOk, CountersOk, ServeListClient, Rotate;
      if k in waiting {
        var numclients: nat := |waiting[k]|;
        while numclients > 0
          invariant Inv(View()) && numclients <= |Waiting(View(), k)| && k in data && data[k].List?
          invariant Serve(View(), k, ListKind, numclients) == Serve(old(View()), k, ListKind, |Waiting(old(View()), k)|)
          decreases numclients
        {
          FirstWaits(View(), k);
          var c := waiting[k][0];
          ghost var s := View();
          if clients[c].kind != Some(ListKind) {
            RotateKeeps(s, k);
            MoveToTail(k);
          } else if data[k].items == [] {
            break;
          } else {
            ServeOneKeeps(s, c, k, ListKind);
            ServeListFrame(s, c, k);
            ServeOneList(c, k);
          }
          numclients := numclients - 1;
        }
      }
      if data[k].items == [] {
        data := data - {k};
      }
    }

    method MoveToTail(k: Key)
      requires k in waiting && waiting[k] != []
      modifies this`waiting
      ensures View() == Rotate(old(View()), k)
    {
      waiting := waiting[k := waiting[k][1..] + [waiting[k][0]]];
    }

    /** serveClientsBlockedOnSortedSetKey. */
    method ServeZsetKey(k: Key)
      requires Inv(View()) && k in data && data[k].Zset?
      modifies this
      ensures View() == Serve(old(View()), k, ZsetKind, |Waiting(old(View()), k)|)
    {
      hide IndexOk, CountersOk, ServeZsetClient, Rotate;
      if k in waiting {
        var numclients: nat, zcard: nat := |waiting[k]|, |data[k].items|;
        while numclients > 0 && zcard > 0
          invariant Inv(View()) && numclients <= |Waiting(View(), k)| && (k in data ==> data[k].Zset?)
          invariant zcard == if k in data then |data[k].items| else 0
          invariant Serve(View(), k, ZsetKind, numclients) == Serve(old(View()), k, ZsetKind, |Waiting(old(View()), k)|)
          decreases numclients
        {
          FirstWaits(View(), k);
          var c := waiting[k][0];
          ghost var s := View();
          if clients[c].kind != Some(ZsetKind) {
            RotateKeeps(s, k);
            MoveToTail(k);
            assert data == s.data by { RotateData(s, k); }
          } else {
            ServeOneKeeps(s, c, k, ZsetKind);
            ServeZsetFrame(s, c, k);
            ServeOneZset(c, k);
            zcard := zcard - 1;
            ZsetSize(s, c, k);
          }
          numclients := numclients - 1;
        }
      }
    }

    /** One stream client: it is answered if it has not seen the last entry. */
    method AnswerStreamClient(c: ClientId, k: Key)
      requires Inv(View()) && k in data && data[k].Stream? && WaitsFor(clients, c, k)
      modifies this
      ensures View() == AfterTurn(old(View()), c, k)
    {
      hide IndexOk, CountersOk, WithoutClient;
      var last := data[k].last;
      if clients[c].kind == Some(StreamKind) && clients[c].keys[k] < last {
        BlockedCounts(View(), c);
        var gt := clients[c].keys[k];
        UnblockClient(c);
        ReplyTo(c, Entries(k, gt, last));
      }
    }

    /** serveClientsBlockedOnStreamKey: the iterator holds the node after the current one, and
        only the current client leaves the list. */
    method ServeStreamKey(k: Key)
      requires Inv(View()) && k in data && data[k].Stream?
      modifies this
      ensures View() == ServeKey(old(View()), k)
    {
      hide IndexOk, CountersOk, AfterTurn, NoDup;
      AllWait(View(), k);
      ghost var s0 := View();
      var q := if k in waiting then waiting[k] else [];
      var i := 0;
      assert q[0..] == q;
      while i < |q|
        invariant i <= |q| && NoDup(q[i..]) && Inv(View()) && data == s0.data
        invariant forall j | 0 <= j < |q[i..]| :: WaitsFor(clients, q[i..][j], k)
        invariant ServeStream(View(), k, q[i..]) == ServeStream(s0, k, q)
      {
        ghost var s := View();
        assert q[i..][0] == q[i] && q[i..][1..] == q[i + 1..];
        StreamTurn(s, k, q[i..]);
        AnswerStreamClient(q[i], k);
        i := i + 1;
      }
    }

    /** serveClientsBlockedOnKeyByModule without module clients. */
    method ServeModules(k: Key)
      modifies this`waiting
      ensures View() == old(View())
    {
      FullTurn(View(), k);
      if k in waiting {
        var numclients: nat := |waiting[k]|;
        while numclients > 0
          invariant k in waiting && numclients <= |waiting[k]|
          invariant ModulePass(View(), k, numclients) == ModulePass(old(View()), k, |Waiting(old(View()), k)|)
          decreases numclients
        {
          MoveToTail(k);
          numclients := numclients - 1;
        }
      }
    }

    /** handleClientsBlockedOnKeys: it ends with nothing queued, and nobody is left whom a
        key could serve if every such key was queued before. */
    method HandleClientsBlockedOnKeys()
      requires Sound(View(), [])
      modifies this
      ensures View() == Handle(old(View())) && ready == []
      ensures forall stale | old(AllOk(View(), [], stale)) :: forall k | k !in stale :: !Hungry(View(), k)
    {
      hide Sound, HandleRound, Hungry;
      while ready != []
        invariant Sound(View(), []) && Handle(View()) == Handle(old(View()))
        decreases blocked, |ready|
      {
        TakeOverSound(View());
        var l := ready;
        ready := [];
        HandleKeys(l);
      }
      forall stale | old(AllOk(View(), [], stale)) ensures forall k | k !in stale :: !Hungry(View(), k) {
        HandleOk(old(View()), stale);
      }
    }

    method HandleKeys(keys: seq<Key>)
      requires Sound(View(), keys)
      modifies this
      ensures View() == HandleRound(old(View()), keys)
    {
      hide Sound, HandleKey;
      var l := keys;
      while l != []
        invariant Sound(View(), l) && HandleRound(View(), l) == HandleRound(old(View()), keys)
        decreases |l|
      {
        InvOf(View(), l);
        HandleKeySound(View(), l);
        HandleOneKey(l[0]);
        l := l[1..];
      }
    }

    method HandleOneKey(k: Key)
      requires Inv(View())
      modifies this
      ensures View() == HandleKey(old(View()), k)
    {
      hide IndexOk, CountersOk, ReadyOk, Hungry, Serve, ServeStream, CleanUp;
      readySet := readySet - {k};
      ghost var s1 := View();
      if k in data {
        match data[k] {
          case List(_) => ServeListKey(k);
          case Zset(_) => ServeZsetKey(k);
          case Stream(_, _) => ServeStreamKey(k);
          case Other =>
        }
        assert View() == ServeKey(s1, k);
        FullTurn(View(), k);
        ServeModules(k);
      }
    }
  }

  lemma UnblockFrame(s: Server, c: ClientId)
    requires CanUnblock(s, c)
    ensures Unblock(s, c).data == s.data && Unblock(s, c).ready == s.ready && Unblock(s, c).readySet == s.readySet
  {
  }

  lemma SignalFrame(s: Server, k: Key)
    ensures Signal(s, k).data == s.data
  {
  }

  lemma RotateData(s: Server, k: Key)
    requires k in s.waiting && s.waiting[k] != []
    ensures Rotate(s, k).data == s.data
  {
  }

  lemma ZsetSize(s: Server, c: ClientId, k: Key)
    requires CanUnblock(s, c) && k in s.data && s.data[k].Zset? && s.data[k].items != []
    ensures var d := ServeZsetClient(s, c, k).data;
            |s.data[k].items| - 1 == if k in d && d[k].Zset? then |d[k].items| else 0
  {
  }
}
