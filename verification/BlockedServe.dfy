/** What a pass over the clients of one ready key keeps and achieves. */
module BlockedServe {
  import opened Wrappers
  import opened Blocked

  // --------------------------------------------------------------- nobody is forgotten

  /** Some client blocked on the key could be served from it right now. */
  ghost predicate Hungry(s: Server, k: Key) {
    exists c :: Servable(s, c, k)
  }

  /** Every other key that could serve someone is queued, except the stale ones: those that
      may hold elements of which nobody was told. */
  ghost predicate Covered(s: Server, k: Key, stale: set<Key>) {
    forall j | j != k && j !in stale && Hungry(s, j) :: j in s.readySet
  }

  /** No other key holds an empty list or sorted set. */
  ghost predicate Tidy(s: Server, k: Key) {
    forall j | j in s.data && j != k :: (s.data[j].List? || s.data[j].Zset?) ==> s.data[j].items != []
  }

  ghost predicate Ok(s: Server, k: Key, left: seq<Key>, stale: set<Key>) {
    Inv(s) && ReadyOk(s, left) && Covered(s, k, stale) && Tidy(s, k)
  }

  lemma SignalReady(s: Server, k: Key, left: seq<Key>)
    requires ReadyOk(s, left)
    ensures ReadyOk(Signal(s, k), left)
  {
    var r := Signal(s, k);
    if r != s {
      var a, b := s.ready + left, r.ready + left;
      assert k !in a;
      forall i, j | 0 <= i < j < |b| ensures b[i] != b[j] {
        assert b[i] == if i < |s.ready| then a[i] else if i == |s.ready| then k else a[i - 1];
        assert b[j] == if j < |s.ready| then a[j] else if j == |s.ready| then k else a[j - 1];
      }
    }
  }

  /** The ready keys after a client was served: a key is queued if its list was created. */
  lemma ServeListReady(s: Server, c: ClientId, k: Key, left: seq<Key>)
    requires CanUnblock(s, c) && k in s.data && s.data[k].List? && s.data[k].items != []
    requires ReadyOk(s, left)
    ensures ReadyOk(ServeListClient(s, c, k), left)
    ensures s.readySet <= ServeListClient(s, c, k).readySet
  {
    hide WithoutClient, Rest, End, PutBack, ReadyOk;
    var client, items := s.clients[c], s.data[k].items;
    var s1 := Unblock(s.(data := s.data[k := List(Rest(items, client.first))]), c);
    SameReady(s, s1, left);
    if client.target.Some? && client.target.value !in s1.data {
      var s2 := s1.(data := s1.data[client.target.value := List([])]);
      SameReady(s, s2, left);
      SignalReady(s2, client.target.value, left);
      SameReady(Signal(s2, client.target.value), ServeListClient(s, c, k), left);
    } else {
      SameReady(s, ServeListClient(s, c, k), left);
    }
  }

  lemma SameReady(s: Server, r: Server, left: seq<Key>)
    requires ReadyOk(s, left) && r.ready == s.ready && r.readySet == s.readySet
    ensures ReadyOk(r, left)
  {
  }

  /** After serving from a list, another key changed only if it is the target. */
  lemma ServeListData(s: Server, c: ClientId, k: Key, j: Key)
    requires CanUnblock(s, c) && k in s.data && s.data[k].List? && s.data[k].items != [] && j != k
    ensures var r := ServeListClient(s, c, k);
            || ((j in r.data <==> j in s.data) && (j in s.data ==> r.data[j] == s.data[j]))
            || (s.clients[c].target == Some(j) && j in r.data && r.data[j].List? && r.data[j].items != []
                && (j in s.data ==> s.data[j].List?)
                && (j !in s.data && j in r.waiting ==> j in r.readySet))
  {
    hide WithoutClient, Rest, End, PutBack;
  }

  lemma ServeListCovers(s: Server, c: ClientId, k: Key, j: Key, stale: set<Key>)
    requires Inv(s) && Covered(s, k, stale) && Tidy(s, k) && CanUnblock(s, c)
    requires k in s.data && s.data[k].List? && s.data[k].items != [] && j != k
    requires Inv(ServeListClient(s, c, k)) && SameIndex(ServeListClient(s, c, k), Unblock(s, c))
    requires s.readySet <= ServeListClient(s, c, k).readySet
    requires j !in stale && Hungry(ServeListClient(s, c, k), j)
    ensures j in ServeListClient(s, c, k).readySet
  {
    hide WithoutClient, Rest, End, PutBack, ServeListClient, CountersOk;
    var r := ServeListClient(s, c, k);
    var d :| Servable(r, d, j);
    ServeListData(s, c, k, j);
    assert d != c && r.clients[d] == s.clients[d];
    assert WaitsFor(r.clients, d, j);
    if j in s.data {
      assert Servable(s, d, j);
    }
  }

  lemma ServeListTidy(s: Server, c: ClientId, k: Key)
    requires CanUnblock(s, c) && k in s.data && s.data[k].List? && s.data[k].items != [] && Tidy(s, k)
    ensures Tidy(ServeListClient(s, c, k), k)
  {
    hide ServeListClient;
    var r := ServeListClient(s, c, k);
    forall j | j in r.data && j != k ensures (r.data[j].List? || r.data[j].Zset?) ==> r.data[j].items != [] {
      ServeListData(s, c, k, j);
    }
  }

  lemma ServeListOk(s: Server, c: ClientId, k: Key, left: seq<Key>, stale: set<Key>)
    requires Ok(s, k, left, stale) && CanUnblock(s, c)
    requires k in s.data && s.data[k].List? && s.data[k].items != []
    ensures Ok(ServeListClient(s, c, k), k, left, stale)
  {
    hide ServeListClient, Hungry, IndexOk, CountersOk, Unblock;
    var r := ServeListClient(s, c, k);
    UnblockKeeps(s, c);
    ServeListFrame(s, c, k);
    ServeListReady(s, c, k, left);
    ServeListTidy(s, c, k);
    forall j | j != k && j !in stale && Hungry(r, j) ensures j in r.readySet {
      ServeListCovers(s, c, k, j, stale);
    }
  }

  lemma ServeZsetOk(s: Server, c: ClientId, k: Key, left: seq<Key>, stale: set<Key>)
    requires Ok(s, k, left, stale) && CanUnblock(s, c)
    requires k in s.data && s.data[k].Zset? && s.data[k].items != []
    ensures Ok(ServeZsetClient(s, c, k), k, left, stale)
  {
    hide WithoutClient, Rest, End, IndexOk, CountersOk;
    var r := ServeZsetClient(s, c, k);
    UnblockKeeps(s, c);
    ServeZsetFrame(s, c, k);
    SameReady(s, r, left);
    forall j | j != k && j !in stale && Hungry(r, j) ensures j in r.readySet {
      var d :| Servable(r, d, j);
      assert Servable(s, d, j);
    }
  }

  lemma RotateOk(s: Server, k: Key, left: seq<Key>, stale: set<Key>)
    requires Ok(s, k, left, stale) && Waiting(s, k) != []
    ensures Ok(Rotate(s, k), k, left, stale)
  {
    hide IndexOk, CountersOk;
    RotateKeeps(s, k);
    SameReady(s, Rotate(s, k), left);
    forall j | j != k && j !in stale && Hungry(Rotate(s, k), j) ensures j in s.readySet {
      var d :| Servable(Rotate(s, k), d, j);
      assert Servable(s, d, j);
    }
  }

  ghost predicate NoneLeft(s: Server, k: Key, kind: Kind, from: nat) {
    forall i | from <= i < |Waiting(s, k)| ::
      Waiting(s, k)[i] in s.clients && s.clients[Waiting(s, k)[i]].kind != Some(kind)
  }

  ghost predicate NotEmptySet(s: Server, k: Key) {
    k in s.data && s.data[k].Zset? ==> s.data[k].items != []
  }

  /** A pass over all clients of a key keeps the invariants and leaves nobody waiting whom
      the key could still serve; it queues no key unless it unblocks a client. */
  lemma {:induction false} ServeOk(s: Server, k: Key, kind: Kind, n: nat, left: seq<Key>, stale: set<Key>)
    requires Ok(s, k, left, stale) && n <= |Waiting(s, k)| && (k in s.data ==> MatchesKind(s.data[k], kind))
    requires NoneLeft(s, k, kind, n) && NotEmptySet(s, k)
    ensures var r := Serve(s, k, kind, n);
            && NotEmptySet(r, k)
            && Ok(r, k, left, stale) && !Hungry(r, k) && r.blocked <= s.blocked
            && (r.blocked == s.blocked ==> r.ready == s.ready)
            && (k in r.data ==> MatchesKind(r.data[k], kind))
    decreases n
  {
    hide IndexOk, CountersOk, Covered, Tidy, ReadyOk, ServeOne, Unblock;
    var r := Serve(s, k, kind, n);
    if n == 0 || (kind.ZsetKind? && Drained(s, k)) {
      PassOver(s, k, kind);
    } else {
      FirstWaits(s, k);
      var c := s.waiting[k][0];
      if s.clients[c].kind != Some(kind) {
        RotateKeeps(s, k);
        RotateOk(s, k, left, stale);
        RotatedNone(s, k, kind, n);
        ServeOk(Rotate(s, k), k, kind, n - 1, left, stale);
      } else if Drained(s, k) {
        PassOver(s, k, kind);
      } else {
        ServeOneKeeps(s, c, k, kind);
        if s.data[k].List? {
          ServeListOk(s, c, k, left, stale);
        } else {
          ServeZsetOk(s, c, k, left, stale);
        }
        assert Ok(ServeOne(s, c, k), k, left, stale) && NotEmptySet(ServeOne(s, c, k), k) by { ServeOneIs(s, c, k); }
        ServedNone(s, c, k, kind, n);
        ServeOk(ServeOne(s, c, k), k, kind, n - 1, left, stale);
      }
    }
  }

  lemma ServeOneIs(s: Server, c: ClientId, k: Key)
    requires CanUnblock(s, c) && !Drained(s, k)
    ensures s.data[k].List? ==> ServeOne(s, c, k) == ServeListClient(s, c, k)
    ensures s.data[k].Zset? ==> ServeOne(s, c, k) == ServeZsetClient(s, c, k)
    ensures NotEmptySet(ServeOne(s, c, k), k)
  {
  }

  lemma PassOver(s: Server, k: Key, kind: Kind)
    requires Inv(s) && (k in s.data ==> MatchesKind(s.data[k], kind))
    requires Drained(s, k) || NoneLeft(s, k, kind, 0)
    ensures !Hungry(s, k)
  {
    forall c ensures !Servable(s, c, k) {
      assert WaitsFor(s.clients, c, k) ==> c in Waiting(s, k);
    }
  }

  lemma RotatedNone(s: Server, k: Key, kind: Kind, n: nat)
    requires 0 < n <= |Waiting(s, k)| && NoneLeft(s, k, kind, n)
    requires s.waiting[k][0] in s.clients && s.clients[s.waiting[k][0]].kind != Some(kind)
    ensures NoneLeft(Rotate(s, k), k, kind, n - 1)
  {
    var q, r := Waiting(s, k), Waiting(Rotate(s, k), k);
    forall i | n - 1 <= i < |r| ensures r[i] in s.clients && s.clients[r[i]].kind != Some(kind) {
      assert r[i] == if i < |q| - 1 then q[i + 1] else q[0];
    }
  }

  lemma ServedNone(s: Server, c: ClientId, k: Key, kind: Kind, n: nat)
    requires Inv(s) && 0 < n <= |Waiting(s, k)| && NoneLeft(s, k, kind, n) && c == s.waiting[k][0]
    requires !Drained(s, k) && MatchesKind(s.data[k], kind) && CanUnblock(s, c)
    requires Waiting(ServeOne(s, c, k), k) == Waiting(s, k)[1..]
    ensures NoneLeft(ServeOne(s, c, k), k, kind, n - 1)
  {
    hide IndexOk, CountersOk, WithoutClient;
    if s.data[k].List? {
      ServeListFrame(s, c, k);
    } else {
      ServeZsetFrame(s, c, k);
    }
    var r := ServeOne(s, c, k);
    var q := Waiting(r, k);
    forall i | n - 1 <= i < |q| ensures q[i] in r.clients && r.clients[q[i]].kind != Some(kind) {
      assert q[i] == Waiting(s, k)[i + 1];
    }
  }

  // ------------------------------------------------------------------------- streams

  /** Whoever waits for the key, is not to be visited any more and could be served. */
  ghost predicate Missed(s: Server, k: Key, left: seq<ClientId>) {
    exists c :: c !in left && Servable(s, c, k)
  }

  lemma UnblockOk(s: Server, c: ClientId, k: Key, reply: Reply, left: seq<Key>, stale: set<Key>)
    requires Ok(s, k, left, stale) && CanUnblock(s, c)
    ensures Ok(Answer(Unblock(s, c), c, reply), k, left, stale)
  {
    hide WithoutClient, IndexOk, CountersOk;
    var r := Answer(Unblock(s, c), c, reply);
    UnblockKeeps(s, c);
    SameReady(s, r, left);
    forall j | j != k && j !in stale && Hungry(r, j) ensures j in r.readySet {
      var d :| Servable(r, d, j);
      assert Servable(s, d, j);
    }
  }

  lemma {:induction false} ServeStreamOk(s: Server, k: Key, q: seq<ClientId>, left: seq<Key>, stale: set<Key>)
    requires Ok(s, k, left, stale) && k in s.data && s.data[k].Stream?
    requires NoDup(q) && forall i | 0 <= i < |q| :: WaitsFor(s.clients, q[i], k)
    requires !Missed(s, k, q)
    ensures var r := ServeStream(s, k, q);
            && Ok(r, k, left, stale) && !Hungry(r, k) && r.blocked <= s.blocked && r.ready == s.ready && r.data == s.data
    decreases |q|
  {
    hide IndexOk, CountersOk, Covered, Tidy, ReadyOk, WithoutClient;
    if q != [] {
      var c, last := q[0], s.data[k].last;
      assert forall d :: d in q <==> d == c || d in q[1..];
      if s.clients[c].kind == Some(StreamKind) && s.clients[c].keys[k] < last {
        BlockedCounts(s, c);
        var s1 := Answer(Unblock(s, c), c, Entries(k, s.clients[c].keys[k], last));
        UnblockOk(s, c, k, Entries(k, s.clients[c].keys[k], last), left, stale);
        forall d | d !in q[1..] ensures !Servable(s1, d, k) {
          assert d != c ==> d !in q && !Servable(s, d, k);
        }
        ServeStreamOk(s1, k, q[1..], left, stale);
      } else {
        ServeStreamOk(s, k, q[1..], left, stale);
      }
    }
  }

  // --------------------------------------------------------------------- the whole loop

  /** serveClientsBlockedOnKeyByModule, when no module has blocked a client: every client goes
      to the tail in turn. */
  function ModulePass(s: Server, k: Key, n: nat): Server
    requires n > 0 ==> Waiting(s, k) != []
    decreases n
  {
    if n == 0 then s else ModulePass(Rotate(s, k), k, n - 1)
  }

  lemma {:induction false} Rotated(s: Server, k: Key, a: seq<ClientId>, b: seq<ClientId>)
    requires k in s.waiting && s.waiting[k] == a + b && a + b != []
    ensures ModulePass(s, k, |a|) == s.(waiting := s.waiting[k := b + a])
    decreases |a|
  {
    if a == [] {
      assert b + a == a + b;
      assert s.waiting[k := b + a] == s.waiting;
    } else {
      var s1 := Rotate(s, k);
      assert s1.waiting[k] == a[1..] + (b + [a[0]]);
      Rotated(s1, k, a[1..], b + [a[0]]);
      assert (b + [a[0]]) + a[1..] == b + a;
      assert s1.waiting[k := b + a] == s.waiting[k := b + a];
    }
  }

  /** A full turn changes nothing. */
  lemma FullTurn(s: Server, k: Key)
    ensures ModulePass(s, k, |Waiting(s, k)|) == s
  {
    if k in s.waiting && s.waiting[k] != [] {
      var q := s.waiting[k];
      assert q + [] == q && [] + q == q;
      Rotated(s, k, q, []);
      assert s.waiting[k := q] == s.waiting;
    }
  }

  function ServeKey(s: Server, k: Key): Server
    requires Inv(s)
  {
    if k !in s.data then s
    else
      match s.data[k]
      case List(_) => CleanUp(Serve(s, k, ListKind, |Waiting(s, k)|), k)
      case Zset(_) => Serve(s, k, ZsetKind, |Waiting(s, k)|)
      case Stream(_, _) => AllWait(s, k); ServeStream(s, k, Waiting(s, k))
      case Other => s
  }

  lemma AllWait(s: Server, k: Key)
    requires Inv(s)
    ensures NoDup(Waiting(s, k))
    ensures forall i | 0 <= i < |Waiting(s, k)| :: WaitsFor(s.clients, Waiting(s, k)[i], k)
    ensures forall c | WaitsFor(s.clients, c, k) :: c in Waiting(s, k)
  {
    forall i | 0 <= i < |Waiting(s, k)| ensures WaitsFor(s.clients, Waiting(s, k)[i], k) {
      assert Waiting(s, k)[i] in s.waiting[k];
    }
  }

  function HandleKey(s: Server, k: Key): Server
    requires Inv(s)
  {
    var s1 := s.(readySet := s.readySet - {k});
    if k !in s.data then s1
    else var s2 := ServeKey(s1, k); ModulePass(s2, k, |Waiting(s2, k)|)
  }

  /** Between two keys: the index, the counters and the queue of ready keys are right, and no
      list or sorted set is empty. */
  ghost predicate Sound(s: Server, left: seq<Key>) {
    && Inv(s) && ReadyOk(s, left)
    && (forall k | k in s.data :: (s.data[k].List? || s.data[k].Zset?) ==> s.data[k].items != [])
  }

  /** And nothing is missing: only a stale key could serve someone without being queued. */
  ghost predicate AllOk(s: Server, left: seq<Key>, stale: set<Key>) {
    Sound(s, left) && forall k | k !in stale && Hungry(s, k) :: k in s.readySet
  }

  lemma SoundIsOk(s: Server, left: seq<Key>)
    requires Sound(s, left)
    ensures AllOk(s, left, s.data.Keys)
  {
  }

  lemma InvOf(s: Server, left: seq<Key>)
    requires Sound(s, left)
    ensures Inv(s)
  {
  }

  lemma TakeReady(s: Server, l: seq<Key>, stale: set<Key>)
    requires l != [] && AllOk(s, l, stale)
    ensures Ok(s.(readySet := s.readySet - {l[0]}), l[0], l[1..], stale)
  {
    hide IndexOk, CountersOk;
    var r := s.(readySet := s.readySet - {l[0]});
    var a, b := s.ready + l, s.ready + l[1..];
    forall i | 0 <= i < |b| ensures b[i] == a[if i < |s.ready| then i else i + 1] {}
    assert a[|s.ready|] == l[0];
    assert l[0] !in b;
    forall k ensures k in r.readySet <==> k in s.ready || k in l[1..] {
      assert k in l <==> k == l[0] || k in l[1..];
      assert k in b <==> k in s.ready || k in l[1..];
    }
    assert NoDup(b);
    forall j | j != l[0] && j !in stale && Hungry(r, j) ensures j in r.readySet {
      var d :| Servable(r, d, j);
      assert Servable(s, d, j);
    }
  }

  lemma CleanUpOk(s: Server, k: Key, left: seq<Key>, stale: set<Key>)
    requires Ok(s, k, left, stale) && !Hungry(s, k) && k in s.data && s.data[k].List?
    ensures AllOk(CleanUp(s, k), left, stale - {k})
  {
    hide IndexOk, CountersOk;
    var r := CleanUp(s, k);
    SameReady(s, r, left);
    forall j | j !in stale - {k} && Hungry(r, j) ensures j in r.readySet {
      var d :| Servable(r, d, j);
      assert Servable(s, d, j);
    }
  }

  lemma NothingHere(s: Server, k: Key, left: seq<Key>, stale: set<Key>)
    requires Ok(s, k, left, stale) && !Hungry(s, k)
    requires k in s.data && (s.data[k].List? || s.data[k].Zset?) ==> s.data[k].items != []
    ensures AllOk(s, left, stale - {k})
  {
  }

  /** After a key was handled nothing is missing there, whatever was before. */
  lemma ServeKeyOk(s: Server, k: Key, left: seq<Key>, stale: set<Key>)
    requires Ok(s, k, left, stale)
    requires k in s.data && (s.data[k].List? || s.data[k].Zset?) ==> s.data[k].items != []
    ensures var r := ServeKey(s, k);
            AllOk(r, left, stale - {k}) && r.blocked <= s.blocked && (r.blocked == s.blocked ==> r.ready == s.ready)
  {
    hide IndexOk, CountersOk, ReadyOk, Covered, Tidy, Serve, ServeStream, Servable;
    if k !in s.data || s.data[k].Other? {
      assert !Hungry(s, k) by { NotServable(s, k); }
      NothingHere(s, k, left, stale);
    } else if s.data[k].Stream? {
      AllWait(s, k);
      forall c | c !in Waiting(s, k) ensures !Servable(s, c, k) {
        NotWaiting(s, c, k);
      }
      ServeStreamOk(s, k, Waiting(s, k), left, stale);
      NothingHere(ServeKey(s, k), k, left, stale);
    } else {
      var kind := if s.data[k].List? then ListKind else ZsetKind;
      var r := Serve(s, k, kind, |Waiting(s, k)|);
      ServeOk(s, k, kind, |Waiting(s, k)|, left, stale);
      if kind.ListKind? && k in r.data {
        CleanUpOk(r, k, left, stale);
      } else {
        NothingHere(r, k, left, stale);
      }
    }
  }

  lemma NotServable(s: Server, k: Key)
    requires k !in s.data || s.data[k].Other?
    ensures forall c :: !Servable(s, c, k)
  {
  }

  lemma NotWaiting(s: Server, c: ClientId, k: Key)
    requires forall d | WaitsFor(s.clients, d, k) :: d in Waiting(s, k)
    requires c !in Waiting(s, k)
    ensures !Servable(s, c, k)
  {
  }

  lemma HandleKeyOk(s: Server, l: seq<Key>, stale: set<Key>)
    requires l != [] && AllOk(s, l, stale)
    ensures var r := HandleKey(s, l[0]);
            AllOk(r, l[1..], stale - {l[0]}) && r.blocked <= s.blocked && (r.blocked == s.blocked ==> r.ready == s.ready)
  {
    hide IndexOk, CountersOk, ReadyOk, ModulePass, ServeKey, Hungry;
    var s1 := s.(readySet := s.readySet - {l[0]});
    TakeReady(s, l, stale);
    ServeKeyOk(s1, l[0], l[1..], stale);
    FullTurn(ServeKey(s1, l[0]), l[0]);
    if l[0] !in s.data {
      assert ServeKey(s1, l[0]) == s1 by { ServeMissing(s1, l[0]); }
    }
  }

  lemma ServeMissing(s: Server, k: Key)
    requires Inv(s) && k !in s.data
    ensures ServeKey(s, k) == s
  {
  }

  lemma HandleKeySound(s: Server, l: seq<Key>)
    requires l != [] && Sound(s, l)
    ensures var r := HandleKey(s, l[0]);
            Sound(r, l[1..]) && r.blocked <= s.blocked && (r.blocked == s.blocked ==> r.ready == s.ready)
  {
    hide Inv, ReadyOk, HandleKey;
    SoundIsOk(s, l);
    HandleKeyOk(s, l, s.data.Keys);
  }

  /** The inner loop of handleClientsBlockedOnKeys: the keys of the list taken over. */
  function HandleRound(s: Server, l: seq<Key>): (r: Server)
    requires Sound(s, l)
    ensures Sound(r, [])
    ensures r.blocked <= s.blocked && (r.blocked == s.blocked ==> r.ready == s.ready)
    decreases |l|
  {
    if l == [] then s
    else
      HandleKeySound(s, l);
      HandleRound(HandleKey(s, l[0]), l[1..])
  }

  /** A round makes no key stale. */
  lemma {:induction false} RoundOk(s: Server, l: seq<Key>, stale: set<Key>)
    requires AllOk(s, l, stale)
    ensures AllOk(HandleRound(s, l), [], stale)
    decreases |l|
  {
    hide Sound, Hungry, HandleKey;
    if l != [] {
      InvOf(s, l);
      HandleKeyOk(s, l, stale);
      RoundOk(HandleKey(s, l[0]), l[1..], stale);
    }
  }

  lemma TakeOver(s: Server, stale: set<Key>)
    requires AllOk(s, [], stale)
    ensures AllOk(s.(ready := []), s.ready, stale)
  {
    hide IndexOk, CountersOk;
    var r := s.(ready := []);
    assert s.ready + [] == s.ready && [] + s.ready == s.ready;
    forall k | k !in stale && Hungry(r, k) ensures k in r.readySet {
      var c :| Servable(r, c, k);
      assert Servable(s, c, k);
    }
  }

  lemma TakeOverSound(s: Server)
    requires Sound(s, [])
    ensures Sound(s.(ready := []), s.ready)
  {
    hide Inv, ReadyOk;
    SoundIsOk(s, []);
    TakeOver(s, s.data.Keys);
  }

  /** handleClientsBlockedOnKeys. The loop ends although serving a client may queue keys:
      then a client less is blocked. */
  function Handle(s: Server): (r: Server)
    requires Sound(s, [])
    ensures Sound(r, []) && r.ready == [] && r.readySet == {}
    ensures r.blocked <= s.blocked
    decreases s.blocked, |s.ready|
  {
    if s.ready == [] then s
    else
      TakeOverSound(s);
      Handle(HandleRound(s.(ready := []), s.ready))
  }

  /** Afterwards no key could serve a client blocked on it, unless it was stale before. */
  lemma {:induction false} HandleOk(s: Server, stale: set<Key>)
    requires AllOk(s, [], stale)
    ensures AllOk(Handle(s), [], stale)
    ensures forall k | k !in stale :: !Hungry(Handle(s), k)
    decreases s.blocked, |s.ready|
  {
    hide Sound, Hungry, HandleRound;
    if s.ready != [] {
      TakeOverSound(s);
      TakeOver(s, stale);
      RoundOk(s.(ready := []), s.ready, stale);
      HandleOk(HandleRound(s.(ready := []), s.ready), stale);
    }
  }
}
