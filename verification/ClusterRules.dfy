/**
 What the handlers of one node promise, each said of the view before and the view after
 and nothing between: when a vote is given, when one is counted, when an election is
 won, which keys a claim deletes.
 */
module ClusterRules {
  import opened Wrappers
  import opened ClusterView
  import opened ClusterProtocol
  import opened ClusterEpochs

  function Max(a: nat, b: nat): nat {
    if a < b then b else a
  }

  /** What the header of a packet teaches: the newer of the two epochs, and of the two
      config epochs of the sender. */
  function Taught(v: View, m: Msg): View
    requires m.src in v.nodes
  {
    v.(currentEpoch := Max(v.currentEpoch, m.currentEpoch),
       nodes := v.nodes[m.src := v.nodes[m.src].(configEpoch := Max(v.nodes[m.src].configEpoch, m.configEpoch))])
  }

  lemma LearnIsTaught(v: View, m: Msg)
    requires Good(v) && m.src in v.nodes
    ensures LearnEpochs(v, m) == Taught(v, m)
  {
    hide Good;
    assert v.nodes[m.src := v.nodes[m.src]] == v.nodes;
  }

  // ------------------------------------------------------------------------- votes

  ghost predicate ServesSlots(v: View, n: NodeId) {
    exists j | j in v.slots :: v.slots[j] == n
  }

  lemma ServesIs(v: View, n: NodeId)
    ensures ServesSlots(v, n) <==> v.Bits(n) != {}
  {
    if ServesSlots(v, n) {
      var j :| j in v.slots && v.slots[j] == n;
      assert j in v.Bits(n);
    }
    if v.Bits(n) != {} {
      var j :| j in v.Bits(n);
      assert v.slots[j] == n;
    }
  }

  /** The sender replicates a known node that this node holds for failed, or that fact is
      not asked for. */
  ghost predicate MasterIsDown(v: View, m: Msg) {
    && m.src in v.nodes && v.nodes[m.src].role.Replica?
    && exists x | x in v.nodes :: v.nodes[m.src].slaveof == Some(x) && (v.nodes[x].failed || m.body == AuthRequest(true))
  }

  /** No slot of the request is held under a greater config epoch than the request's. */
  ghost predicate NoNewerOwner(v: View, m: Msg)
    requires Good(v)
  {
    forall j | j in m.claimed && j in v.slots :: v.nodes[v.slots[j]].configEpoch <= m.configEpoch
  }

  /** What the voter must have found before it learnt anything from the request. */
  ghost predicate MayVote(v: View, m: Msg, timeOk: bool)
    requires Good(v)
  {
    && m.body.AuthRequest?
    && v.nodes[v.myself].role.Master? && ServesSlots(v, v.myself)
    && v.currentEpoch <= m.currentEpoch
    && v.lastVoteEpoch != m.currentEpoch
    && MasterIsDown(v, m)
    && timeOk
    && NoNewerOwner(v, m)
  }

  /** Learning the epochs of a replica changes no owner's epoch. */
  lemma OwnersUntaught(v: View, m: Msg)
    requires Good(v) && m.src in v.nodes && v.nodes[m.src].role.Replica?
    ensures forall j | j in v.slots :: Taught(v, m).nodes[v.slots[j]] == v.nodes[v.slots[j]]
  {
  }

  lemma GrantIs(v: View, m: Msg, timeOk: bool)
    requires Good(v)
    ensures Votes(v, m, timeOk) <==> MayVote(v, m, timeOk)
  {
    hide ServesSlots, Good;
    if m.src in v.nodes {
      LearnIsTaught(v, m);
      var v0 := Taught(v, m);
      ServesIs(v0, v.myself);
      assert ServesSlots(v0, v.myself) <==> ServesSlots(v, v.myself) by { SameServes(v, v0); }
      if v.nodes[m.src].role.Replica? { OwnersUntaught(v, m); OwnersGood(v); }
    }
  }

  lemma SameServes(v: View, w: View)
    requires w.slots == v.slots
    ensures ServesSlots(w, v.myself) <==> ServesSlots(v, v.myself)
  {
  }

  lemma OwnersGood(v: View)
    requires Good(v)
    ensures v.myself in v.nodes && forall j | j in v.slots :: v.slots[j] in v.nodes
    ensures forall n | n in v.nodes && v.nodes[n].slaveof.Some? :: v.nodes[n].slaveof.value in v.nodes
  {
  }

  /** A request for a vote teaches its epochs and changes nothing else, except that a voter
      which may vote records the epoch of the request as voted in; only then it did not
      hold that epoch for voted in before. */
  lemma VoteExactly(v: View, m: Msg, timeOk: bool)
    requires Good(v) && m.body.AuthRequest?
    ensures ProcessPacket(v, m, timeOk) ==
            if m.src !in v.nodes then Some(v)
            else if MayVote(v, m, timeOk) then Some(Taught(v, m).(lastVoteEpoch := m.currentEpoch))
            else Some(Taught(v, m))
    ensures ProcessPacket(v, m, timeOk).value.lastVoteEpoch != v.lastVoteEpoch <==> MayVote(v, m, timeOk)
  {
    hide Good, GrantsVote, MasterIsDown, NoNewerOwner, ServesSlots;
    GrantIs(v, m, timeOk);
    if m.src in v.nodes {
      LearnIsTaught(v, m);
    } else {
      assert !MasterIsDown(v, m) by { Unknown(v, m); }
    }
  }

  lemma Unknown(v: View, m: Msg)
    requires m.src !in v.nodes
    ensures !MasterIsDown(v, m)
  {
  }

  /** Whatever the packet, the vote of this node changes exactly when it may vote. */
  lemma VoteChanges(v: View, m: Msg, timeOk: bool)
    requires Good(v) && ProcessPacket(v, m, timeOk).Some?
    ensures var w := ProcessPacket(v, m, timeOk).value;
            && (w.lastVoteEpoch != v.lastVoteEpoch <==> MayVote(v, m, timeOk))
            && (MayVote(v, m, timeOk) ==> w.lastVoteEpoch == m.currentEpoch)
  {
    hide Good, GrantsVote, MasterIsDown, NoNewerOwner, ServesSlots, ProcessPacket, LearnEpochs;
    if m.body.AuthRequest? {
      VoteExactly(v, m, timeOk);
      assert MayVote(v, m, timeOk) ==> MasterIsDown(v, m);
      if m.src !in v.nodes { Unknown(v, m); }
    }
  }

  /** The ack goes to the sender of the request, under its epoch, exactly when the voter may
      vote, and once. */
  lemma AckExactly(v: View, m: Msg, timeOk: bool, reply: bool, x: Msg)
    requires Good(v) && x.body.AuthAck?
    ensures x in Replies(v, m, timeOk, reply) ==>
              MayVote(v, m, timeOk) && x.src == v.myself && x.dst == m.src && x.currentEpoch == m.currentEpoch
    ensures MayVote(v, m, timeOk) ==> exists y :: Replies(v, m, timeOk, reply) == multiset{y} && y.body.AuthAck?
  {
    hide Good, GrantsVote, MasterIsDown, NoNewerOwner, ServesSlots;
    GrantIs(v, m, timeOk);
    if m.src in v.nodes {
      LearnIsTaught(v, m);
    }
    if MayVote(v, m, timeOk) {
      assert Replies(v, m, timeOk, reply) == multiset{BuildMessage(LearnEpochs(v, m), m.src, AuthAck)};
    }
  }

  // ---------------------------------------------------------------------- elections

  /** A vote is counted exactly if it comes from a known master that serves slots and is not
      older than the election; nothing but the count and the epochs taught changes. */
  lemma AckCounts(v: View, m: Msg, timeOk: bool)
    requires Good(v) && m.body.AuthAck? && m.src in v.nodes
    ensures var counted := v.nodes[m.src].role.Master? && ServesSlots(v, m.src) && m.currentEpoch >= v.authEpoch;
            ProcessPacket(v, m, timeOk) == Some(Taught(v, m).(authCount := v.authCount + if counted then 1 else 0))
  {
    hide Good, ServesSlots;
    LearnIsTaught(v, m);
    ServesIs(v, m.src);
  }

  /** Word of a failure marks the node, unless it is this one or unknown, and nothing else. */
  lemma FailMarks(v: View, m: Msg, timeOk: bool)
    requires Good(v) && m.body.Fail? && m.src in v.nodes
    ensures var v0, n := Taught(v, m), m.body.failing;
            ProcessPacket(v, m, timeOk) ==
              if n in v.nodes && n != v.myself
              then Some(v0.(nodes := v0.nodes[n := v0.nodes[n].(failed := true)])) else Some(v0)
  {
    hide Good;
    LearnIsTaught(v, m);
  }

  /** This node replicates `x`, which serves slots and is held for failed, and may stand for
      its succession now; a manual failover needs neither the failure nor fresh data. */
  ghost predicate MayStand(v: View, t: Timing, x: NodeId)
    requires v.myself in v.nodes
  {
    && v.nodes[v.myself].role.Replica? && v.nodes[v.myself].slaveof == Some(x)
    && x in v.nodes && ServesSlots(v, x)
    && (t.manual || (v.nodes[x].failed && !t.noFailover && !t.dataTooOld))
  }

  /** `w` is `v` once this node has taken over from `x` under config epoch `epoch`. */
  ghost predicate TookOver(v: View, w: View, x: NodeId, epoch: nat)
    requires v.myself in v.nodes
  {
    && w == v.(nodes := w.nodes, slots := w.slots)
    && w.nodes == v.nodes[v.myself := v.nodes[v.myself].(role := Master, slaveof := None, configEpoch := epoch)]
    && w.slots.Keys == v.slots.Keys
    && forall j | j in v.slots :: w.slots[j] == if v.slots[j] == x then v.myself else v.slots[j]
  }

  lemma ReplacesMaster(v: View, x: NodeId)
    requires Good(v) && v.Me().role.Replica? && v.Me().slaveof == Some(x) && x in v.nodes
    ensures TookOver(v, ReplaceMaster(v), x, v.Me().configEpoch)
  {
    hide Good;
    assert v.slots.Keys + v.Bits(x) == v.slots.Keys;
  }

  /** Whatever the clock says, nobody but a replica that may stand does anything. */
  lemma OnlyCandidatesAct(v: View, t: Timing)
    requires Good(v) && v.myself in v.nodes && forall x :: !MayStand(v, t, x)
    ensures HandleFailover(v, t) == (v, Nothing)
  {
    hide ServesSlots, ReplaceMaster;
    if v.Me().role.Replica? && v.Me().slaveof.Some? {
      var x := v.Me().slaveof.value;
      ServesIs(v, x);
      assert !MayStand(v, t, x);
    }
  }

  /** What a replica that may stand does: it starts afresh when the last attempt is too old,
      asks for votes in an epoch of its own when its time has come, once, and takes over when
      more than half of the masters have voted for it. */
  lemma CandidateActs(v: View, t: Timing, x: NodeId)
    requires Good(v) && v.myself in v.nodes && MayStand(v, t, x)
    ensures var (w, action) := HandleFailover(v, t);
            if t.retryDue then action == Scheduled && w == v.(authCount := 0, authSent := false)
            else if t.tooEarly || t.expired then action == Nothing && w == v
            else if !v.authSent then
              action == AskVotes && w == v.(currentEpoch := v.currentEpoch + 1, authEpoch := v.currentEpoch + 1, authSent := true)
            else if 2 * v.authCount > v.size then
              action == Won && TookOver(v, w, x, Max(v.nodes[v.myself].configEpoch, v.authEpoch))
            else action == Nothing && w == v
  {
    hide Good, ServesSlots, ReplaceMaster, TookOver;
    ServesIs(v, x);
    assert MayFailover(v, t);
    var epoch := Max(v.nodes[v.myself].configEpoch, v.authEpoch);
    var v1 := WithMyEpoch(v, epoch);
    assert v1 == v.(nodes := v.nodes[v.myself := v.nodes[v.myself].(configEpoch := epoch)]);
    assert epoch == v.nodes[v.myself].configEpoch ==> v1.nodes == v.nodes;
    ReplacesMaster(v1, x);
    SameTakeOver(v, v1, ReplaceMaster(v1), x, epoch);
  }

  lemma SameTakeOver(v: View, v1: View, w: View, x: NodeId, epoch: nat)
    requires v.myself in v.nodes && v1 == v.(nodes := v.nodes[v.myself := v.nodes[v.myself].(configEpoch := epoch)])
    requires TookOver(v1, w, x, epoch)
    ensures TookOver(v, w, x, epoch)
  {
  }

  /** The request for votes carries the new epoch, the replica's master and the slots and
      config epoch of that master. */
  lemma RequestCarries(v: View, x: NodeId, dst: NodeId, body: Body)
    requires Good(v) && v.Me().role.Replica? && v.Me().slaveof == Some(x) && x in v.nodes
    ensures var m := BuildMessage(v, dst, body);
            && m.src == v.myself && m.dst == dst && m.body == body
            && m.currentEpoch == v.currentEpoch && m.configEpoch == v.nodes[x].configEpoch && m.slaveof == Some(x)
            && forall j :: j in m.claimed <==> j in v.slots && v.slots[j] == x
  {
  }

  // -------------------------------------------------------------------- claims and keys

  /** This node or, if it is a replica, its master. */
  ghost predicate Followed(v: View, x: NodeId)
    requires v.myself in v.nodes
  {
    if v.nodes[v.myself].role.Master? then x == v.myself else v.nodes[v.myself].slaveof == Some(x)
  }

  /** Slot `j` is claimed, not being imported, and free or held under a smaller epoch. */
  predicate Yields(v: View, j: Slot, sender: NodeId, epoch: nat, claimed: set<Slot>)
    requires Good(v)
  {
    && j in claimed && j !in v.importing
    && (j in v.slots ==> v.slots[j] != sender && v.nodes[v.slots[j]].configEpoch < epoch)
  }

  /** The last slot of this node, or of its master, has just gone to the claimer. */
  ghost predicate LostLast(v: View, w: View)
    requires v.myself in v.nodes
  {
    exists x :: Followed(v, x) && ServesSlots(v, x) && !ServesSlots(w, x)
  }

  /** This node as a replica of `n`. */
  function Following(v: View, n: NodeId): View
    requires v.myself in v.nodes
  {
    var wasMaster := v.nodes[v.myself].role.Master?;
    v.(nodes := v.nodes[v.myself := v.nodes[v.myself].(role := Replica, slaveof := Some(n))],
       importing := if wasMaster then map[] else v.importing,
       migrating := if wasMaster then map[] else v.migrating)
  }

  /** A claim moves exactly the slots that yield to it. If it takes the last one from this
      node or its master, this node becomes a replica of the claimer and keeps its keys for
      the resynchronisation to replace; otherwise the keys of the slots this node has just
      lost go, and no others. */
  lemma ClaimExactly(v: View, sender: NodeId, epoch: nat, claimed: set<Slot>, w: View)
    requires Good(v) && sender in v.nodes && v.nodes[sender].role.Master? && sender != v.myself
    requires UpdateSlots(v, sender, epoch, claimed) == Some(w)
    ensures forall j :: w.Owner(j) == if Yields(v, j, sender, epoch, claimed) then Some(sender) else v.Owner(j)
    ensures v.myself in v.nodes
    ensures v.noRedirection ==> w == v.(slots := w.slots)
    ensures !v.noRedirection && LostLast(v, w) ==> w == Following(v.(slots := w.slots), sender)
    ensures !v.noRedirection && !LostLast(v, w) ==>
              && w == v.(slots := w.slots, keyed := w.keyed)
              && forall j :: j in w.keyed <==> j in v.keyed && !(v.Owner(j) == Some(v.myself) && w.Owner(j) != Some(v.myself))
  {
    hide ServesSlots, Good, Rebound, Bind, DropKeys, SetMaster, UpdateSlots, Following, Yields, View.Owner;
    OwnersGood(v);
    ClaimMoves(v, sender, epoch, claimed, w);
    var r := Rebound(v, sender, epoch, claimed);
    var v1 := Bind(v, r, sender);
    assert w.slots == v1.slots;
    forall n ensures ServesSlots(w, n) <==> ServesSlots(v1, n) { SameServing(w, v1, n); }
    ClaimCases(v, sender, epoch, claimed, w);
    BindOnly(v, r, sender);
    if w == DropKeys(v1, v, r) {
      DropsLost(v, sender, r, w);
    }
  }

  /** The outcomes of a claim. */
  lemma ClaimCases(v: View, sender: NodeId, epoch: nat, claimed: set<Slot>, w: View)
    requires Good(v) && sender in v.nodes && v.nodes[sender].role.Master? && sender != v.myself
    requires UpdateSlots(v, sender, epoch, claimed) == Some(w) && v.myself in v.nodes
    ensures var r := Rebound(v, sender, epoch, claimed);
            var v1 := Bind(v, r, sender);
            if v.noRedirection then w == v1
            else if LostLast(v, v1) then w == Following(v1, sender)
            else w == DropKeys(v1, v, r)
  {
    hide ServesSlots, Good, Rebound, Bind, DropKeys;
    var r := Rebound(v, sender, epoch, claimed);
    var v1 := Bind(v, r, sender);
    BindOnly(v, r, sender);
    var cur := CurMaster(v);
    if cur.Some? {
      LosesLast(v, r, sender, cur.value);
      assert Followed(v, cur.value);
      assert forall x :: Followed(v, x) ==> x == cur.value;
    }
  }

  lemma BindOnly(v: View, r: set<Slot>, n: NodeId)
    ensures Bind(v, r, n) == v.(slots := Bind(v, r, n).slots)
  {
  }

  lemma DropsLost(v: View, sender: NodeId, r: set<Slot>, w: View)
    requires w == DropKeys(Bind(v, r, sender), v, r) && sender != v.myself
    ensures w == v.(slots := w.slots, keyed := w.keyed)
    ensures forall j :: j in w.keyed <==> j in v.keyed && !(v.Owner(j) == Some(v.myself) && w.Owner(j) != Some(v.myself))
  {
  }

  lemma SameServing(v: View, w: View, n: NodeId)
    requires w.slots == v.slots
    ensures ServesSlots(w, n) <==> ServesSlots(v, n)
  {
  }

  lemma ClaimMoves(v: View, sender: NodeId, epoch: nat, claimed: set<Slot>, w: View)
    requires Good(v) && sender in v.nodes && v.nodes[sender].role.Master? && sender != v.myself
    requires UpdateSlots(v, sender, epoch, claimed) == Some(w)
    ensures forall j :: w.Owner(j) == if Yields(v, j, sender, epoch, claimed) then Some(sender) else v.Owner(j)
  {
    hide UpdateSlots;
    var r := Rebound(v, sender, epoch, claimed);
    forall j ensures w.Owner(j) == if Yields(v, j, sender, epoch, claimed) then Some(sender) else v.Owner(j) {
      assert j in r <==> Yields(v, j, sender, epoch, claimed);
    }
  }

  /** Some slot of `x` went, and none is left, exactly if `x` served slots and serves none now. */
  lemma LosesLast(v: View, r: set<Slot>, sender: NodeId, x: NodeId)
    ensures ServesSlots(v, x) && !ServesSlots(Bind(v, r, sender), x) <==>
            (exists j | j in r :: v.Owner(j) == Some(x)) && Bind(v, r, sender).Bits(x) == {}
  {
    var v1 := Bind(v, r, sender);
    ServesIs(v1, x);
    forall j | j in v.slots && j !in r ensures j in v1.slots && v1.slots[j] == v.slots[j] {}
    if ServesSlots(v, x) && !ServesSlots(v1, x) {
      var j :| j in v.slots && v.slots[j] == x;
      assert v.Owner(j) == Some(x);
    }
  }

  // ------------------------------------------------------------------ roles and commands

  /** `w` is `v` but for the slots of `r`, whose owner is now `owner`. */
  ghost predicate Given(v: View, w: View, r: set<Slot>, owner: Option<NodeId>) {
    w == v.(slots := w.slots) && forall j :: w.Owner(j) == if j in r then owner else v.Owner(j)
  }

  /** `w` is `v` but for the slots of `n`, which have no owner any more. */
  ghost predicate Stripped(v: View, w: View, n: NodeId) {
    w == v.(slots := w.slots) && forall j :: w.Owner(j) == if v.Owner(j) == Some(n) then None else v.Owner(j)
  }

  /** A node that says it has no master is a master; one that says it has one is a replica,
      owns nothing any more, and replicates the node it names if that node is known. */
  lemma RoleExactly(v: View, n: NodeId, m: NodeId)
    requires Good(v) && n in v.nodes
    ensures var node := v.nodes[n];
            && SwitchRole(v, n, None) == v.(nodes := v.nodes[n := node.(role := Master, slaveof := None)])
            && Stripped(v.(nodes := v.nodes[n := node.(role := Replica, slaveof := if m in v.nodes then Some(m) else node.slaveof)]),
                        SwitchRole(v, n, Some(m)), n)
  {
    hide Good, Stripped, WithNode, Unbind;
    assert v.nodes[n].role.Master? ==> v.nodes[n].slaveof == None by { MastersHaveNone(v); }
    assert v.nodes[n := v.nodes[n]] == v.nodes;
    if v.nodes[n].role.Replica? {
      WithNodeIs(v, n, v.nodes[n].(role := Master, slaveof := None));
    }
    RoleGiven(v, n, m);
  }

  lemma MastersHaveNone(v: View)
    requires Good(v)
    ensures forall n | n in v.nodes && v.nodes[n].role.Master? :: v.nodes[n].slaveof == None
  {
  }

  lemma WithNodeIs(v: View, n: NodeId, node: Node)
    requires Good(v) && n in v.nodes
    requires node.slaveof.Some? ==> node.role.Replica? && node.slaveof.value in v.nodes
    requires node.role.Replica? ==> v.nodes[n].role.Replica? || v.Bits(n) == {}
    ensures WithNode(v, n, node) == v.(nodes := v.nodes[n := node])
  {
    hide Good;
  }

  lemma RoleGiven(v: View, n: NodeId, m: NodeId)
    requires Good(v) && n in v.nodes
    ensures var node := v.nodes[n];
            Stripped(v.(nodes := v.nodes[n := node.(role := Replica, slaveof := if m in v.nodes then Some(m) else node.slaveof)]),
                     SwitchRole(v, n, Some(m)), n)
  {
    hide Good, Stripped, Unbind, Demote, WithNode;
    var v1 := if v.nodes[n].role.Replica? then v else Demote(v, n);
    assert v1 == Unbind(v, v.Bits(n)).(nodes := v.nodes[n := v.nodes[n].(role := Replica)]) by {
      if v.nodes[n].role.Replica? {
        OwnsNothingLeft(v, n);
        assert v.nodes[n := v.nodes[n]] == v.nodes;
      } else {
        DemoteIs(v, n);
      }
    }
    var node2 := v.nodes[n].(role := Replica, slaveof := if m in v.nodes then Some(m) else v.nodes[n].slaveof);
    assert v1.nodes.Keys == v.nodes.Keys;
    if m in v.nodes {
      assert Good(v1);
      WithNodeIs(v1, n, v1.nodes[n].(slaveof := Some(m)));
    }
    assert SwitchRole(v, n, Some(m)) == v1.(nodes := v.nodes[n := node2]);
    UnbindStrips(v, n, v.nodes[n := node2]);
  }

  lemma DemoteIs(v: View, n: NodeId)
    requires Good(v) && n in v.nodes && v.nodes[n].role.Master?
    ensures Demote(v, n) == Unbind(v, v.Bits(n)).(nodes := v.nodes[n := v.nodes[n].(role := Replica)])
  {
  }

  lemma UnbindStrips(v: View, n: NodeId, nodes: map<NodeId, Node>)
    ensures Stripped(v.(nodes := nodes), Unbind(v, v.Bits(n)).(nodes := nodes), n)
  {
    assert forall j :: j in v.Bits(n) <==> v.Owner(j) == Some(n);
  }

  lemma OwnsNothingLeft(v: View, n: NodeId)
    requires Good(v) && n in v.nodes && v.nodes[n].role.Replica?
    ensures Unbind(v, v.Bits(n)) == v
  {
    ReplicaOwnsNothing(v, n);
    assert v.slots - {} == v.slots;
  }

  /** An epoch is taken without consensus exactly if this node has none or somebody's, or the
      current one, is greater; it is the next one, and nothing else changes. */
  lemma BumpExactly(v: View)
    requires Good(v) && v.myself in v.nodes
    ensures var own := v.nodes[v.myself].configEpoch;
            BumpEpoch(v) ==
              if own > 0 && own >= v.currentEpoch && (forall n | n in v.nodes :: own >= v.nodes[n].configEpoch) then v
              else v.(currentEpoch := v.currentEpoch + 1,
                      nodes := v.nodes[v.myself := v.nodes[v.myself].(configEpoch := v.currentEpoch + 1)])
  {
    hide Good;
  }

  /** ADDSLOTS is all or nothing: it needs every slot free. */
  lemma AddSlotsExactly(v: View, s: set<Slot>)
    requires Good(v)
    ensures if forall j | j in s :: v.Owner(j) == None
            then Given(v.(importing := v.importing - s), Execute(v, AddSlots(s)), s, Some(v.myself))
            else Execute(v, AddSlots(s)) == v
  {
    hide Good;
    if j :| j in s && v.Owner(j) != None {
      assert j in v.slots.Keys;
    }
  }

  /** DELSLOTS needs every slot taken, by whomever. */
  lemma DelSlotsExactly(v: View, s: set<Slot>)
    requires Good(v)
    ensures if forall j | j in s :: v.Owner(j) != None
            then Given(v.(importing := v.importing - s), Execute(v, DelSlots(s)), s, None)
            else Execute(v, DelSlots(s)) == v
  {
    hide Good;
    if j :| j in s && v.Owner(j) == None {
      assert j !in v.slots.Keys;
    }
  }

  /** SETSLOT NODE gives the slot away unless keys are still here, and closes the import of a
      slot that arrives, under a new epoch. */
  lemma SetSlotExactly(v: View, j: Slot, n: NodeId)
    requires Good(v) && v.myself in v.nodes
    ensures var refused := || v.nodes[v.myself].role.Replica? || n !in v.nodes
                           || (v.Owner(j) == Some(v.myself) && n != v.myself && j in v.keyed);
            var arrives := n == v.myself && j in v.importing;
            var v1 := if j !in v.keyed then v.(migrating := v.migrating - {j}) else v;
            var v2 := if arrives then BumpEpoch(v1).(importing := v.importing - {j}) else v1;
            var w := Execute(v, SetSlotNode(j, n));
            if refused then w == v else Given(v2, w, {j}, Some(n))
  {
    hide Good, BumpEpoch, Given, Bind;
    var v1 := if j !in v.keyed then v.(migrating := v.migrating - {j}) else v;
    MigratingInvisible(v, v1.migrating);
    var v2 := if n == v.myself && j in v.importing then BumpEpoch(v1).(importing := v.importing - {j}) else v1;
    BindGives(v2, {j}, n);
  }

  lemma MigratingInvisible(v: View, migrating: map<Slot, NodeId>)
    requires Good(v)
    ensures Good(v.(migrating := migrating))
  {
  }

  lemma BindGives(v: View, r: set<Slot>, n: NodeId)
    ensures Given(v, Bind(v, r, n), r, Some(n))
  {
  }

  /** TAKEOVER: the replica of a known node takes its place under an epoch nobody granted. */
  lemma TakeoverExactly(v: View)
    requires Good(v) && v.myself in v.nodes
    ensures var me, w := v.nodes[v.myself], Execute(v, Takeover);
            if me.role.Master? || me.slaveof == None then w == v
            else
              var v1 := BumpEpoch(v);
              v1.myself in v1.nodes && TookOver(v1, w, me.slaveof.value, v1.nodes[v1.myself].configEpoch)
  {
    hide Good, BumpEpoch, ReplaceMaster, TookOver;
    OwnersGood(v);
    var me := v.nodes[v.myself];
    if me.role.Replica? && me.slaveof.Some? {
      assert BumpEpoch(v).Me().role.Replica? && BumpEpoch(v).Me().slaveof == me.slaveof by { BumpKeepsRole(v); }
      ReplacesMaster(BumpEpoch(v), me.slaveof.value);
    }
  }

  lemma BumpKeepsRole(v: View)
    requires Good(v)
    ensures BumpEpoch(v).Me().role == v.Me().role && BumpEpoch(v).Me().slaveof == v.Me().slaveof
  {
    hide Good;
  }

  /** REPLICATE is for a replica, or for a master that has neither slots nor keys, and only a
      known master other than this node can be followed. */
  lemma ReplicateExactly(v: View, n: NodeId, dbEmpty: bool)
    requires Good(v) && v.myself in v.nodes
    ensures var free := v.nodes[v.myself].role.Replica? || (!ServesSlots(v, v.myself) && dbEmpty);
            Execute(v, Replicate(n, dbEmpty)) ==
              if free && n in v.nodes && n != v.myself && v.nodes[n].role.Master? then Following(v, n) else v
  {
    hide Good, ServesSlots;
    ServesIs(v, v.myself);
  }

  /** A slot is marked as migrating by its owner and as importing by a master that is not, in
      both cases with a known node; a master may drop both marks. */
  lemma MarkExactly(v: View, j: Slot, n: NodeId)
    requires Good(v) && v.myself in v.nodes
    ensures var able := v.nodes[v.myself].role.Master?;
            var mine := v.Owner(j) == Some(v.myself);
            && Execute(v, SetMigrating(j, n)) == v.(migrating := if able && mine && n in v.nodes then v.migrating[j := n] else v.migrating)
            && Execute(v, SetImporting(j, n)) == v.(importing := if able && !mine && n in v.nodes then v.importing[j := n] else v.importing)
            && Execute(v, SetStable(j)) == if able then v.(importing := v.importing - {j}, migrating := v.migrating - {j}) else v
  {
    hide Good;
  }

  /** An epoch is set by hand only for a node that is alone and has none; the current epoch
      does not fall behind it. */
  lemma HandEpochExactly(v: View, epoch: nat)
    requires Good(v) && v.myself in v.nodes
    ensures var alone := (forall n | n in v.nodes :: n == v.myself) && v.nodes[v.myself].configEpoch == 0;
            Execute(v, SetConfigEpoch(epoch)) ==
              if alone
              then v.(currentEpoch := Max(v.currentEpoch, epoch),
                      nodes := v.nodes[v.myself := v.nodes[v.myself].(configEpoch := epoch)])
              else v
  {
    hide Good;
    assert v.nodes.Keys == {v.myself} <==> forall n | n in v.nodes :: n == v.myself;
  }

  /** FORGET leaves no trace of the node. */
  lemma ForgetExactly(v: View, n: NodeId)
    requires Good(v) && v.myself in v.nodes && n in v.nodes
    ensures var w := Execute(v, Forget(n));
            if n == v.myself || (v.nodes[v.myself].role.Replica? && v.nodes[v.myself].slaveof == Some(n)) then w == v
            else
              && w == v.(nodes := w.nodes, slots := w.slots, importing := w.importing, migrating := w.migrating)
              && w.nodes.Keys == v.nodes.Keys - {n}
              && (forall x | x in w.nodes ::
                    w.nodes[x] == v.nodes[x].(slaveof := if v.nodes[x].slaveof == Some(n) then None else v.nodes[x].slaveof))
              && (forall j :: w.Owner(j) == if v.Owner(j) == Some(n) then None else v.Owner(j))
              && (forall j :: j in w.importing <==> j in v.importing && v.importing[j] != n)
              && (forall j :: j in w.migrating <==> j in v.migrating && v.migrating[j] != n)
  {
    hide Good;
  }

  // -------------------------------------------------------------- votes over whole runs

  /** Step `i` of a run delivered the request that this ack answers, to a voter that might
      vote. */
  ghost predicate Answers(run: seq<System>, steps: seq<Step>, i: nat, voter: NodeId, candidate: NodeId, epoch: nat)
    requires IsRun(run, steps) && i < |steps|
  {
    && steps[i].Deliver?
    && var m := steps[i].m;
    && m.dst == voter && m.src == candidate && m.currentEpoch == epoch
    && MayVote(run[i].views[m.dst], m, steps[i].timeOk)
  }

  /** An ack that one step puts on the wire is the reply of a voter that might vote. */
  lemma NewAck(s: System, step: Step, x: Msg)
    requires Wf(s) && Enabled(s, step) && x.body.AuthAck? && x in Next(s, step).net && x !in s.net
    ensures step.Deliver? && x.src == step.m.dst && x.dst == step.m.src && x.currentEpoch == step.m.currentEpoch
    ensures MayVote(s.views[step.m.dst], step.m, step.timeOk)
  {
    hide Good, ProcessPacket, Replies, HandleFailover, Votes, Counts, LearnEpochs, MayVote, Execute, OwnerIsMaster, ClusterSize, WithNode;
    if step.Deliver? {
      AckExactly(s.views[step.m.dst], step.m, step.timeOk, step.reply, x);
    }
  }

  /** In every state of every run each ack on the wire answers a request that its receiver
      sent and that its sender, when it got it, might vote for: in particular it held the
      master of the candidate for failed, or the request was a forced one. */
  lemma {:induction false} AckAnswersRequest(run: seq<System>, steps: seq<Step>, n: nat, x: Msg) returns (i: nat)
    requires IsRun(run, steps) && n < |run| && x in run[n].net && x.body.AuthAck?
    ensures i < n && Answers(run, steps, i, x.src, x.dst, x.currentEpoch)
    ensures MasterIsDown(run[i].views[x.src], steps[i].m)
  {
    hide Good, Next, Enabled, Wf, Dominated, NoNewerOwner, MasterIsDown, ServesSlots;
    assert run[0].net == multiset{};
    if x in run[n - 1].net {
      i := AckAnswersRequest(run, steps, n - 1, x);
    } else {
      NewAck(run[n - 1], steps[n - 1], x);
      i := n - 1;
    }
  }
}
