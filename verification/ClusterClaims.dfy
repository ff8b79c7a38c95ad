/**
 Slot claims. A claim is a PING or PONG in which a master advertises an epoch and the
 slots it serves under it, or an UPDATE in which another node passes it on. For every slot:
 when all orders in which a node can hear a set of claims lead to the same owner, and who
 that is.
 */
module ClusterClaims {
  import opened Wrappers
  import opened ClusterView

  datatype Claim = Claim(epoch: nat, slots: set<Slot>)

  /** One claim per claimant. */
  type Claims = map<NodeId, Claim>

  /** A replica knows its master; no slot is being imported. */
  ghost predicate Steady(v: View) {
    && Good(v)
    && (v.Me().role.Master? || v.Me().slaveof.Some?)
    && v.importing == map[]
  }

  /** `m` delivers a claim. */
  ghost predicate Delivers(m: Msg, claims: Claims) {
    && m.body.Ping? && m.slaveof.None?
    && m.src in claims && m.configEpoch == claims[m.src].epoch && m.claimed == claims[m.src].slots
  }

  /** `m` carries the claim of another node. Its header tells nothing new but the epoch of
      its sender's own claim. */
  ghost predicate Relays(v0: View, m: Msg, claims: Claims) {
    && m.body.Update?
    && m.body.about in claims && m.body.aboutEpoch == claims[m.body.about].epoch && m.body.aboutSlots == claims[m.body.about].slots
    && (m.src in claims ==> m.configEpoch == claims[m.src].epoch)
    && (m.src !in claims && m.src in v0.nodes ==> m.configEpoch <= v0.nodes[m.src].configEpoch)
  }

  /** A claim under this node's own epoch, and this node is the one that has to move. */
  predicate IsRival(v: View, claims: Claims, q: NodeId)
    requires Good(v)
  {
    && v.Me().role.Master? && q in claims && q in v.nodes && q > v.myself
    && v.nodes[q].configEpoch <= claims[q].epoch == v.Me().configEpoch
  }

  ghost predicate HasRival(v: View, claims: Claims)
    requires Good(v)
  {
    exists q :: IsRival(v, claims, q)
  }

  /** The claimants are other nodes, and no two of them share an epoch. The last line holds
      of every node in every run (ClusterEpochs.EpochDomination). */
  ghost predicate Claimable(v: View, claims: Claims)
    requires Good(v)
  {
    && v.myself !in claims
    && (forall c, d | c in claims && d in claims && c != d :: claims[c].epoch != claims[d].epoch)
    && (HasRival(v, claims) ==> v.Me().configEpoch <= v.currentEpoch)
  }

  // ------------------------------------------------------------------ one claim

  /** Who owns slot `j` after node `src` claims `claimed` under `epoch`. */
  function OwnerAfter(v: View, j: Slot, src: NodeId, epoch: nat, claimed: set<Slot>): Option<NodeId>
    requires Good(v)
  {
    if j in claimed && (j in v.slots ==> v.slots[j] == src || v.nodes[v.slots[j]].configEpoch < epoch)
    then Some(src) else v.Owner(j)
  }

  /** The sender claims under the epoch of this node, a master with the smaller name. */
  predicate Meets(v: View, m: Msg)
    requires Good(v) && m.src in v.nodes
  {
    v.Me().role.Master? && m.src > v.myself && v.nodes[m.src].configEpoch <= m.configEpoch == v.Me().configEpoch
  }

  /** What becomes of this node itself: if it is still a master it moves away from an epoch
      that it shares. */
  ghost predicate OwnEffect(v: View, m: Msg, w: View)
    requires Good(v) && Good(w) && m.src in v.nodes
  {
    var current := if m.currentEpoch > v.currentEpoch then m.currentEpoch else v.currentEpoch;
    && (w.Me().role.Master? ==> v.Me().role.Master?)
    && if Meets(v, m) && w.Me().role.Master? then w.Me().configEpoch == w.currentEpoch == current + 1
       else w.Me().configEpoch == v.Me().configEpoch && w.currentEpoch == current
  }

  /** What a claim does, slot by slot and node by node. */
  ghost predicate ClaimEffect(v: View, m: Msg, w: View)
    requires Steady(v) && m.src in v.nodes
  {
    && Steady(w) && w.myself == v.myself && w.nodes.Keys == v.nodes.Keys
    && (forall n | n in v.nodes && n != v.myself ::
          w.nodes[n].configEpoch ==
            if n == m.src && m.configEpoch > v.nodes[n].configEpoch then m.configEpoch else v.nodes[n].configEpoch)
    && OwnEffect(v, m, w)
    && (forall j :: w.Owner(j) == OwnerAfter(v, j, m.src, m.configEpoch, m.claimed))
  }

  /** clusterUpdateSlotsConfigWith on its own, for a claim under the recorded epoch. */
  lemma UpdateEffect(v: View, src: NodeId, epoch: nat, claimed: set<Slot>)
    requires Steady(v) && src in v.nodes && src != v.myself && v.nodes[src].role.Master?
    ensures var w := UpdateSlots(v, src, epoch, claimed);
            && w.Some? && Steady(w.value) && (w.value.Me().role.Master? ==> v.Me().role.Master?)
            && (forall j :: w.value.Owner(j) == OwnerAfter(v, j, src, epoch, claimed))
  {
    UpdateSlotsDies(v, src, epoch, claimed);
    UpdateSteady(v, src, epoch, claimed);
  }

  lemma UpdateSteady(v: View, src: NodeId, epoch: nat, claimed: set<Slot>)
    requires Steady(v) && src in v.nodes && v.nodes[src].role.Master?
    ensures var w := UpdateSlots(v, src, epoch, claimed);
            w.Some? ==> Steady(w.value) && (w.value.Me().role.Master? ==> v.Me().role.Master?)
  {
  }

  /** The test that skips the scan when nothing changed never skips a change. */
  lemma CleanSlotsEffect(v: View, src: NodeId, epoch: nat, claimed: set<Slot>)
    requires Good(v) && src in v.nodes && v.nodes[src].role.Master? && !DirtySlots(v, src, claimed)
    ensures forall j :: v.Owner(j) == OwnerAfter(v, j, src, epoch, claimed)
  {
    assert forall j :: j in claimed <==> j in v.Bits(src);
  }

  lemma LearnEffect(v: View, m: Msg)
    requires Steady(v) && m.src in v.nodes
    ensures var w := LearnEpochs(v, m);
            && Steady(w)
            && w.currentEpoch == (if m.currentEpoch > v.currentEpoch then m.currentEpoch else v.currentEpoch)
            && forall n | n in v.nodes ::
                 w.nodes[n] == v.nodes[n].(configEpoch :=
                   if n == m.src && m.configEpoch > v.nodes[n].configEpoch then m.configEpoch else v.nodes[n].configEpoch)
  {
    hide Good;
  }

  lemma MasterSteady(v: View, n: NodeId)
    requires Steady(v) && n in v.nodes
    ensures var w := SetNodeAsMaster(v, n); Steady(w) && (n != v.myself ==> w.Me() == v.Me())
  {
  }

  /** A view that has learnt the epochs of a claim, before and after the rest of it. */
  ghost predicate PingEffect(v: View, m: Msg, w: View)
    requires Steady(v) && m.src in v.nodes
  {
    && Steady(w) && w.myself == v.myself && w.nodes.Keys == v.nodes.Keys
    && (forall n | n in v.nodes && n != v.myself :: w.nodes[n].configEpoch == v.nodes[n].configEpoch)
    && (w.Me().role.Master? ==> v.Me().role.Master?)
    && (if Meets(v, m) && w.Me().role.Master? then w.Me().configEpoch == w.currentEpoch == v.currentEpoch + 1
        else w.Me().configEpoch == v.Me().configEpoch && w.currentEpoch == v.currentEpoch)
    && (forall j :: w.Owner(j) == OwnerAfter(v, j, m.src, m.configEpoch, m.claimed))
  }

  lemma PingStep(v: View, m: Msg)
    requires Steady(v) && m.src in v.nodes && m.src != v.myself && m.slaveof.None?
    requires m.configEpoch <= v.nodes[m.src].configEpoch
    ensures var w := HandlePing(v, m); w.Some? && PingEffect(v, m, w.value)
  {
    hide Good, Steady, UpdateSlots, DirtySlots, SetNodeAsMaster, HandleCollision, OwnerAfter;
    SteadyGood(v);
    var v1 := SwitchRole(v, m.src, m.slaveof);
    MasterSteady(v, m.src);
    SteadyGood(v1);
    var v2 := ScanStep(v1, m);
    SteadyGood(v2);
    CollisionStep(v2, m.src);
    var w := HandlePing(v, m).value;
    forall j ensures w.Owner(j) == OwnerAfter(v, j, m.src, m.configEpoch, m.claimed) {
      SameOwnerAfter(v, v1, j, m.src, m.configEpoch, m.claimed);
      assert w.Owner(j) == v2.Owner(j);
    }
  }

  /** The scan, skipped or not. */
  lemma ScanStep(v: View, m: Msg) returns (w: View)
    requires Steady(v) && m.src in v.nodes && m.src != v.myself && v.nodes[m.src].role.Master?
    ensures Some(w) == if DirtySlots(v, m.src, m.claimed) then UpdateSlots(v, m.src, m.configEpoch, m.claimed) else Some(v)
    ensures Steady(w) && SameEpochs(v, w) && SameElection(v, w) && w.nodes[m.src].role.Master?
    ensures w.Me().role.Master? ==> v.Me().role.Master?
    ensures forall j :: w.Owner(j) == OwnerAfter(v, j, m.src, m.configEpoch, m.claimed)
  {
    hide Good, Steady, UpdateSlots, DirtySlots, OwnerAfter;
    SteadyGood(v);
    w := v;
    if DirtySlots(v, m.src, m.claimed) {
      UpdateEffect(v, m.src, m.configEpoch, m.claimed);
      w := UpdateSlots(v, m.src, m.configEpoch, m.claimed).value;
    } else {
      CleanSlotsEffect(v, m.src, m.configEpoch, m.claimed);
    }
    SrcStaysMaster(v, w, m);
  }

  lemma SameOwnerAfter(v: View, w: View, j: Slot, src: NodeId, epoch: nat, claimed: set<Slot>)
    requires Good(v) && Good(w) && w.slots == v.slots && SameEpochs(v, w)
    ensures w.Owner(j) == v.Owner(j) && OwnerAfter(w, j, src, epoch, claimed) == OwnerAfter(v, j, src, epoch, claimed)
  {
  }

  /** The scan does not touch the record of the sender. */
  lemma SrcStaysMaster(v: View, w: View, m: Msg)
    requires Good(v) && m.src in v.nodes && m.src != v.myself && v.nodes[m.src].role.Master?
    requires w == v || Some(w) == UpdateSlots(v, m.src, m.configEpoch, m.claimed)
    ensures m.src in w.nodes && w.nodes[m.src].role.Master?
  {
  }

  lemma CollisionStep(v: View, src: NodeId)
    requires Steady(v) && src in v.nodes
    ensures var w := HandleCollision(v, src);
            && Steady(w) && w.slots == v.slots && w.myself == v.myself && w.nodes.Keys == v.nodes.Keys
            && w.Me().role == v.Me().role
            && (forall n | n in v.nodes && n != v.myself :: w.nodes[n] == v.nodes[n])
            && (if v.Me().role.Master? && v.nodes[src].role.Master? && src > v.myself
                   && v.nodes[src].configEpoch == v.Me().configEpoch
                then w.Me().configEpoch == w.currentEpoch == v.currentEpoch + 1 else w == v)
  {
    hide Good;
  }

  lemma SteadyGood(v: View)
    requires Steady(v)
    ensures Good(v) && v.myself in v.nodes
    ensures forall j | j in v.slots :: v.slots[j] in v.nodes
  {
  }

  lemma ClaimStep(v: View, m: Msg, timeOk: bool)
    requires Steady(v) && m.src in v.nodes && m.src != v.myself
    requires m.body.Ping? && m.slaveof.None?
    ensures var w := ProcessPacket(v, m, timeOk);
            w.Some? && ClaimEffect(v, m, w.value)
  {
    hide Good, Steady, LearnEpochs, HandlePing;
    SteadyGood(v);
    LearnEffect(v, m);
    var v0 := LearnEpochs(v, m);
    PingStep(v0, m);
    assert forall j :: OwnerAfter(v0, j, m.src, m.configEpoch, m.claimed) == OwnerAfter(v, j, m.src, m.configEpoch, m.claimed);
  }

  // --------------------------------------------------------------- many claims

  /** Process the packets in order; `None` if the process died on the way. */
  function ProcessAll(v: View, ms: seq<Msg>): (w: Option<View>)
    requires Good(v)
    ensures w.Some? ==> Good(w.value)
  {
    if ms == [] then Some(v)
    else
      var v1 := ProcessAll(v, ms[..|ms| - 1]);
      if v1.None? then None else ProcessPacket(v1.value, ms[|ms| - 1], true)
  }

  /** The claimants that were heard themselves. */
  function Heard(ms: seq<Msg>): set<NodeId> {
    set m | m in ms && m.body.Ping? :: m.src
  }

  /** The packets carry the claims and nothing else. */
  ghost predicate Carries(v0: View, claims: Claims, ms: seq<Msg>) {
    forall m | m in ms :: Delivers(m, claims) || Relays(v0, m, claims)
  }

  /** And every claimant was heard at least once. */
  ghost predicate CarriesAll(v0: View, claims: Claims, ms: seq<Msg>) {
    Carries(v0, claims, ms) && claims.Keys <= Heard(ms)
  }

  /** The known nodes that claim slot `j`. */
  function Claimants(v0: View, claims: Claims, j: Slot): set<NodeId> {
    set c | c in claims && c in v0.nodes && j in claims[c].slots
  }

  /** The epoch under which a node ends up recorded. */
  function Top(v0: View, claims: Claims, n: NodeId): nat
    requires n in v0.nodes
  {
    if n in claims && v0.nodes[n].configEpoch < claims[n].epoch then claims[n].epoch else v0.nodes[n].configEpoch
  }

  /** What is true of the owner of slot `j` once the claimants in `heard` have been heard: it
      is the first owner, or a claimant with an epoch above the first owner's, and no
      claim that was heard exceeds the epoch it is recorded under. */
  ghost predicate Owns(v0: View, claims: Claims, heard: set<NodeId>, j: Slot, v: View)
    requires Good(v0) && Good(v) && v.nodes.Keys == v0.nodes.Keys
  {
    match v.Owner(j)
    case None => j !in v0.slots && forall c | c in Claimants(v0, claims, j) :: c !in heard
    case Some(x) =>
      && x in v.nodes
      && (v0.Owner(j) == Some(x) ||
          (&& x in Claimants(v0, claims, j) && v.nodes[x].configEpoch == Top(v0, claims, x)
           && (j in v0.slots ==> v0.slots[j] in v0.nodes && v0.nodes[v0.slots[j]].configEpoch < claims[x].epoch)))
      && (forall c | c in Claimants(v0, claims, j) && c in heard :: claims[c].epoch <= v.nodes[x].configEpoch)
  }

  /** Another node is recorded under its first epoch or its last one, once heard under its last. */
  ghost predicate Recorded(v0: View, claims: Claims, heard: set<NodeId>, v: View) {
    forall n | n in v.nodes && n in v0.nodes && n != v0.myself ::
      && (v.nodes[n].configEpoch == v0.nodes[n].configEpoch || v.nodes[n].configEpoch == Top(v0, claims, n))
      && (n in heard ==> v.nodes[n].configEpoch == Top(v0, claims, n))
  }

  /** This node keeps its epoch, or takes later ones if it has a rival. */
  ghost predicate OwnEpoch(v0: View, claims: Claims, v: View)
    requires Good(v0) && Good(v)
  {
    && (v.Me().role.Master? ==> v0.Me().role.Master?)
    && if HasRival(v0, claims) then v0.Me().configEpoch <= v.Me().configEpoch <= v.currentEpoch
       else v.Me().configEpoch == v0.Me().configEpoch
  }

  ghost predicate Settled(v0: View, claims: Claims, heard: set<NodeId>, v: View)
    requires Good(v0)
  {
    && Steady(v) && v.myself == v0.myself && v.nodes.Keys == v0.nodes.Keys
    && Recorded(v0, claims, heard, v) && OwnEpoch(v0, claims, v)
    && (forall j :: Owns(v0, claims, heard, j, v))
  }

  /** Learning an epoch from a header. */
  lemma SettleLearnt(v0: View, claims: Claims, heard: set<NodeId>, v: View, m: Msg)
    requires Steady(v0) && v0.myself !in claims && Settled(v0, claims, heard, v) && m.src in v.nodes
    requires Delivers(m, claims) || Relays(v0, m, claims)
    ensures var w := LearnEpochs(v, m);
            && Settled(v0, claims, heard, w)
            && (Delivers(m, claims) ==> w.nodes[m.src].configEpoch == Top(v0, claims, m.src))
  {
    hide Good, LearnEpochs, Owns;
    SteadyGood(v0);
    SteadyGood(v);
    LearnEffect(v, m);
    var w := LearnEpochs(v, m);
    forall j ensures Owns(v0, claims, heard, j, w) {
      assert Owns(v0, claims, heard, j, v);
      OwnsLearnt(v0, claims, heard, v, w, j);
    }
  }

  lemma OwnsLearnt(v0: View, claims: Claims, heard: set<NodeId>, v: View, w: View, j: Slot)
    requires Steady(v0) && Steady(v) && Steady(w) && w.slots == v.slots && v0.myself !in claims
    requires v.nodes.Keys == v0.nodes.Keys && w.nodes.Keys == v.nodes.Keys
    requires Recorded(v0, claims, heard, v) && Recorded(v0, claims, heard, w)
    requires forall n | n in v.nodes :: v.nodes[n].configEpoch <= w.nodes[n].configEpoch
    requires Owns(v0, claims, heard, j, v)
    ensures Owns(v0, claims, heard, j, w)
  {
    hide Good;
    SteadyGood(v);
    assert w.Owner(j) == v.Owner(j);
  }

  /** No epoch changed but perhaps that of this node. */
  ghost predicate OthersSame(v: View, w: View) {
    w.nodes.Keys == v.nodes.Keys && forall n | n in v.nodes && n != v.myself :: w.nodes[n].configEpoch == v.nodes[n].configEpoch
  }

  /** A claim of `c` takes effect on a view that has learnt its epoch. */
  lemma SettleClaim(v0: View, claims: Claims, heard: set<NodeId>, v: View, w: View, c: NodeId)
    requires Steady(v0) && v0.myself !in claims && Settled(v0, claims, heard, v) && c in v.nodes && c in claims
    requires v.nodes[c].configEpoch == Top(v0, claims, c)
    requires Steady(w) && w.myself == v.myself && OthersSame(v, w) && OwnEpoch(v0, claims, w)
    requires v.Me().configEpoch <= w.Me().configEpoch
    requires forall j :: w.Owner(j) == OwnerAfter(v, j, c, claims[c].epoch, claims[c].slots)
    ensures Settled(v0, claims, heard + {c}, w)
  {
    hide Good, Owns, OwnerAfter;
    SteadyGood(v0);
    SteadyGood(v);
    forall j ensures Owns(v0, claims, heard + {c}, j, w) {
      assert Owns(v0, claims, heard, j, v);
      OwnsClaimed(v0, claims, heard, v, w, c, j);
    }
  }

  lemma OwnsClaimed(v0: View, claims: Claims, heard: set<NodeId>, v: View, w: View, c: NodeId, j: Slot)
    requires Steady(v0) && Steady(v) && Steady(w) && v.nodes.Keys == v0.nodes.Keys && v0.myself !in claims
    requires v.myself == v0.myself == w.myself && OthersSame(v, w) && v.Me().configEpoch <= w.Me().configEpoch
    requires v0.Me().configEpoch <= v.Me().configEpoch
    requires c in v.nodes && c in claims && v.nodes[c].configEpoch == Top(v0, claims, c)
    requires Recorded(v0, claims, heard, v)
    requires w.Owner(j) == OwnerAfter(v, j, c, claims[c].epoch, claims[c].slots)
    requires Owns(v0, claims, heard, j, v)
    ensures Owns(v0, claims, heard + {c}, j, w)
  {
    hide Good;
    SteadyGood(v0);
    SteadyGood(v);
    SteadyGood(w);
    assert v.Owner(j).Some? <==> j in v.slots;
  }

  lemma SettledLess(v0: View, claims: Claims, heard: set<NodeId>, more: set<NodeId>, v: View)
    requires Good(v0) && Settled(v0, claims, more, v) && heard <= more
    ensures Settled(v0, claims, heard, v)
  {
    hide Good;
    forall j ensures Owns(v0, claims, heard, j, v) {
      assert Owns(v0, claims, more, j, v);
    }
  }

  /** An UPDATE about another node: nothing if its epoch is no news, else a claim. */
  lemma UpdateStep(v: View, about: NodeId, epoch: nat, claimed: set<Slot>)
    requires Steady(v) && about != v.myself
    ensures var w := HandleUpdate(v, about, epoch, claimed);
            && w.Some? && Steady(w.value)
            && (about !in v.nodes || v.nodes[about].configEpoch >= epoch ==> w.value == v)
            && (about in v.nodes && v.nodes[about].configEpoch < epoch ==>
                  && SameEpochs(Renewed(v, about, epoch), w.value) && w.value.myself == v.myself
                  && (w.value.Me().role.Master? ==> v.Me().role.Master?) && w.value.currentEpoch == v.currentEpoch
                  && (forall j :: w.value.Owner(j) == OwnerAfter(Renewed(v, about, epoch), j, about, epoch, claimed)))
  {
    hide Good, Steady, UpdateSlots, SetNodeAsMaster, WithNode;
    SteadyGood(v);
    if about in v.nodes && v.nodes[about].configEpoch < epoch {
      RenewedSteady(v, about, epoch);
      UpdateEffect(Renewed(v, about, epoch), about, epoch, claimed);
    }
  }

  /** Recorded as a master under a new epoch. */
  function Renewed(v: View, n: NodeId, epoch: nat): (w: View)
    requires Good(v) && n in v.nodes
    ensures Good(w) && w.nodes.Keys == v.nodes.Keys
  {
    var v1 := SetNodeAsMaster(v, n);
    WithNode(v1, n, v1.nodes[n].(configEpoch := epoch))
  }

  lemma RenewedSteady(v: View, n: NodeId, epoch: nat)
    requires Steady(v) && n in v.nodes && n != v.myself
    ensures var w := Renewed(v, n, epoch);
            && Steady(w) && w.nodes[n].role.Master? && w.slots == v.slots && w.myself == v.myself
            && w.nodes[n].configEpoch == epoch && w.Me() == v.Me() && w.currentEpoch == v.currentEpoch
            && (forall x | x in v.nodes && x != n :: w.nodes[x].configEpoch == v.nodes[x].configEpoch)
  {
  }

  lemma SettlePing(v0: View, claims: Claims, heard: set<NodeId>, v: View, m: Msg)
    requires Steady(v0) && Claimable(v0, claims) && Settled(v0, claims, heard, v) && Delivers(m, claims) && m.src in v.nodes
    ensures var w := ProcessPacket(v, m, true); w.Some? && Settled(v0, claims, heard + {m.src}, w.value)
  {
    hide Good, Steady, LearnEpochs, HandlePing, Settled, Top, OwnEpoch;
    SteadyGood(v0);
    SettledView(v0, claims, heard, v);
    SettleLearnt(v0, claims, heard, v, m);
    var v1 := LearnEpochs(v, m);
    LearnEffect(v, m);
    SettledView(v0, claims, heard, v1);
    PingStep(v1, m);
    var w := HandlePing(v1, m).value;
    OwnStep(v0, claims, heard, v1, m, w);
    SettleClaim(v0, claims, heard, v1, w, m.src);
  }

  /** This node moves only if it has a rival, and then forward. */
  lemma OwnStep(v0: View, claims: Claims, heard: set<NodeId>, v: View, m: Msg, w: View)
    requires Steady(v0) && Claimable(v0, claims) && Settled(v0, claims, heard, v) && Delivers(m, claims) && m.src in v.nodes
    requires v.nodes[m.src].configEpoch == Top(v0, claims, m.src) && m.src != v.myself
    requires Steady(v) && PingEffect(v, m, w)
    ensures OwnEpoch(v0, claims, w) && v.Me().configEpoch <= w.Me().configEpoch
  {
    hide Good, Owns;
    SteadyGood(v0);
    SteadyGood(v);
    SteadyGood(w);
    assert Meets(v, m) && v.Me().configEpoch == v0.Me().configEpoch ==> IsRival(v0, claims, m.src);
  }

  /** What a settled view says about this node. */
  lemma SettledView(v0: View, claims: Claims, heard: set<NodeId>, v: View)
    requires Steady(v0) && Settled(v0, claims, heard, v)
    ensures Steady(v) && Good(v) && v.myself == v0.myself && v.myself in v.nodes && v.nodes.Keys == v0.nodes.Keys
    ensures OwnEpoch(v0, claims, v) && v0.Me().configEpoch <= v.Me().configEpoch
  {
    hide Good;
    SteadyGood(v0);
    SteadyGood(v);
  }

  lemma SettleUpdate(v0: View, claims: Claims, heard: set<NodeId>, v: View, m: Msg)
    requires Steady(v0) && Claimable(v0, claims) && Settled(v0, claims, heard, v) && Relays(v0, m, claims) && m.src in v.nodes
    ensures var w := ProcessPacket(v, m, true); w.Some? && Settled(v0, claims, heard, w.value)
  {
    hide Good, Steady, LearnEpochs, HandleUpdate, Settled, Renewed, OwnerAfter;
    SteadyGood(v0);
    SettledView(v0, claims, heard, v);
    SettleLearnt(v0, claims, heard, v, m);
    var v1, c := LearnEpochs(v, m), m.body.about;
    SettledView(v0, claims, heard, v1);
    UpdateStep(v1, c, claims[c].epoch, claims[c].slots);
    if c in v1.nodes && v1.nodes[c].configEpoch < claims[c].epoch {
      var w := HandleUpdate(v1, c, claims[c].epoch, claims[c].slots).value;
      SettleRenewed(v0, claims, heard, v1, c);
      RenewedSteady(v1, c, claims[c].epoch);
      SteadyGood(w);
      SettleClaim(v0, claims, heard, Renewed(v1, c, claims[c].epoch), w, c);
      SettledLess(v0, claims, heard, heard + {c}, w);
    }
  }

  lemma SettleRenewed(v0: View, claims: Claims, heard: set<NodeId>, v: View, c: NodeId)
    requires Steady(v0) && v0.myself !in claims && Settled(v0, claims, heard, v) && c in v.nodes && c in claims
    requires v.nodes[c].configEpoch < claims[c].epoch
    ensures var w := Renewed(v, c, claims[c].epoch);
            && Settled(v0, claims, heard, w) && w.nodes[c].configEpoch == Top(v0, claims, c) && w.myself == v.myself
  {
    hide Good, Owns, Renewed;
    SteadyGood(v0);
    SteadyGood(v);
    RenewedSteady(v, c, claims[c].epoch);
    var w := Renewed(v, c, claims[c].epoch);
    forall j ensures Owns(v0, claims, heard, j, w) {
      assert Owns(v0, claims, heard, j, v);
      OwnsLearnt(v0, claims, heard, v, w, j);
    }
  }

  lemma SettleUnknown(v0: View, claims: Claims, heard: set<NodeId>, v: View, c: NodeId)
    requires Steady(v0) && Settled(v0, claims, heard, v) && c !in v.nodes
    ensures Settled(v0, claims, heard + {c}, v)
  {
    hide Good;
    forall j ensures Owns(v0, claims, heard + {c}, j, v) {
      assert Owns(v0, claims, heard, j, v);
    }
  }

  /** Whatever claims a node hears, in whatever order, from the claimants themselves or in
      UPDATE packets of others: it survives, and of every slot the owner is the first one
      or a claimant above it, with no claim heard that exceeds its recorded epoch. */
  lemma {:induction false} ClaimsSettle(v0: View, claims: Claims, ms: seq<Msg>)
    requires Steady(v0) && Claimable(v0, claims) && Carries(v0, claims, ms)
    ensures var w := ProcessAll(v0, ms);
            w.Some? && Settled(v0, claims, Heard(ms), w.value)
  {
    hide Good, Steady, ProcessPacket, Settled, Delivers, Relays, Claimable;
    SteadyGood(v0);
    if ms == [] {
      SettledAtStart(v0, claims);
      assert Heard(ms) == {};
    } else {
      var rest, m := ms[..|ms| - 1], ms[|ms| - 1];
      assert ms == rest + [m] && m in ms;
      ClaimsSettle(v0, claims, rest);
      var v := ProcessAll(v0, rest).value;
      var heard := Heard(rest);
      assert Heard(ms) == if m.body.Ping? then heard + {m.src} else heard;
      SettleStep(v0, claims, heard, v, m);
    }
  }

  lemma SettleStep(v0: View, claims: Claims, heard: set<NodeId>, v: View, m: Msg)
    requires Steady(v0) && Claimable(v0, claims) && Good(v) && Settled(v0, claims, heard, v)
    requires Delivers(m, claims) || Relays(v0, m, claims)
    ensures var w := ProcessPacket(v, m, true);
            w.Some? && Settled(v0, claims, if m.body.Ping? then heard + {m.src} else heard, w.value)
  {
    hide Good, Steady, Settled, LearnEpochs, HandlePing, HandleUpdate;
    if m.src !in v.nodes {
      SettleUnknown(v0, claims, heard, v, m.src);
    } else if m.body.Ping? {
      SettlePing(v0, claims, heard, v, m);
    } else {
      SettleUpdate(v0, claims, heard, v, m);
    }
  }

  lemma SettledAtStart(v0: View, claims: Claims)
    requires Steady(v0) && Claimable(v0, claims)
    ensures Settled(v0, claims, {}, v0)
  {
    hide Good;
    SteadyGood(v0);
  }

  // ------------------------------------------------------------- when all orders agree

  lemma {:induction false} SomeGreatest(claims: Claims, cs: set<NodeId>)
    requires cs != {} && cs <= claims.Keys
    ensures exists m :: m in cs && forall c | c in cs :: claims[c].epoch <= claims[m].epoch
    decreases cs
  {
    var x :| x in cs;
    var rest := cs - {x};
    if rest == {} {
      assert cs == {x};
      assert x in cs && forall c | c in cs :: claims[c].epoch <= claims[x].epoch;
    } else {
      SomeGreatest(claims, rest);
      var y :| y in rest && forall c | c in rest :: claims[c].epoch <= claims[y].epoch;
      var m := if claims[x].epoch <= claims[y].epoch then y else x;
      assert m in cs && forall c | c in cs :: claims[c].epoch <= claims[m].epoch;
    }
  }

  /** The claimant with the greatest epoch. */
  ghost function Greatest(claims: Claims, cs: set<NodeId>): (m: NodeId)
    requires cs != {} && cs <= claims.Keys
    ensures m in cs && forall c | c in cs :: claims[c].epoch <= claims[m].epoch
  {
    SomeGreatest(claims, cs);
    var m :| m in cs && forall c | c in cs :: claims[c].epoch <= claims[m].epoch;
    m
  }

  /** The first owner is recorded under an epoch that no claim to the slot exceeds. */
  ghost predicate FirstStays(v0: View, claims: Claims, j: Slot)
    requires Good(v0)
  {
    var cs := Claimants(v0, claims, j);
    cs == {} || (j in v0.slots && claims[Greatest(claims, cs)].epoch <= v0.nodes[v0.slots[j]].configEpoch)
  }

  /** Who owns the slot when all orders agree. */
  ghost function Verdict(v0: View, claims: Claims, j: Slot): Option<NodeId>
    requires Good(v0)
  {
    if FirstStays(v0, claims, j) then v0.Owner(j) else Some(Greatest(claims, Claimants(v0, claims, j)))
  }

  /** The first owner claims other slots under an epoch above all claims to this one. Heard
      before them it keeps the slot it does not claim, heard after them it has lost it. */
  ghost predicate Lingers(v0: View, claims: Claims, j: Slot)
    requires Good(v0) && Claimants(v0, claims, j) != {}
  {
    && j in v0.slots && v0.slots[j] in claims && j !in claims[v0.slots[j]].slots
    && claims[Greatest(claims, Claimants(v0, claims, j))].epoch < claims[v0.slots[j]].epoch
  }

  /** A lesser claimant, able to take the slot, was heard of before under an epoch that the
      greatest claim does not exceed: its claim is out of date. */
  ghost predicate Outdated(v0: View, claims: Claims, j: Slot, c: NodeId)
    requires Good(v0) && Claimants(v0, claims, j) != {}
  {
    var top := Greatest(claims, Claimants(v0, claims, j));
    && c in Claimants(v0, claims, j) && c != top
    && (j in v0.slots ==> v0.nodes[v0.slots[j]].configEpoch < claims[c].epoch)
    && claims[top].epoch <= v0.nodes[c].configEpoch
  }

  /** The slot is this node's own, and another claim makes it take a new epoch: before the
      greatest claim to the slot that keeps the slot, after it the slot is lost. */
  ghost predicate Escapes(v0: View, claims: Claims, j: Slot)
    requires Good(v0)
  {
    v0.Owner(j) == Some(v0.myself) && HasRival(v0, claims)
  }

  ghost predicate Agreed(v0: View, claims: Claims, j: Slot)
    requires Good(v0)
  {
    || FirstStays(v0, claims, j)
    || (!Lingers(v0, claims, j) && !Escapes(v0, claims, j) && forall c :: !Outdated(v0, claims, j, c))
  }

  lemma OwnerDecided(v0: View, claims: Claims, heard: set<NodeId>, j: Slot, v: View)
    requires Steady(v0) && Claimable(v0, claims) && Agreed(v0, claims, j)
    requires claims.Keys <= heard && Settled(v0, claims, heard, v)
    ensures v.Owner(j) == Verdict(v0, claims, j)
  {
    hide Good, Greatest;
    SteadyGood(v0);
    SteadyGood(v);
    assert Owns(v0, claims, heard, j, v);
    var cs := Claimants(v0, claims, j);
    if cs != {} {
      var top := Greatest(claims, cs);
      assert top in cs;
      assert v.Owner(j).Some?;
      var x := v.Owner(j).value;
      assert claims[top].epoch <= v.nodes[x].configEpoch;
      assert !FirstStays(v0, claims, j) ==> !Outdated(v0, claims, j, x);
    }
  }

  // -------------------------------------------------------------- when they do not

  /** The PING in which a claimant makes its claim. */
  function ClaimOf(v0: View, claims: Claims, c: NodeId, current: nat): Msg
    requires c in claims
  {
    Msg(c, v0.myself, current, claims[c].epoch, None, claims[c].slots, Ping)
  }

  /** All claims of `cs`, once each. */
  ghost function Each(v0: View, claims: Claims, cs: set<NodeId>, current: nat): seq<Msg>
    requires cs <= claims.Keys
    decreases cs
  {
    if cs == {} then []
    else
      var c :| c in cs;
      [ClaimOf(v0, claims, c, current)] + Each(v0, claims, cs - {c}, current)
  }

  lemma {:induction false} EachCarries(v0: View, claims: Claims, cs: set<NodeId>, current: nat)
    requires cs <= claims.Keys
    ensures forall m | m in Each(v0, claims, cs, current) :: Delivers(m, claims) && m.src in cs
    ensures forall c | c in cs :: ClaimOf(v0, claims, c, current) in Each(v0, claims, cs, current)
    ensures |Each(v0, claims, cs, current)| == |cs|
    decreases cs
  {
    if cs != {} {
      var c :| c in cs && Each(v0, claims, cs, current) == [ClaimOf(v0, claims, c, current)] + Each(v0, claims, cs - {c}, current);
      EachCarries(v0, claims, cs - {c}, current);
      var first, rest := [ClaimOf(v0, claims, c, current)], Each(v0, claims, cs - {c}, current);
      forall m | m in Each(v0, claims, cs, current) ensures Delivers(m, claims) && m.src in cs {
        assert m in first || m in rest;
      }
      forall d | d in cs ensures ClaimOf(v0, claims, d, current) in Each(v0, claims, cs, current) {
        assert d == c ==> ClaimOf(v0, claims, d, current) in first;
        assert d != c ==> ClaimOf(v0, claims, d, current) in rest;
      }
    }
  }

  /** All claims once each, that of `c` first. */
  ghost function FirstThenRest(v0: View, claims: Claims, c: NodeId, current: nat): seq<Msg>
    requires c in claims
  {
    [ClaimOf(v0, claims, c, current)] + Each(v0, claims, claims.Keys - {c}, current)
  }

  lemma FirstCarries(v0: View, claims: Claims, c: NodeId, current: nat)
    requires c in claims
    ensures var ms := FirstThenRest(v0, claims, c, current);
            && CarriesAll(v0, claims, ms) && |ms| == |claims.Keys| && ms[0] == ClaimOf(v0, claims, c, current)
            && (forall m | m in ms :: Delivers(m, claims))
  {
    hide Each, Relays;
    EachCarries(v0, claims, claims.Keys - {c}, current);
    var ms, rest := FirstThenRest(v0, claims, c, current), Each(v0, claims, claims.Keys - {c}, current);
    forall m | m in ms ensures Delivers(m, claims) {
      assert m == ms[0] || m in rest;
    }
    forall d | d in claims ensures d in Heard(ms) {
      assert ClaimOf(v0, claims, d, current) == ms[0] || ClaimOf(v0, claims, d, current) in rest;
      assert ClaimOf(v0, claims, d, current) in ms && ClaimOf(v0, claims, d, current).body.Ping?;
    }
  }

  /** `x` owns the slot under an epoch that no claim to it exceeds. */
  ghost predicate Holds(v0: View, claims: Claims, j: Slot, v: View, x: NodeId) {
    && v.Owner(j) == Some(x) && x in v.nodes
    && forall c | c in Claimants(v0, claims, j) :: claims[c].epoch <= v.nodes[x].configEpoch
  }

  lemma HoldStep(v0: View, claims: Claims, heard: set<NodeId>, v: View, m: Msg, j: Slot, x: NodeId)
    requires Steady(v0) && Claimable(v0, claims) && Good(v) && Settled(v0, claims, heard, v)
    requires Delivers(m, claims) && Holds(v0, claims, j, v, x)
    ensures var w := ProcessPacket(v, m, true); w.Some? && Holds(v0, claims, j, w.value, x)
  {
    hide Good, ProcessPacket, Steady, Settled, OwnEffect;
    SettledView(v0, claims, heard, v);
    if m.src in v.nodes {
      ClaimStep(v, m, true);
      OwnForward(v0, claims, heard, v, m, ProcessPacket(v, m, true).value);
    } else {
      UnknownIgnored(v, m);
    }
  }

  /** A claim never takes this node's epoch back. */
  lemma OwnForward(v0: View, claims: Claims, heard: set<NodeId>, v: View, m: Msg, w: View)
    requires Steady(v0) && Claimable(v0, claims) && Settled(v0, claims, heard, v) && Delivers(m, claims) && m.src in v.nodes
    requires Good(v) && Good(w) && OwnEffect(v, m, w) && w.myself == v.myself
    ensures v.Me().configEpoch <= w.Me().configEpoch
  {
    hide Good, Owns;
    SteadyGood(v0);
    SteadyGood(v);
    assert Meets(v, m) && v.Me().configEpoch == v0.Me().configEpoch ==> IsRival(v0, claims, m.src);
  }

  lemma UnknownIgnored(v: View, m: Msg)
    requires Good(v) && m.src !in v.nodes
    ensures ProcessPacket(v, m, true) == Some(v)
  {
  }

  /** Who holds the slot after the first claim holds it at the end. */
  lemma {:induction false} HoldsOn(v0: View, claims: Claims, ms: seq<Msg>, j: Slot, x: NodeId)
    requires Steady(v0) && Claimable(v0, claims) && ms != [] && forall m | m in ms :: Delivers(m, claims)
    requires ProcessAll(v0, ms[..1]).Some? && Holds(v0, claims, j, ProcessAll(v0, ms[..1]).value, x)
    ensures ProcessAll(v0, ms).Some? && Holds(v0, claims, j, ProcessAll(v0, ms).value, x)
    decreases |ms|
  {
    hide Good, Steady, ProcessPacket, Settled, Delivers, Relays, Holds, Claimable;
    if |ms| == 1 {
      assert ms[..1] == ms;
    } else {
      var rest, m := ms[..|ms| - 1], ms[|ms| - 1];
      assert ms == rest + [m] && m in ms && rest[..1] == ms[..1];
      HoldsOn(v0, claims, rest, j, x);
      ClaimsSettle(v0, claims, rest);
      HoldStep(v0, claims, Heard(rest), ProcessAll(v0, rest).value, m, j, x);
    }
  }

  lemma OneClaim(v0: View, claims: Claims, c: NodeId, current: nat)
    requires Steady(v0) && Claimable(v0, claims) && c in claims && c in v0.nodes
    ensures var w := ProcessAll(v0, [ClaimOf(v0, claims, c, current)]);
            w.Some? && ClaimEffect(v0, ClaimOf(v0, claims, c, current), w.value)
  {
    hide Good, Steady, ProcessPacket, ClaimEffect;
    SteadyGood(v0);
    var m := ClaimOf(v0, claims, c, current);
    assert [m][..0] == [];
    assert ProcessAll(v0, [m]) == ProcessPacket(v0, m, true);
    ClaimStep(v0, m, true);
  }

  /** A claimant heard first takes the slot for good if nobody exceeds it. */
  lemma FirstTakes(v0: View, claims: Claims, c: NodeId, j: Slot, current: nat)
    requires Steady(v0) && Claimable(v0, claims) && c in Claimants(v0, claims, j)
    requires j in v0.slots ==> v0.nodes[v0.slots[j]].configEpoch < claims[c].epoch
    requires forall d | d in Claimants(v0, claims, j) :: claims[d].epoch <= Top(v0, claims, c)
    ensures var w := ProcessAll(v0, FirstThenRest(v0, claims, c, current)); w.Some? && w.value.Owner(j) == Some(c)
  {
    hide Good, Steady, ProcessAll, Each, CarriesAll;
    SteadyGood(v0);
    var ms := FirstThenRest(v0, claims, c, current);
    FirstCarries(v0, claims, c, current);
    assert ms[..1] == [ClaimOf(v0, claims, c, current)];
    OneClaim(v0, claims, c, current);
    HoldsOn(v0, claims, ms, j, c);
  }

  /** A first owner heard first keeps the slot for good if nobody exceeds its new epoch. */
  lemma FirstKeeps(v0: View, claims: Claims, j: Slot, current: nat)
    requires Steady(v0) && Claimable(v0, claims) && j in v0.slots && v0.slots[j] in claims
    requires j !in claims[v0.slots[j]].slots
    requires forall d | d in Claimants(v0, claims, j) :: claims[d].epoch <= Top(v0, claims, v0.slots[j])
    ensures var w := ProcessAll(v0, FirstThenRest(v0, claims, v0.slots[j], current)); w.Some? && w.value.Owner(j) == v0.Owner(j)
  {
    hide Good, Steady, ProcessAll, Each, CarriesAll;
    SteadyGood(v0);
    var o := v0.slots[j];
    var ms := FirstThenRest(v0, claims, o, current);
    FirstCarries(v0, claims, o, current);
    assert ms[..1] == [ClaimOf(v0, claims, o, current)];
    OneClaim(v0, claims, o, current);
    HoldsOn(v0, claims, ms, j, o);
  }

  /** This node keeps its own slot for good if it hears its rival first, from a node whose
      current epoch is not below the claims to the slot. */
  lemma RivalFirst(v0: View, claims: Claims, q: NodeId, j: Slot, current: nat)
    requires Steady(v0) && Claimable(v0, claims) && IsRival(v0, claims, q) && v0.Owner(j) == Some(v0.myself)
    requires forall d | d in Claimants(v0, claims, j) :: claims[d].epoch <= current
    ensures var w := ProcessAll(v0, FirstThenRest(v0, claims, q, current)); w.Some? && w.value.Owner(j) == v0.Owner(j)
  {
    hide Good, Steady, ProcessAll, Each, CarriesAll;
    SteadyGood(v0);
    var ms := FirstThenRest(v0, claims, q, current);
    FirstCarries(v0, claims, q, current);
    assert ms[..1] == [ClaimOf(v0, claims, q, current)];
    OneClaim(v0, claims, q, current);
    var w := ProcessAll(v0, ms[..1]).value;
    assert w.Owner(j) == Some(v0.myself);
    OwnerRole(w, j);
    HoldsOn(v0, claims, ms, j, v0.myself);
  }

  lemma OwnerRole(v: View, j: Slot)
    requires Good(v) && v.Owner(j).Some?
    ensures v.slots[j] in v.nodes && v.nodes[v.slots[j]].role.Master?
  {
  }

  /** Otherwise two orders, each with every claim once, end with different owners. */
  lemma OrdersDiffer(v0: View, claims: Claims, j: Slot) returns (ms: seq<Msg>, ms': seq<Msg>)
    requires Steady(v0) && Claimable(v0, claims) && !Agreed(v0, claims, j)
    ensures CarriesAll(v0, claims, ms) && CarriesAll(v0, claims, ms') && |ms| == |ms'| == |claims.Keys|
    ensures var w, w' := ProcessAll(v0, ms), ProcessAll(v0, ms');
            w.Some? && w'.Some? && w.value.Owner(j) != w'.value.Owner(j)
  {
    hide Good, Steady, ProcessAll, CarriesAll, FirstThenRest, Greatest, IsRival;
    SteadyGood(v0);
    var cs := Claimants(v0, claims, j);
    var top := Greatest(claims, cs);
    var current := claims[top].epoch;
    ms := FirstThenRest(v0, claims, top, current);
    FirstCarries(v0, claims, top, current);
    FirstTakes(v0, claims, top, j, current);
    var first := SecondOrder(v0, claims, j);
    ms' := FirstThenRest(v0, claims, first, current);
    FirstCarries(v0, claims, first, current);
  }

  /** Whom to hear first so that the greatest claimant does not get the slot. */
  lemma SecondOrder(v0: View, claims: Claims, j: Slot) returns (first: NodeId)
    requires Steady(v0) && Claimable(v0, claims) && !Agreed(v0, claims, j)
    ensures first in claims && Claimants(v0, claims, j) != {}
    ensures var top := Greatest(claims, Claimants(v0, claims, j));
            var w := ProcessAll(v0, FirstThenRest(v0, claims, first, claims[top].epoch));
            w.Some? && w.value.Owner(j) != Some(top)
  {
    hide Good, Steady, ProcessAll, FirstThenRest, Greatest;
    SteadyGood(v0);
    var current := claims[Greatest(claims, Claimants(v0, claims, j))].epoch;
    if Lingers(v0, claims, j) {
      first := v0.slots[j];
      FirstKeeps(v0, claims, j, current);
    } else if Escapes(v0, claims, j) {
      first :| IsRival(v0, claims, first);
      RivalFirst(v0, claims, first, j, current);
    } else {
      first :| Outdated(v0, claims, j, first);
      FirstTakes(v0, claims, first, j, current);
    }
  }

  // ------------------------------------------------------------------ the theorems

  /** The owner of the slot after the packets. */
  ghost function OwnerIn(v0: View, ms: seq<Msg>, j: Slot): Option<NodeId>
    requires Good(v0)
  {
    var w := ProcessAll(v0, ms);
    if w.Some? then w.value.Owner(j) else None
  }

  /** All orders in which every claim is heard, with any repeats and relays, agree on the slot. */
  ghost predicate SameOwner(v0: View, claims: Claims, j: Slot)
    requires Good(v0)
  {
    forall ms, ms' | CarriesAll(v0, claims, ms) && CarriesAll(v0, claims, ms') :: OwnerIn(v0, ms, j) == OwnerIn(v0, ms', j)
  }

  /** A node survives every order. All orders agree on a slot exactly when no claim exceeds
      its first owner, or the first owner neither lingers nor escapes and no claim to the slot
      is out of date; then it belongs to the first owner or to the greatest claimant. */
  lemma AgreeExactly(v0: View, claims: Claims, j: Slot)
    requires Steady(v0) && Claimable(v0, claims)
    ensures forall ms | CarriesAll(v0, claims, ms) :: ProcessAll(v0, ms).Some?
    ensures SameOwner(v0, claims, j) <==> Agreed(v0, claims, j)
    ensures Agreed(v0, claims, j) ==>
              forall ms | CarriesAll(v0, claims, ms) :: OwnerIn(v0, ms, j) == Verdict(v0, claims, j)
  {
    hide Good, Steady, ProcessAll, Settled, Agreed, Verdict, Carries;
    SteadyGood(v0);
    forall ms | CarriesAll(v0, claims, ms)
      ensures ProcessAll(v0, ms).Some?
      ensures Agreed(v0, claims, j) ==> OwnerIn(v0, ms, j) == Verdict(v0, claims, j)
    {
      ClaimsSettle(v0, claims, ms);
      if Agreed(v0, claims, j) {
        OwnerDecided(v0, claims, Heard(ms), j, ProcessAll(v0, ms).value);
      }
    }
    if !Agreed(v0, claims, j) {
      var ms, ms' := OrdersDiffer(v0, claims, j);
      assert OwnerIn(v0, ms, j) != OwnerIn(v0, ms', j);
    }
  }

  /** No claim is older than what was heard of its claimant before. */
  ghost predicate UpToDate(v: View, claims: Claims) {
    forall c | c in claims && c in v.nodes :: v.nodes[c].configEpoch <= claims[c].epoch
  }

  /** No claim is made under the epoch of this node. */
  ghost predicate NoneShared(v: View, claims: Claims)
    requires Good(v)
  {
    forall c | c in claims :: claims[c].epoch != v.Me().configEpoch
  }

  /** A claimant that owns a slot claims it. */
  ghost predicate OwnersClaim(v: View, claims: Claims) {
    forall j | j in v.slots && v.slots[j] in claims :: j in claims[v.slots[j]].slots
  }

  /** With up-to-date claims under other epochs one thing can go wrong: a first owner that stopped
      claiming the slot, below the greatest claim to it before its own and above it after. */
  lemma FreshAgreement(v0: View, claims: Claims, j: Slot)
    requires Steady(v0) && Claimable(v0, claims) && UpToDate(v0, claims) && NoneShared(v0, claims)
    ensures var cs := Claimants(v0, claims, j);
            Agreed(v0, claims, j) <==>
            !(&& j in v0.slots && v0.slots[j] in claims && j !in claims[v0.slots[j]].slots && cs != {}
              && v0.nodes[v0.slots[j]].configEpoch < claims[Greatest(claims, cs)].epoch < claims[v0.slots[j]].epoch)
  {
    hide Good, Greatest;
    SteadyGood(v0);
  }

  /** Convergence: if no claim is out of date or under this node's epoch, and every claimant
      claims the slots it owns, two nodes that start alike and hear the same claims, each at least once, in any order and
      with any repeats and relays, survive with the same table; a slot belongs to the
      claimant with the greatest epoch, unless its first owner is no claimant and no claim
      exceeds that owner's epoch. */
  lemma ClaimsConverge(v0: View, claims: Claims, ms: seq<Msg>, ms': seq<Msg>)
    requires Steady(v0) && Claimable(v0, claims) && UpToDate(v0, claims) && NoneShared(v0, claims) && OwnersClaim(v0, claims)
    requires CarriesAll(v0, claims, ms) && CarriesAll(v0, claims, ms')
    ensures var w, w' := ProcessAll(v0, ms), ProcessAll(v0, ms');
            && w.Some? && w'.Some?
            && w.value.slots == w'.value.slots
            && forall j :: w.value.Owner(j) == Verdict(v0, claims, j)
    ensures forall j | Claimants(v0, claims, j) != {} && (j in v0.slots ==> v0.slots[j] in claims) ::
              Verdict(v0, claims, j) == Some(Greatest(claims, Claimants(v0, claims, j)))
  {
    hide Good, Steady, Verdict, ProcessAll, Agreed, Greatest, CarriesAll, Settled;
    SteadyGood(v0);
    AgreeExactly(v0, claims, 0);
    forall j
      ensures OwnerIn(v0, ms, j) == OwnerIn(v0, ms', j) == Verdict(v0, claims, j)
    {
      FreshAgreement(v0, claims, j);
      AgreeExactly(v0, claims, j);
    }
    SameTable(ProcessAll(v0, ms).value, ProcessAll(v0, ms').value);
    forall j | Claimants(v0, claims, j) != {} && (j in v0.slots ==> v0.slots[j] in claims)
      ensures Verdict(v0, claims, j) == Some(Greatest(claims, Claimants(v0, claims, j)))
    {
      GreatestOwns(v0, claims, j);
    }
  }

  lemma GreatestOwns(v0: View, claims: Claims, j: Slot)
    requires Steady(v0) && Claimable(v0, claims) && UpToDate(v0, claims) && OwnersClaim(v0, claims)
    requires Claimants(v0, claims, j) != {} && (j in v0.slots ==> v0.slots[j] in claims)
    ensures Verdict(v0, claims, j) == Some(Greatest(claims, Claimants(v0, claims, j)))
  {
    hide Good, Greatest;
    SteadyGood(v0);
  }

  lemma SameTable(w: View, w': View)
    requires forall j: Slot :: w.Owner(j) == w'.Owner(j)
    ensures w.slots == w'.slots
  {
    assert forall j: Slot :: (j in w.slots <==> w.Owner(j).Some?) && (j in w'.slots <==> w'.Owner(j).Some?);
    assert forall j: Slot :: j in w.slots ==> w.Owner(j) == Some(w.slots[j]);
    assert forall j: Slot :: j in w'.slots ==> w'.Owner(j) == Some(w'.slots[j]);
    assert w.slots.Keys == w'.slots.Keys;
  }

  // ----------------------------------------------------------------- three failures

  /** Node 1, a master, knows the masters 2 and 3; the cluster is in epoch 9. */
  function Watcher(epoch1: nat, epoch2: nat, epoch3: nat, slots: map<Slot, NodeId>): View {
    var nodes := map[1 := Node(Master, false, epoch1, None),
                     2 := Node(Master, false, epoch2, None),
                     3 := Node(Master, false, epoch3, None)];
    View(1, nodes, slots, map[], map[], {}, false, 9, 0, 3, 0, 0, false)
  }

  function Order(v0: View, claims: Claims, c: NodeId, d: NodeId): seq<Msg>
    requires c in claims && d in claims
  {
    [ClaimOf(v0, claims, c, 9), ClaimOf(v0, claims, d, 9)]
  }

  lemma TwoClaims(v0: View, claims: Claims, c: NodeId, d: NodeId)
    requires c != d && claims.Keys == {c, d}
    ensures FirstThenRest(v0, claims, c, 9) == Order(v0, claims, c, d)
  {
    assert claims.Keys - {c} == {d};
    assert Each(v0, claims, {d}, 9) == [ClaimOf(v0, claims, d, 9)] + Each(v0, claims, {d} - {d}, 9);
    assert {d} - {d} == {};
  }

  /** After a reshard: slot 0 was node 2's under epoch 1, node 3 has it under epoch 2, and node
      2 has moved on to epoch 3. Told by node 2 first, node 1 never accepts the move. */
  lemma ReshardRefused()
    ensures var v0, claims := Watcher(9, 1, 1, map[0 := 2]), map[2 := Claim(3, {}), 3 := Claim(2, {0})];
            && Steady(v0) && Claimable(v0, claims) && UpToDate(v0, claims) && NoneShared(v0, claims)
            && OwnerIn(v0, Order(v0, claims, 2, 3), 0) == Some(2)
            && OwnerIn(v0, Order(v0, claims, 3, 2), 0) == Some(3)
  {
    hide ProcessAll, FirstThenRest, Order;
    var v0, claims := Watcher(9, 1, 1, map[0 := 2]), map[2 := Claim(3, {}), 3 := Claim(2, {0})];
    assert Claimants(v0, claims, 0) == {3};
    TwoClaims(v0, claims, 2, 3);
    TwoClaims(v0, claims, 3, 2);
    FirstKeeps(v0, claims, 0, 9);
    FirstTakes(v0, claims, 3, 0, 9);
  }

  /** An old claim of node 2, known by now under epoch 5, and a newer one of node 3: whoever
      comes first gets the free slot. */
  lemma OldClaimStays()
    ensures var v0, claims := Watcher(9, 5, 1, map[]), map[2 := Claim(2, {0}), 3 := Claim(3, {0})];
            && Steady(v0) && Claimable(v0, claims) && NoneShared(v0, claims) && OwnersClaim(v0, claims)
            && OwnerIn(v0, Order(v0, claims, 2, 3), 0) == Some(2)
            && OwnerIn(v0, Order(v0, claims, 3, 2), 0) == Some(3)
  {
    hide ProcessAll, FirstThenRest, Order;
    var v0, claims := Watcher(9, 5, 1, map[]), map[2 := Claim(2, {0}), 3 := Claim(3, {0})];
    assert Claimants(v0, claims, 0) == {2, 3};
    TwoClaims(v0, claims, 2, 3);
    TwoClaims(v0, claims, 3, 2);
    FirstTakes(v0, claims, 2, 0, 9);
    FirstTakes(v0, claims, 3, 0, 9);
  }

  /** Node 1 owns slot 0 under epoch 5, node 2 turns up under the same epoch, node 3 claims the
      slot under epoch 6. Heard after the collision, node 3 has come too late. */
  lemma CollisionKeepsSlot()
    ensures var v0, claims := Watcher(5, 5, 1, map[0 := 1]), map[2 := Claim(5, {}), 3 := Claim(6, {0})];
            && Steady(v0) && Claimable(v0, claims) && UpToDate(v0, claims) && OwnersClaim(v0, claims)
            && OwnerIn(v0, Order(v0, claims, 2, 3), 0) == Some(1)
            && OwnerIn(v0, Order(v0, claims, 3, 2), 0) == Some(3)
  {
    hide ProcessAll, FirstThenRest, Order;
    var v0, claims := Watcher(5, 5, 1, map[0 := 1]), map[2 := Claim(5, {}), 3 := Claim(6, {0})];
    assert Claimants(v0, claims, 0) == {3};
    TwoClaims(v0, claims, 2, 3);
    TwoClaims(v0, claims, 3, 2);
    RivalFirst(v0, claims, 2, 0, 9);
    FirstTakes(v0, claims, 3, 0, 9);
  }

  // ----------------------------------------------------- rebinding raises epochs

  /** `w` moved slot `j` to another owner only if that owner's recorded epoch is greater. */
  ghost predicate Raised(v: View, w: View, j: Slot)
    requires Good(v)
  {
    j in v.slots && j in w.slots && w.slots[j] != v.slots[j] ==>
      && w.slots[j] in w.nodes
      && v.nodes[v.slots[j]].configEpoch < w.nodes[w.slots[j]].configEpoch
  }

  lemma SwitchKeepsOwners(v: View, n: NodeId, slaveof: Option<NodeId>, j: Slot)
    requires Good(v) && n in v.nodes
    ensures var w := SwitchRole(v, n, slaveof);
            && (j in w.slots ==> j in v.slots && w.slots[j] == v.slots[j])
            && (w.nodes[n].role.Master? ==> w.slots == v.slots)
  {
    hide Good, WithNode, SetNodeAsMaster;
    if slaveof.Some? && v.nodes[n].role.Master? { DemoteOwners(v, n, j); }
    if slaveof.Some? && slaveof.value in v.nodes { LinkOwners(if v.nodes[n].role.Replica? then v else Demote(v, n), n, slaveof); }
  }

  lemma DemoteOwners(v: View, n: NodeId, j: Slot)
    requires Good(v) && n in v.nodes && v.nodes[n].role.Master?
    ensures var w := Demote(v, n); j in w.slots ==> j in v.slots && w.slots[j] == v.slots[j]
  {
    hide Good;
  }

  lemma LinkOwners(v: View, n: NodeId, slaveof: Option<NodeId>)
    requires Good(v) && n in v.nodes && v.nodes[n].role.Replica? && slaveof.Some? && slaveof.value in v.nodes
    ensures var w := WithNode(v, n, v.nodes[n].(slaveof := slaveof)); w.slots == v.slots && w.nodes[n].role.Replica?
  {
    hide Good;
  }

  lemma CollisionKeepsOthers(v: View, n: NodeId)
    requires Good(v) && n in v.nodes
    ensures var w := HandleCollision(v, n);
            w.slots == v.slots && forall x | x in v.nodes && x != v.myself :: x in w.nodes && w.nodes[x] == v.nodes[x]
  {
    hide Good;
  }

  lemma OwnersKnown(v: View)
    requires Good(v)
    ensures forall j | j in v.slots :: v.slots[j] in v.nodes
  {
  }

  lemma UpdateSlotsRaises(v: View, src: NodeId, epoch: nat, claimed: set<Slot>, j: Slot)
    requires Good(v) && src in v.nodes && v.nodes[src].role.Master? && v.nodes[src].configEpoch >= epoch
    ensures var w := UpdateSlots(v, src, epoch, claimed);
            w.Some? ==> Raised(v, w.value, j) && (w.value.slots != v.slots ==> src != v.myself)
    ensures var w := UpdateSlots(v, src, epoch, claimed);
            w.Some? && j in v.slots && j in w.value.slots && w.value.slots[j] != v.slots[j] ==> w.value.slots[j] == src
  {
    hide SetMaster;
  }

  lemma PingRaises(v: View, m: Msg, j: Slot)
    requires Good(v) && m.src in v.nodes && v.nodes[m.src].configEpoch >= m.configEpoch
    ensures var w := HandlePing(v, m); w.Some? ==> Raised(v, w.value, j)
  {
    hide Good, DirtySlots, UpdateSlots, SwitchRole, HandleCollision;
    OwnersKnown(v);
    var v1 := SwitchRole(v, m.src, m.slaveof);
    SwitchKeepsOwners(v, m.src, m.slaveof, j);
    if v1.nodes[m.src].role.Master? && DirtySlots(v1, m.src, m.claimed) {
      UpdateSlotsRaises(v1, m.src, m.configEpoch, m.claimed, j);
      var v2 := UpdateSlots(v1, m.src, m.configEpoch, m.claimed);
      if v2.Some? { CollisionKeepsOthers(v2.value, m.src); }
    } else {
      CollisionKeepsOthers(v1, m.src);
    }
  }

  lemma UpdateRaises(v: View, about: NodeId, epoch: nat, claimed: set<Slot>, j: Slot)
    requires Good(v)
    ensures var w := HandleUpdate(v, about, epoch, claimed); w.Some? ==> Raised(v, w.value, j)
  {
  }

  lemma LearnKeepsOwners(v: View, m: Msg)
    requires Good(v) && m.src in v.nodes
    ensures var w := LearnEpochs(v, m);
            && w.slots == v.slots && w.nodes[m.src].configEpoch >= m.configEpoch
            && forall n | n in v.nodes :: v.nodes[n].configEpoch <= w.nodes[n].configEpoch
  {
    hide Good;
  }

  /** A packet moves a bound slot only to a node recorded under a greater epoch. */
  lemma RebindRaisesEpoch(v: View, m: Msg, timeOk: bool, j: Slot)
    requires Good(v)
    ensures var w := ProcessPacket(v, m, timeOk); w.Some? ==> Raised(v, w.value, j)
  {
    hide HandlePing, HandleUpdate, LearnEpochs, GrantsVote, CountsAck;
    if m.src in v.nodes {
      var v0 := LearnEpochs(v, m);
      LearnKeepsOwners(v, m);
      match m.body
      case Ping => PingRaises(v0, m, j);
      case Update(about, epoch, claimed) => UpdateRaises(v0, about, epoch, claimed, j);
      case _ =>
    }
  }
}
