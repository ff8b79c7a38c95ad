/**
 Epoch domination: in every run each node's current epoch is at least every config
 epoch it has recorded, so an epoch it assigns to itself is new to it.
 */
module ClusterEpochs {
  import opened Wrappers
  import opened ClusterView
  import opened ClusterProtocol

  ghost predicate Dominated(v: View) {
    && (forall n | n in v.nodes :: v.nodes[n].configEpoch <= v.currentEpoch)
    && v.lastVoteEpoch <= v.currentEpoch
    && v.authEpoch <= v.currentEpoch
  }

  ghost predicate HeaderDominates(m: Msg) {
    m.configEpoch <= m.currentEpoch && (m.body.Update? ==> m.body.aboutEpoch <= m.currentEpoch)
  }

  ghost predicate EpochsDominated(s: System) {
    && (forall n | n in s.views :: Dominated(s.views[n]))
    && (forall m | m in s.net :: HeaderDominates(m))
  }

  // ------------------------------------------------------------------ one view

  lemma SameEpochsDominated(v: View, w: View)
    requires Dominated(v) && SameEpochs(v, w) && SameElection(v, w)
    ensures Dominated(w)
  {
  }

  lemma LearnDominated(v: View, m: Msg)
    requires Good(v) && Dominated(v) && m.src in v.nodes && HeaderDominates(m)
    ensures Dominated(LearnEpochs(v, m)) && m.currentEpoch <= LearnEpochs(v, m).currentEpoch
  {
    hide Good;
  }

  /** A self-assigned epoch is above every epoch this node has heard of. */
  lemma NextEpochIsNew(v: View)
    requires Good(v) && Dominated(v)
    ensures var w := TakeNextEpoch(v);
            && Dominated(w)
            && w.Me().configEpoch == w.currentEpoch
            && forall n | n in v.nodes :: v.nodes[n].configEpoch < w.Me().configEpoch
  {
    hide Good;
  }

  lemma CollisionDominated(v: View, sender: NodeId)
    requires Good(v) && sender in v.nodes && Dominated(v)
    ensures Dominated(HandleCollision(v, sender))
  {
    hide Good;
    NextEpochIsNew(v);
  }

  lemma PingDominated(v: View, m: Msg)
    requires Good(v) && m.src in v.nodes && Dominated(v)
    ensures var w := HandlePing(v, m); w.Some? ==> Dominated(w.value)
  {
    hide Good, SwitchRole, UpdateSlots, DirtySlots, HandleCollision, Dominated;
    var v1 := SwitchRole(v, m.src, m.slaveof);
    SameEpochsDominated(v, v1);
    if v1.nodes[m.src].role.Master? && DirtySlots(v1, m.src, m.claimed) {
      var v2 := UpdateSlots(v1, m.src, m.configEpoch, m.claimed);
      if v2.Some? {
        SameEpochsDominated(v1, v2.value);
        CollisionDominated(v2.value, m.src);
      }
    } else {
      CollisionDominated(v1, m.src);
    }
  }

  lemma RecordDominated(v: View, n: NodeId, epoch: nat)
    requires Good(v) && Dominated(v) && n in v.nodes && epoch <= v.currentEpoch
    ensures Dominated(WithNode(v, n, v.nodes[n].(configEpoch := epoch)))
  {
    hide Good;
  }

  lemma UpdateDominated(v: View, about: NodeId, epoch: nat, claimed: set<Slot>)
    requires Good(v) && Dominated(v) && epoch <= v.currentEpoch
    ensures var w := HandleUpdate(v, about, epoch, claimed); w.Some? ==> Dominated(w.value)
  {
    hide SetNodeAsMaster, UpdateSlots, Dominated, WithNode;
    if about in v.nodes && v.nodes[about].configEpoch < epoch {
      var v1 := SetNodeAsMaster(v, about);
      SameEpochsDominated(v, v1);
      RecordDominated(v1, about, epoch);
      var v2 := WithNode(v1, about, v1.nodes[about].(configEpoch := epoch));
      assert v2.nodes[about].role.Master? by { WithNodeRecords(v1, about, v1.nodes[about].(configEpoch := epoch)); }
      var w := UpdateSlots(v2, about, epoch, claimed);
      if w.Some? { SameEpochsDominated(v2, w.value); }
    }
  }

  lemma WithNodeRecords(v: View, n: NodeId, node: Node)
    requires Good(v) && n in v.nodes
    requires node.slaveof.Some? ==> node.role.Replica? && node.slaveof.value in v.nodes
    requires node.role.Replica? ==> v.nodes[n].role.Replica? || v.Bits(n) == {}
    ensures WithNode(v, n, node).nodes[n] == node && SameElection(v, WithNode(v, n, node))
  {
    hide Good;
  }

  lemma PacketDominated(v: View, m: Msg, timeOk: bool)
    requires Good(v) && Dominated(v) && HeaderDominates(m)
    ensures var w := ProcessPacket(v, m, timeOk); w.Some? ==> Dominated(w.value)
  {
    hide Good, HandlePing, HandleUpdate, LearnEpochs, GrantsVote, CountsAck, MarkFailing, SameElection;
    if m.src in v.nodes {
      LearnDominated(v, m);
      var v0 := LearnEpochs(v, m);
      match m.body
      case Ping => PingDominated(v0, m);
      case Update(about, epoch, claimed) => UpdateDominated(v0, about, epoch, claimed);
      case AuthRequest(_) =>
      case AuthAck =>
      case Fail(n) => SameEpochsDominated(v0, MarkFailing(v0, n));
    }
  }

  lemma ReplaceKeepsEpochs(v: View)
    requires Good(v)
    ensures SameEpochs(v, ReplaceMaster(v)) && SameElection(v, ReplaceMaster(v))
  {
    hide Good;
  }

  lemma FailoverDominated(v: View, t: Timing)
    requires Good(v) && Dominated(v)
    ensures Dominated(HandleFailover(v, t).0)
  {
    hide Good, ReplaceMaster, MayFailover;
    ReplaceKeepsEpochs(v);
    ReplaceKeepsEpochs(WithMyEpoch(v, v.authEpoch));
  }

  lemma BumpDominated(v: View)
    requires Good(v) && Dominated(v)
    ensures Dominated(BumpEpoch(v))
  {
    hide Good, BehindSomeEpoch, TakeNextEpoch;
    NextEpochIsNew(v);
  }

  lemma AssignDominated(v: View, epoch: nat)
    requires Good(v) && Dominated(v)
    ensures Dominated(AssignEpoch(v, epoch))
  {
    hide Good;
  }

  lemma SetSlotDominated(v: View, j: Slot, n: NodeId)
    requires Good(v) && Dominated(v)
    ensures Dominated(SetSlotToNode(v, j, n))
  {
    hide BumpEpoch;
    var v1 := if j !in v.keyed then v.(migrating := v.migrating - {j}) else v;
    BumpDominated(v1);
  }

  lemma CommandDominated(v: View, c: Command)
    requires Good(v) && Dominated(v)
    ensures Dominated(Execute(v, c))
  {
    hide Good, BumpEpoch, AssignEpoch, ReplaceMaster, SetMaster, SetSlotToNode;
    BumpDominated(v);
    match c
    case SetConfigEpoch(epoch) => AssignDominated(v, epoch);
    case SetSlotNode(j, n) => SetSlotDominated(v, j, n);
    case Takeover => ReplaceKeepsEpochs(BumpEpoch(v));
    case _ =>
  }

  lemma BuiltDominated(v: View, dst: NodeId, body: Body)
    requires Good(v) && Dominated(v)
    requires body.Update? ==> body.aboutEpoch <= v.currentEpoch
    ensures HeaderDominates(BuildMessage(v, dst, body))
  {
  }

  // -------------------------------------------------------------------- a run

  lemma DeliveryDominated(s: System, m: Msg, timeOk: bool, reply: bool)
    requires Wf(s) && EpochsDominated(s) && m in s.net && m.dst in s.views
    ensures EpochsDominated(AfterDelivery(s, m, timeOk, reply))
  {
    hide Good, ProcessPacket, BuildMessage, LearnEpochs, Votes, Counts, Dominated, HeaderDominates;
    var v := s.views[m.dst];
    assert Dominated(v) && HeaderDominates(m);
    PacketDominated(v, m, timeOk);
    var v0 := if m.src in v.nodes then LearnEpochs(v, m) else v;
    if m.src in v.nodes { LearnDominated(v, m); }
    BuiltDominated(v0, m.src, Ping);
    BuiltDominated(v0, m.src, AuthAck);
  }

  lemma FailoverStepDominated(s: System, n: NodeId, t: Timing, dsts: set<NodeId>, force: bool)
    requires Wf(s) && EpochsDominated(s) && n in s.views
    ensures EpochsDominated(AfterFailover(s, n, t, dsts, force))
  {
    hide Good, HandleFailover, BuildMessage, Dominated, HeaderDominates;
    FailoverDominated(s.views[n], t);
    var w := HandleFailover(s.views[n], t).0;
    forall d | d in dsts
      ensures HeaderDominates(BuildMessage(w, d, AuthRequest(force)))
    {
      BuiltDominated(w, d, AuthRequest(force));
    }
  }

  lemma NextDominated(s: System, step: Step)
    requires Wf(s) && Enabled(s, step) && EpochsDominated(s)
    ensures EpochsDominated(Next(s, step))
  {
    hide Good, AfterDelivery, AfterFailover, Execute, BuildMessage, OwnerIsMaster, ClusterSize, HeaderDominates;
    match step
    case Deliver(m, timeOk, reply) => DeliveryDominated(s, m, timeOk, reply);
    case Failover(n, t, dsts, force) => FailoverStepDominated(s, n, t, dsts, force);
    case SendPing(n, dst) => BuiltDominated(s.views[n], dst, Ping);
    case SendUpdate(n, dst, about) =>
      var v := s.views[n];
      BuiltDominated(v, dst, Update(about, v.nodes[about].configEpoch, v.Bits(about)));
    case SendFail(n, dst, x) => BuiltDominated(s.views[n], dst, Fail(x));
    case Admin(n, c) => CommandDominated(s.views[n], c);
    case _ =>
  }

  /** A cluster as it starts: every epoch of a node is within its current epoch (which
      clusterLoadConfig enforces), nothing is in flight, no election is under way. */
  ghost predicate Init(s: System) {
    && Wf(s)
    && (forall n | n in s.views :: Dominated(s.views[n]) && s.views[n].authCount == 0 && s.tally[n] == {})
    && s.net == multiset{} && s.votes == map[] && s.wins == {}
  }

  /** Every state of `run` follows from the one before by some step. */
  ghost predicate IsRun(run: seq<System>, steps: seq<Step>) {
    && |run| == |steps| + 1 && Init(run[0])
    && forall i | 0 <= i < |steps| ::
         Wf(run[i]) && Enabled(run[i], steps[i]) && run[i + 1] == Next(run[i], steps[i])
  }

  /** Every node, in every state of every run: the current epoch dominates all recorded
      epochs; every packet: its header dominates the epochs it carries. */
  lemma {:induction false} EpochDomination(run: seq<System>, steps: seq<Step>, i: nat)
    requires IsRun(run, steps) && i < |run|
    ensures Wf(run[i]) && EpochsDominated(run[i])
  {
    if i > 0 {
      EpochDomination(run, steps, i - 1);
      NextWf(run[i - 1], steps[i - 1]);
      NextDominated(run[i - 1], steps[i - 1]);
    }
  }

  /** In every state of every run, BUMPEPOCH, closing an imported slot, takeover and
      collision handling all hand this node an epoch above every epoch it has recorded. */
  lemma AssignedEpochIsNew(run: seq<System>, steps: seq<Step>, i: nat, n: NodeId, sender: NodeId)
    requires IsRun(run, steps) && i < |run| && n in run[i].views
    requires Wf(run[i]) && sender in run[i].views[n].nodes
    ensures var v := run[i].views[n];
            && (forall w | w == BumpEpoch(v) || w == HandleCollision(v, sender) ::
                  w != v ==> && w.Me().configEpoch == w.currentEpoch
                             && forall x | x in v.nodes :: v.nodes[x].configEpoch < w.Me().configEpoch)
  {
    hide Good;
    EpochDomination(run, steps, i);
    NextEpochIsNew(run[i].views[n]);
  }

  /** Two masters that record the same epoch for both of them: the one with the smaller
      name moves, the other does not. */
  lemma OneSideMoves(a: View, b: View)
    requires Good(a) && Good(b) && a.myself < b.myself
    requires b.myself in a.nodes && a.myself in b.nodes
    requires a.Me().role.Master? && a.nodes[b.myself].role.Master?
    requires b.Me().role.Master? && b.nodes[a.myself].role.Master?
    requires a.Me().configEpoch == a.nodes[b.myself].configEpoch
    requires Dominated(a)
    ensures HandleCollision(b, a.myself) == b
    ensures var a' := HandleCollision(a, b.myself);
            a'.Me().configEpoch > a.nodes[b.myself].configEpoch && a'.nodes[b.myself] == a.nodes[b.myself]
  {
    hide Good;
  }
}
