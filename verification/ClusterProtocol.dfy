/**
 A cluster: the view of every live node and the packets in flight. Every step is one
 handler of ClusterView run by one node; clocks, links and administrators are the free
 choices a step carries. The last three fields are history, read by no step.
 */
module ClusterProtocol {
  import opened ClusterView

  datatype System = System(
    views: map<NodeId, View>,
    net: multiset<Msg>,
    votes: map<(NodeId, nat), NodeId>,   // (voter, epoch) -> the replica voted for
    tally: map<NodeId, set<NodeId>>,     // voters a replica counted since its last reset
    wins: set<(nat, NodeId)>)            // (epoch, replica that won it)

  datatype Step =
    | Deliver(m: Msg, timeOk: bool, reply: bool)
    | Lose(m: Msg)
    | SendPing(n: NodeId, dst: NodeId)
    | SendUpdate(n: NodeId, dst: NodeId, about: NodeId)
    | SendFail(n: NodeId, dst: NodeId, failing: NodeId)
    | Failover(n: NodeId, t: Timing, dsts: set<NodeId>, force: bool)
    | UpdateState(n: NodeId)
    | Suspect(n: NodeId, x: NodeId, failed: bool)
    | Admin(n: NodeId, c: Command)

  // -------------------------------------------------------------- the transition

  ghost predicate Wf(s: System) {
    && (forall n | n in s.views :: Good(s.views[n]) && s.views[n].myself == n)
    && s.views.Keys <= s.tally.Keys
  }

  function Actor(step: Step): NodeId {
    match step
    case Deliver(m, _, _) => m.dst
    case Lose(m) => m.dst
    case SendPing(n, _) => n
    case SendUpdate(n, _, _) => n
    case SendFail(n, _, _) => n
    case Failover(n, _, _, _) => n
    case UpdateState(n) => n
    case Suspect(n, _, _) => n
    case Admin(n, _) => n
  }

  ghost predicate Enabled(s: System, step: Step)
    requires Wf(s)
  {
    && (step.Lose? || Actor(step) in s.views)
    && match step
       case Deliver(m, _, _) => m in s.net
       case Lose(m) => m in s.net
       case SendUpdate(n, _, about) => about in s.views[n].nodes
       case Suspect(n, x, _) => x in s.views[n].nodes
       case Admin(n, c) => OwnerIsMaster(s.views[n], c)
       case _ => true
  }

  /** What the handler of `m` sends: a PONG, or the vote. */
  function Replies(v: View, m: Msg, timeOk: bool, reply: bool): multiset<Msg>
    requires Good(v)
  {
    var v0 := if m.src in v.nodes then LearnEpochs(v, m) else v;
    if m.body.Ping? && reply then multiset{BuildMessage(v0, m.src, Ping)}
    else if Votes(v, m, timeOk) then multiset{BuildMessage(v0, m.src, AuthAck)}
    else multiset{}
  }

  function AfterDelivery(s: System, m: Msg, timeOk: bool, reply: bool): System
    requires Wf(s) && m.dst in s.views
  {
    var n, v := m.dst, s.views[m.dst];
    var w := ProcessPacket(v, m, timeOk);
    s.(views := if w.Some? then s.views[n := w.value] else s.views - {n},
       net := s.net - multiset{m} + Replies(v, m, timeOk, reply),
       votes := if Votes(v, m, timeOk)
                then s.votes[(n, LearnEpochs(v, m).currentEpoch) := m.src] else s.votes,
       tally := if Counts(v, m) then s.tally[n := s.tally[n] + {m.src}] else s.tally)
  }

  function AfterFailover(s: System, n: NodeId, t: Timing, dsts: set<NodeId>, force: bool): System
    requires Wf(s) && n in s.views
  {
    var (w, action) := HandleFailover(s.views[n], t);
    var s1 := s.(views := s.views[n := w]);
    match action
    case Nothing => s1
    case Scheduled => s1.(tally := s.tally[n := {}])
    case AskVotes => s1.(net := s.net + multiset(set d | d in dsts :: BuildMessage(w, d, AuthRequest(force))))
    case Won => s1.(wins := s.wins + {(w.authEpoch, n)})
  }

  ghost function Next(s: System, step: Step): System
    requires Wf(s) && Enabled(s, step)
  {
    match step
    case Deliver(m, timeOk, reply) => AfterDelivery(s, m, timeOk, reply)
    case Lose(m) => s.(net := s.net - multiset{m})
    case SendPing(n, dst) => s.(net := s.net + multiset{BuildMessage(s.views[n], dst, Ping)})
    case SendUpdate(n, dst, about) => s.(net := s.net + multiset{BuildUpdate(s.views[n], dst, about)})
    case SendFail(n, dst, x) => s.(net := s.net + multiset{BuildMessage(s.views[n], dst, Fail(x))})
    case Failover(n, t, dsts, force) => AfterFailover(s, n, t, dsts, force)
    case UpdateState(n) => s.(views := s.views[n := s.views[n].(size := ClusterSize(s.views[n]))])
    case Suspect(n, x, failed) =>
      s.(views := s.views[n := WithNode(s.views[n], x, s.views[n].nodes[x].(failed := failed))])
    case Admin(n, c) => s.(views := s.views[n := Execute(s.views[n], c)])
  }

  lemma ExecuteKeepsName(v: View, c: Command)
    requires Good(v)
    ensures Execute(v, c).myself == v.myself
  {
    hide Good;
  }

  lemma FailoverKeepsName(v: View, t: Timing)
    requires Good(v)
    ensures HandleFailover(v, t).0.myself == v.myself
  {
    hide Good;
  }

  lemma DeliveryWf(s: System, m: Msg, timeOk: bool, reply: bool)
    requires Wf(s) && m.dst in s.views
    ensures Wf(AfterDelivery(s, m, timeOk, reply))
  {
    hide Good, ProcessPacket, Replies, Votes, Counts;
  }

  lemma FailoverWf(s: System, n: NodeId, t: Timing, dsts: set<NodeId>, force: bool)
    requires Wf(s) && n in s.views
    ensures Wf(AfterFailover(s, n, t, dsts, force))
  {
    hide Good, HandleFailover, BuildMessage;
    FailoverKeepsName(s.views[n], t);
  }

  lemma NextWf(s: System, step: Step)
    requires Wf(s) && Enabled(s, step)
    ensures Wf(Next(s, step))
  {
    hide Good, AfterDelivery, AfterFailover, Execute, BuildMessage, BuildUpdate, OwnerIsMaster, ClusterSize;
    match step
    case Admin(n, c) => ExecuteGood(s.views[n], c); ExecuteKeepsName(s.views[n], c);
    case Deliver(m, timeOk, reply) => DeliveryWf(s, m, timeOk, reply);
    case Failover(n, t, dsts, force) => FailoverWf(s, n, t, dsts, force);
    case UpdateState(n) => SizeGood(s.views[n], ClusterSize(s.views[n]));
    case _ =>
  }

  lemma SizeGood(v: View, k: nat)
    requires Good(v)
    ensures Good(v.(size := k))
  {
  }
}
