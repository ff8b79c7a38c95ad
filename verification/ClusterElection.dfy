/**
 Election safety. `voters(e)` is the set of masters entitled to vote in epoch `e`. In
 every run in which votes come from the entitled, replicas do not undercount them, and
 no ack of an abandoned election lands before the next request, no epoch has two winners.
 */
module ClusterElection {
  import opened ClusterView
  import opened ClusterProtocol
  import opened ClusterEpochs

  type Electorate = nat -> set<NodeId>

  /** What is assumed of the steps of a run. Nothing is assumed of links, clocks, the
      order of packets, or of what nodes learn about roles, slots and failures. */
  ghost predicate Orderly(s: System, step: Step, voters: Electorate)
    requires Wf(s) && Enabled(s, step)
  {
    match step
    case Deliver(m, timeOk, _) =>
      var v := s.views[m.dst];
      && (Votes(v, m, timeOk) ==> m.dst in voters(LearnEpochs(v, m).currentEpoch))
      && (Counts(v, m) ==> v.authSent)
    case Failover(n, t, _, _) =>
      HandleFailover(s.views[n], t).1.Won? ==> |voters(s.views[n].authEpoch)| <= s.views[n].size
    case _ => true
  }

  // --------------------------------------------------------------- the invariant

  /** Votes are dated no later than the voter's last vote and the candidate's election. */
  ghost predicate VotesDated(s: System, voters: Electorate) {
    forall n, e | (n, e) in s.votes ::
      && n in voters(e)
      && (n in s.views ==> e <= s.views[n].lastVoteEpoch)
      && (s.votes[(n, e)] in s.views ==> e <= s.views[s.votes[(n, e)]].authEpoch)
  }

  ghost predicate RequestsDated(s: System) {
    forall m | m in s.net && m.body.AuthRequest? && m.src in s.views ::
      m.currentEpoch <= s.views[m.src].authEpoch
  }

  /** An ack in flight is the only trace of one vote. */
  ghost predicate AckIsVote(s: System, m: Msg) {
    && s.net[m] == 1
    && (m.src, m.currentEpoch) in s.votes
    && s.votes[(m.src, m.currentEpoch)] == m.dst
    && (m.dst in s.views && m.dst in s.tally && s.views[m.dst].authSent && m.currentEpoch == s.views[m.dst].authEpoch
        ==> m.src !in s.tally[m.dst])
  }

  ghost predicate AcksAreVotes(s: System) {
    && (forall m | m in s.net && m.body.AuthAck? :: AckIsVote(s, m))
    && (forall m, m' | m in s.net && m' in s.net && m.body.AuthAck? && m'.body.AuthAck?
                       && m.src == m'.src && m.currentEpoch == m'.currentEpoch :: m == m')
  }

  /** The count of a candidate is the number of votes it holds for its election. */
  ghost predicate TallyIsVotes(s: System, n: NodeId)
    requires n in s.views && n in s.tally
  {
    && s.views[n].authCount == |s.tally[n]|
    && (!s.views[n].authSent ==> s.tally[n] == {})
    && AllVotedFor(s, s.tally[n], s.views[n].authEpoch, n)
  }

  ghost predicate VotedFor(s: System, voter: NodeId, e: nat, c: NodeId) {
    (voter, e) in s.votes && s.votes[(voter, e)] == c
  }

  ghost predicate TalliesAreVotes(s: System)
    requires Wf(s)
  {
    forall n | n in s.views :: TallyIsVotes(s, n)
  }

  ghost predicate Quorum(q: set<NodeId>, all: set<NodeId>) {
    q <= all && |all| < 2 * |q|
  }

  ghost predicate WonByQuorum(s: System, e: nat, c: NodeId, voters: Electorate) {
    exists q :: Quorum(q, voters(e)) && AllVotedFor(s, q, e, c)
  }

  ghost predicate AllVotedFor(s: System, q: set<NodeId>, e: nat, c: NodeId) {
    forall x | x in q :: VotedFor(s, x, e, c)
  }

  ghost predicate ElectionInv(s: System, voters: Electorate)
    requires Wf(s)
  {
    && VotesDated(s, voters)
    && RequestsDated(s)
    && AcksAreVotes(s)
    && TalliesAreVotes(s)
    && forall e, c | (e, c) in s.wins :: WonByQuorum(s, e, c, voters)
  }

  // ---------------------------------------------------------------- its upkeep

  /** Votes are never withdrawn, so wins stay won. */
  lemma WinsStay(s: System, s': System, voters: Electorate)
    requires forall k | k in s.votes :: k in s'.votes && s'.votes[k] == s.votes[k]
    ensures forall e, c | WonByQuorum(s, e, c, voters) :: WonByQuorum(s', e, c, voters)
  {
    forall e, c | WonByQuorum(s, e, c, voters)
      ensures WonByQuorum(s', e, c, voters)
    {
      var q :| Quorum(q, voters(e)) && AllVotedFor(s, q, e, c);
      assert AllVotedFor(s', q, e, c);
    }
  }

  /** A step that sends no election packet and leaves one node's election state alone. */
  ghost predicate Quiet(s: System, s': System, n: NodeId)
    requires n in s.views
  {
    && s'.votes == s.votes && s'.tally == s.tally && s'.wins == s.wins
    && (s'.views.Keys == s.views.Keys || s'.views.Keys == s.views.Keys - {n})
    && (forall x | x in s'.views ::
          && s'.views[x].authEpoch == s.views[x].authEpoch
          && s'.views[x].authCount == s.views[x].authCount
          && s'.views[x].authSent == s.views[x].authSent
          && s'.views[x].lastVoteEpoch == s.views[x].lastVoteEpoch)
    && (forall m: Msg | m.body.AuthAck? || m.body.AuthRequest? :: s'.net[m] <= s.net[m])
  }

  lemma QuietKeeps(s: System, s': System, n: NodeId, voters: Electorate)
    requires Wf(s) && Wf(s') && n in s.views && Quiet(s, s', n) && ElectionInv(s, voters)
    ensures ElectionInv(s', voters)
  {
    hide Good, Quorum;
    assert forall m | m in s'.net && (m.body.AuthAck? || m.body.AuthRequest?) :: m in s.net;
    assert AcksAreVotes(s');
    assert TalliesAreVotes(s');
    WinsStay(s, s', voters);
  }

  /** Only node `n` changed, and of its election state only what `w` says. */
  ghost predicate Became(s: System, s': System, n: NodeId, last: nat, epoch: nat, count: nat, sent: bool)
    requires n in s.views
  {
    && s'.views.Keys == s.views.Keys
    && (forall x | x in s.views && x != n :: s'.views[x] == s.views[x])
    && s'.views[n].lastVoteEpoch == last
    && s'.views[n].authEpoch == epoch
    && s'.views[n].authCount == count
    && s'.views[n].authSent == sent
  }

  /** A vote: the voter has not voted in this epoch before, and the vote is for the
      election the request belongs to. */
  ghost predicate Grant(s: System, s': System, m: Msg, ack: Msg) {
    && m in s.net && m.body.AuthRequest? && m.dst in s.views
    && s.views[m.dst].lastVoteEpoch < m.currentEpoch
    && (var v := s.views[m.dst]; Became(s, s', m.dst, m.currentEpoch, v.authEpoch, v.authCount, v.authSent))
    && ack.body.AuthAck? && ack.src == m.dst && ack.dst == m.src && ack.currentEpoch == m.currentEpoch
    && s' == s.(views := s'.views, net := s.net - multiset{m} + multiset{ack},
                votes := s.votes[(m.dst, m.currentEpoch) := m.src])
  }

  lemma GrantAcks(s: System, s': System, m: Msg, ack: Msg, voters: Electorate)
    requires Wf(s) && Wf(s') && ElectionInv(s, voters) && Grant(s, s', m, ack)
    ensures AcksAreVotes(s')
  {
    hide Good, Quorum, WonByQuorum, RequestsDated, Wf, TallyIsVotes;
    assert (m.dst, m.currentEpoch) !in s.votes;
    assert ack in s.net ==> AckIsVote(s, ack);
    forall x | x in s'.net && x.body.AuthAck? ensures AckIsVote(s', x) {
      if x == ack {
        NewAckUncounted(s, m);
      } else {
        assert AckIsVote(s, x);
      }
    }
  }

  /** A candidate has not counted a vote that has not been cast. */
  lemma NewAckUncounted(s: System, m: Msg)
    requires Wf(s) && TalliesAreVotes(s) && (m.dst, m.currentEpoch) !in s.votes
    ensures m.src in s.views && m.src in s.tally && m.currentEpoch == s.views[m.src].authEpoch ==> m.dst !in s.tally[m.src]
  {
    hide Good;
    assert m.src in s.views ==> TallyIsVotes(s, m.src);
  }

  lemma GrantTallies(s: System, s': System, m: Msg, ack: Msg, voters: Electorate)
    requires Wf(s) && Wf(s') && ElectionInv(s, voters) && Grant(s, s', m, ack)
    ensures TalliesAreVotes(s')
  {
    hide Good, Quorum, WonByQuorum, AckIsVote;
    assert (m.dst, m.currentEpoch) !in s.votes;
    forall n | n in s'.views ensures TallyIsVotes(s', n) {
      assert TallyIsVotes(s, n);
      assert AllVotedFor(s', s.tally[n], s.views[n].authEpoch, n);
    }
  }

  lemma GrantKeeps(s: System, s': System, m: Msg, ack: Msg, voters: Electorate)
    requires Wf(s) && Wf(s') && ElectionInv(s, voters) && Grant(s, s', m, ack)
    requires m.dst in voters(m.currentEpoch)
    ensures ElectionInv(s', voters)
  {
    hide Wf, Quorum, AckIsVote, TallyIsVotes;
    GrantAcks(s, s', m, ack, voters);
    GrantTallies(s, s', m, ack, voters);
    GrantDated(s, s', m, ack, voters);
    assert (m.dst, m.currentEpoch) !in s.votes;
    WinsStay(s, s', voters);
  }

  lemma GrantDated(s: System, s': System, m: Msg, ack: Msg, voters: Electorate)
    requires VotesDated(s, voters) && RequestsDated(s) && Grant(s, s', m, ack)
    requires m.dst in voters(m.currentEpoch)
    ensures VotesDated(s', voters) && RequestsDated(s')
  {
  }

  /** An ack that is counted belongs to the current election and was not counted yet. */
  ghost predicate Count(s: System, s': System, m: Msg) {
    && m in s.net && m.body.AuthAck? && m.dst in s.views && m.dst in s.tally
    && s.views[m.dst].authSent && m.currentEpoch >= s.views[m.dst].authEpoch
    && (var v := s.views[m.dst]; Became(s, s', m.dst, v.lastVoteEpoch, v.authEpoch, v.authCount + 1, true))
    && s' == s.(views := s'.views, net := s.net - multiset{m},
                tally := s.tally[m.dst := s.tally[m.dst] + {m.src}])
  }

  lemma CountTallies(s: System, s': System, m: Msg, voters: Electorate)
    requires Wf(s) && Wf(s') && ElectionInv(s, voters) && Count(s, s', m)
    ensures TalliesAreVotes(s')
  {
    hide Good, Quorum, WonByQuorum;
    assert AckIsVote(s, m);
    forall n | n in s'.views ensures TallyIsVotes(s', n) {
      assert TallyIsVotes(s, n);
      if n == m.dst { assert VotedFor(s, m.src, s.views[n].authEpoch, n); }
      assert AllVotedFor(s', s'.tally[n], s.views[n].authEpoch, n);
    }
  }

  lemma CountKeeps(s: System, s': System, m: Msg, voters: Electorate)
    requires Wf(s) && Wf(s') && ElectionInv(s, voters) && Count(s, s', m)
    ensures ElectionInv(s', voters)
  {
    hide Good, Quorum, TallyIsVotes;
    CountTallies(s, s', m, voters);
    assert AckIsVote(s, m);
    assert m !in s'.net;
    WinsStay(s, s', voters);
    forall x | x in s'.net && x.body.AuthAck? ensures AckIsVote(s', x) {
      assert AckIsVote(s, x);
    }
    assert VotesDated(s', voters) && RequestsDated(s');
  }

  lemma ResetKeeps(s: System, s': System, n: NodeId, voters: Electorate)
    requires Wf(s) && Wf(s') && ElectionInv(s, voters) && n in s.views
    requires var v := s.views[n]; Became(s, s', n, v.lastVoteEpoch, v.authEpoch, 0, false)
    requires s' == s.(views := s'.views, tally := s.tally[n := {}])
    ensures ElectionInv(s', voters)
  {
    hide Good, Quorum;
    WinsStay(s, s', voters);
    forall x | x in s'.net && x.body.AuthAck? ensures AckIsVote(s', x) {
      assert AckIsVote(s, x);
    }
    forall x | x in s'.views ensures TallyIsVotes(s', x) {
      assert TallyIsVotes(s, x);
    }
    assert VotesDated(s', voters) && RequestsDated(s');
  }

  /** A new election: its epoch is newer than any vote this replica ever received. */
  lemma AskKeeps(s: System, s': System, n: NodeId, epoch: nat, voters: Electorate)
    requires Wf(s) && Wf(s') && ElectionInv(s, voters) && n in s.views
    requires !s.views[n].authSent && s.views[n].authEpoch < epoch
    requires var v := s.views[n]; Became(s, s', n, v.lastVoteEpoch, epoch, v.authCount, true)
    requires s' == s.(views := s'.views, net := s'.net)
    requires forall m | m in s'.net :: s'.net[m] == s.net[m] || (m.body.AuthRequest? && m.src == n && m.currentEpoch == epoch)
    requires forall m | m in s'.net && m !in s.net :: m.body.AuthRequest? && m.src == n && m.currentEpoch == epoch
    ensures ElectionInv(s', voters)
  {
    hide Good, Quorum, VotesDated, RequestsDated;
    WinsStay(s, s', voters);
    forall x | x in s'.net && x.body.AuthAck? ensures AckIsVote(s', x) {
      assert AckIsVote(s, x);
    }
    forall x | x in s'.views ensures TallyIsVotes(s', x) {
      assert TallyIsVotes(s, x);
    }
    AskDated(s, s', n, epoch, voters);
  }

  lemma AskDated(s: System, s': System, n: NodeId, epoch: nat, voters: Electorate)
    requires Wf(s) && VotesDated(s, voters) && RequestsDated(s) && n in s.views && s.views[n].authEpoch < epoch
    requires var v := s.views[n]; Became(s, s', n, v.lastVoteEpoch, epoch, v.authCount, true)
    requires s' == s.(views := s'.views, net := s'.net)
    requires forall m | m in s'.net && m !in s.net :: m.body.AuthRequest? && m.src == n && m.currentEpoch == epoch
    ensures VotesDated(s', voters) && RequestsDated(s')
  {
    hide Good;
  }

  lemma WinKeeps(s: System, s': System, n: NodeId, voters: Electorate)
    requires Wf(s) && Wf(s') && ElectionInv(s, voters) && n in s.views
    requires var v := s.views[n]; Became(s, s', n, v.lastVoteEpoch, v.authEpoch, v.authCount, v.authSent)
    requires s' == s.(views := s'.views, wins := s.wins + {(s.views[n].authEpoch, n)})
    requires s.views[n].authCount >= s.views[n].size / 2 + 1
    requires |voters(s.views[n].authEpoch)| <= s.views[n].size
    ensures ElectionInv(s', voters)
  {
    hide Good;
    var mid := s.(views := s'.views);
    QuietKeeps(s, mid, n, voters);
    assert TallyIsVotes(s, n);
    var e := s.views[n].authEpoch;
    assert AllVotedFor(s, s.tally[n], e, n);
    assert Quorum(s.tally[n], voters(e)) by {
      assert forall x | x in s.tally[n] :: (x, e) in s.votes;
    }
    assert WonByQuorum(s, e, n, voters);
    WinsStay(s, s', voters);
    assert AcksAreVotes(s') by { assert forall x | x in s'.net && x.body.AuthAck? :: AckIsVote(mid, x); }
    assert TalliesAreVotes(s') by { assert forall x | x in s'.views :: TallyIsVotes(mid, x); }
  }

  // ----------------------------------------------------------- the real steps

  lemma WfView(s: System, n: NodeId)
    requires Wf(s) && n in s.views
    ensures Good(s.views[n]) && s.views[n].myself == n && n in s.tally
  {
  }

  lemma VoteDelivered(s: System, m: Msg, timeOk: bool, reply: bool, voters: Electorate)
    requires Wf(s) && m in s.net && m.dst in s.views && Dominated(s.views[m.dst]) && ElectionInv(s, voters)
    requires Votes(s.views[m.dst], m, timeOk)
    requires m.dst in voters(LearnEpochs(s.views[m.dst], m).currentEpoch)
    ensures Wf(AfterDelivery(s, m, timeOk, reply)) && ElectionInv(AfterDelivery(s, m, timeOk, reply), voters)
  {
    hide Good, Wf, Dominated, ElectionInv, ProcessPacket, LearnEpochs, GrantsVote, CountsAck, BuildMessage;
    DeliveryWf(s, m, timeOk, reply);
    WfView(s, m.dst);
    var s' := AfterDelivery(s, m, timeOk, reply);
    var v := s.views[m.dst];
    VoteEpoch(v, m, timeOk);
    var ack := BuildMessage(LearnEpochs(v, m), m.src, AuthAck);
    BuiltHeader(LearnEpochs(v, m), m.src, AuthAck);
    RequestSurvives(v, m, timeOk);
    GrantKeeps(s, s', m, ack, voters);
  }

  lemma AckDelivered(s: System, m: Msg, timeOk: bool, reply: bool, voters: Electorate)
    requires Wf(s) && m in s.net && m.dst in s.views && ElectionInv(s, voters)
    requires Counts(s.views[m.dst], m) && s.views[m.dst].authSent
    ensures Wf(AfterDelivery(s, m, timeOk, reply)) && ElectionInv(AfterDelivery(s, m, timeOk, reply), voters)
  {
    hide Good, Wf, ElectionInv, ProcessPacket, LearnEpochs, CountsAck, GrantsVote, BuildMessage;
    DeliveryWf(s, m, timeOk, reply);
    WfView(s, m.dst);
    var s' := AfterDelivery(s, m, timeOk, reply);
    AckSurvives(s.views[m.dst], m, timeOk);
    assert s'.net == s.net - multiset{m};
    CountKeeps(s, s', m, voters);
  }

  lemma OtherDelivered(s: System, m: Msg, timeOk: bool, reply: bool, voters: Electorate)
    requires Wf(s) && m in s.net && m.dst in s.views && ElectionInv(s, voters)
    requires !Votes(s.views[m.dst], m, timeOk) && !Counts(s.views[m.dst], m)
    ensures Wf(AfterDelivery(s, m, timeOk, reply)) && ElectionInv(AfterDelivery(s, m, timeOk, reply), voters)
  {
    hide Good, Wf, ElectionInv, ProcessPacket, LearnEpochs, Votes, Counts, BuildMessage;
    DeliveryWf(s, m, timeOk, reply);
    WfView(s, m.dst);
    var v := s.views[m.dst];
    BuiltHeader(if m.src in v.nodes then LearnEpochs(v, m) else v, m.src, Ping);
    QuietKeeps(s, AfterDelivery(s, m, timeOk, reply), m.dst, voters);
  }

  lemma BuiltHeader(v: View, dst: NodeId, body: Body)
    requires Good(v)
    ensures var m := BuildMessage(v, dst, body);
            m.src == v.myself && m.dst == dst && m.currentEpoch == v.currentEpoch && m.body == body
  {
  }

  /** A vote is cast in the epoch of its request, and the voter's last vote is older. */
  lemma VoteEpoch(v: View, m: Msg, timeOk: bool)
    requires Good(v) && Dominated(v) && Votes(v, m, timeOk)
    ensures LearnEpochs(v, m).currentEpoch == m.currentEpoch && v.lastVoteEpoch < m.currentEpoch
  {
    hide Good, WithNode;
  }

  lemma RequestSurvives(v: View, m: Msg, timeOk: bool)
    requires Good(v) && m.body.AuthRequest?
    ensures ProcessPacket(v, m, timeOk).Some?
  {
    hide Good, LearnEpochs, VoteIfNeeded;
  }

  lemma AckSurvives(v: View, m: Msg, timeOk: bool)
    requires Good(v) && Counts(v, m)
    ensures ProcessPacket(v, m, timeOk).Some? && m.currentEpoch >= v.authEpoch
  {
    hide Good, LearnEpochs, CountAck;
  }

  lemma FailoverKeeps(s: System, n: NodeId, t: Timing, dsts: set<NodeId>, force: bool, voters: Electorate)
    requires Wf(s) && n in s.views && Dominated(s.views[n]) && ElectionInv(s, voters)
    requires HandleFailover(s.views[n], t).1.Won? ==> |voters(s.views[n].authEpoch)| <= s.views[n].size
    ensures Wf(AfterFailover(s, n, t, dsts, force)) && ElectionInv(AfterFailover(s, n, t, dsts, force), voters)
  {
    hide Good, Wf, ElectionInv, HandleFailover, BuildMessage;
    FailoverWf(s, n, t, dsts, force);
    WfView(s, n);
    FailoverFrame(s.views[n], t);
    var s' := AfterFailover(s, n, t, dsts, force);
    var (w, action) := HandleFailover(s.views[n], t);
    match action
    case Nothing => QuietKeeps(s, s', n, voters);
    case Scheduled => ResetKeeps(s, s', n, voters);
    case AskVotes =>
      forall d | d in dsts
        ensures var m := BuildMessage(w, d, AuthRequest(force));
                m.body.AuthRequest? && m.src == n && m.currentEpoch == w.authEpoch
      {
        BuiltHeader(w, d, AuthRequest(force));
      }
      AskKeeps(s, s', n, w.authEpoch, voters);
    case Won => WinKeeps(s, s', n, voters);
  }

  /** What clusterHandleSlaveFailover does to the election state, action by action. */
  lemma FailoverFrame(v: View, t: Timing)
    requires Good(v) && Dominated(v)
    ensures var (w, action) := HandleFailover(v, t);
            && w.myself == v.myself && w.lastVoteEpoch == v.lastVoteEpoch
            && match action
               case Nothing => w == v
               case Scheduled => w == v.(authCount := 0, authSent := false)
               case AskVotes =>
                 && !v.authSent && w.authSent && w.authCount == v.authCount
                 && w.authEpoch == w.currentEpoch > v.authEpoch
               case Won =>
                 && w.authSent == v.authSent && w.authCount == v.authCount && w.authEpoch == v.authEpoch
                 && v.authSent && v.authCount >= v.size / 2 + 1
  {
    hide Good, MayFailover;
  }

  lemma SendKeeps(s: System, m: Msg, n: NodeId, voters: Electorate)
    requires Wf(s) && n in s.views && ElectionInv(s, voters) && !m.body.AuthAck? && !m.body.AuthRequest?
    ensures ElectionInv(s.(net := s.net + multiset{m}), voters)
  {
    hide Good, ElectionInv;
    QuietKeeps(s, s.(net := s.net + multiset{m}), n, voters);
  }

  lemma ViewKeeps(s: System, n: NodeId, w: View, voters: Electorate)
    requires Wf(s) && n in s.views && ElectionInv(s, voters)
    requires Good(w) && EpochGrew(s.views[n].(size := w.size), w)
    ensures Wf(s.(views := s.views[n := w])) && ElectionInv(s.(views := s.views[n := w]), voters)
  {
    hide Good, ElectionInv;
    QuietKeeps(s, s.(views := s.views[n := w]), n, voters);
  }

  lemma CommandFrame(v: View, c: Command)
    requires Good(v)
    ensures EpochGrew(v, Execute(v, c))
  {
    hide Good, BumpEpoch, SetMaster, SetSlotToNode, ReplaceMaster, DelNode;
    match c
    case SetSlotNode(j, n) => SetSlotFrame(v, j, n);
    case Forget(n) => if n in v.nodes && n != v.myself { DelNodeFrame(v, n); }
    case Takeover => ReplaceKeepsEpochs(BumpEpoch(v));
    case _ =>
  }

  lemma SetSlotFrame(v: View, j: Slot, n: NodeId)
    requires Good(v)
    ensures EpochGrew(v, SetSlotToNode(v, j, n))
  {
    hide Good, BumpEpoch;
  }

  lemma DelNodeFrame(v: View, n: NodeId)
    requires Good(v) && n in v.nodes && n != v.myself
    ensures EpochGrew(v, DelNode(v, n))
  {
    hide Good;
  }

  lemma LoseKeeps(s: System, m: Msg, voters: Electorate)
    requires Wf(s) && m in s.net && ElectionInv(s, voters)
    ensures ElectionInv(s.(net := s.net - multiset{m}), voters)
  {
    hide Good, Quorum;
    var s' := s.(net := s.net - multiset{m});
    forall x | x in s'.net && x.body.AuthAck? ensures AckIsVote(s', x) {
      assert AckIsVote(s, x);
    }
    forall x | x in s'.views ensures TallyIsVotes(s', x) {
      assert TallyIsVotes(s, x);
    }
    WinsStay(s, s', voters);
  }

  lemma NextKeeps(s: System, step: Step, voters: Electorate)
    requires Wf(s) && Enabled(s, step) && EpochsDominated(s) && Orderly(s, step, voters) && ElectionInv(s, voters)
    ensures Wf(Next(s, step)) && ElectionInv(Next(s, step), voters)
  {
    hide Good, Wf, ElectionInv, Dominated, Votes, Counts, AfterDelivery, AfterFailover, HandleFailover, Execute,
         BuildMessage, OwnerIsMaster, ClusterSize, LearnEpochs;
    NextWf(s, step);
    var n := Actor(step);
    if n in s.views { WfView(s, n); }
    match step
    case Deliver(m, timeOk, reply) =>
      if Votes(s.views[n], m, timeOk) { VoteDelivered(s, m, timeOk, reply, voters); }
      else if Counts(s.views[n], m) { AckDelivered(s, m, timeOk, reply, voters); }
      else { OtherDelivered(s, m, timeOk, reply, voters); }
    case Lose(m) => LoseKeeps(s, m, voters);
    case SendPing(_, dst) =>
      BuiltHeader(s.views[n], dst, Ping);
      SendKeeps(s, BuildMessage(s.views[n], dst, Ping), n, voters);
    case SendUpdate(_, dst, about) =>
      BuiltHeader(s.views[n], dst, Update(about, s.views[n].nodes[about].configEpoch, s.views[n].Bits(about)));
      SendKeeps(s, BuildUpdate(s.views[n], dst, about), n, voters);
    case SendFail(_, dst, x) =>
      BuiltHeader(s.views[n], dst, Fail(x));
      SendKeeps(s, BuildMessage(s.views[n], dst, Fail(x)), n, voters);
    case Failover(_, t, dsts, force) => FailoverKeeps(s, n, t, dsts, force, voters);
    case UpdateState(_) =>
      SizeGood(s.views[n], ClusterSize(s.views[n]));
      ViewKeeps(s, n, s.views[n].(size := ClusterSize(s.views[n])), voters);
    case Suspect(_, x, failed) => SuspectKeeps(s, n, x, failed, voters);
    case Admin(_, c) =>
      ExecuteGood(s.views[n], c);
      CommandFrame(s.views[n], c);
      ViewKeeps(s, n, Execute(s.views[n], c), voters);
  }

  lemma SuspectKeeps(s: System, n: NodeId, x: NodeId, failed: bool, voters: Electorate)
    requires Wf(s) && n in s.views && x in s.views[n].nodes && ElectionInv(s, voters)
    ensures ElectionInv(s.(views := s.views[n := WithNode(s.views[n], x, s.views[n].nodes[x].(failed := failed))]), voters)
  {
    hide ElectionInv;
    ViewKeeps(s, n, WithNode(s.views[n], x, s.views[n].nodes[x].(failed := failed)), voters);
  }

  // ----------------------------------------------------------------- the theorem

  ghost predicate OrderlyRun(run: seq<System>, steps: seq<Step>, voters: Electorate) {
    IsRun(run, steps) && forall i | 0 <= i < |steps| :: Orderly(run[i], steps[i], voters)
  }

  lemma {:induction false} InvariantHolds(run: seq<System>, steps: seq<Step>, voters: Electorate, i: nat)
    requires OrderlyRun(run, steps, voters) && i < |run|
    ensures Wf(run[i]) && ElectionInv(run[i], voters)
  {
    hide Good, Next, Enabled, Orderly;
    if i > 0 {
      InvariantHolds(run, steps, voters, i - 1);
      EpochDomination(run, steps, i - 1);
      NextKeeps(run[i - 1], steps[i - 1], voters);
    }
  }

  lemma QuorumsMeet(a: set<NodeId>, b: set<NodeId>, all: set<NodeId>)
    requires Quorum(a, all) && Quorum(b, all)
    ensures a * b != {}
  {
    if a * b == {} {
      assert |a + b| == |a| + |b|;
      SubsetSize(a + b, all);
    }
  }

  lemma {:induction false} SubsetSize(a: set<NodeId>, b: set<NodeId>)
    requires a <= b
    ensures |a| <= |b|
  {
    if a != {} {
      var x :| x in a;
      SubsetSize(a - {x}, b - {x});
    }
  }

  /** No epoch is won by two replicas. */
  lemma ElectionSafety(run: seq<System>, steps: seq<Step>, voters: Electorate, i: nat, e: nat, a: NodeId, b: NodeId)
    requires OrderlyRun(run, steps, voters) && i < |run|
    requires (e, a) in run[i].wins && (e, b) in run[i].wins
    ensures a == b
  {
    InvariantHolds(run, steps, voters, i);
    var qa :| Quorum(qa, voters(e)) && AllVotedFor(run[i], qa, e, a);
    var qb :| Quorum(qb, voters(e)) && AllVotedFor(run[i], qb, e, b);
    QuorumsMeet(qa, qb, voters(e));
    var x :| x in qa * qb;
    assert VotedFor(run[i], x, e, a) && VotedFor(run[i], x, e, b);
  }
}
