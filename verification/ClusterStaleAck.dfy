/**
 A count of votes must not outlive its election. Here replica 4 of master 1 asks for votes in
 epoch 4, masters 1 and 3 vote for it, and their acks are late: the replica gives the election
 up, resets its count, and only then do they arrive. They still count, because the epoch of
 the next election is not set before its votes are asked for.
 */
module ClusterStaleAck {
  import opened Wrappers
  import opened ClusterView
  import opened ClusterProtocol
  import opened ClusterEpochs
  import opened ClusterDoubleWin

  const RETRY := Timing(true, false, false, true, false, false)

  const V4reset := At(4, NODES, SLOTS, 4, 0, 4, 0, false)
  const V4late := At(4, NODES, SLOTS, 4, 0, 4, 1, false)
  const V4later := At(4, NODES, SLOTS, 4, 0, 4, 2, false)
  const V4again := At(4, NODES, SLOTS, 5, 0, 5, 2, true)

  lemma LateGood()
    ensures Good(V4asked) && Good(V4reset) && Good(V4late) && Good(V4later) && Good(V4again)
  {
    hide Good;
    GoodAt(4, NODES, 4, 0, 4, 0, true);
    GoodAt(4, NODES, 4, 0, 4, 0, false);
    GoodAt(4, NODES, 4, 0, 4, 1, false);
    GoodAt(4, NODES, 4, 0, 4, 2, false);
    GoodAt(4, NODES, 5, 0, 5, 2, true);
  }

  /** The handler of replica 4, four times. */
  lemma LateFailover()
    requires Good(V4asked) && Good(V4later) && Good(V4again)
    ensures HandleFailover(V4asked, RETRY) == (V4reset, Scheduled)
    ensures HandleFailover(V4later, MANUAL) == (V4again, AskVotes)
    ensures HandleFailover(V4again, MANUAL).1.Won? && HandleFailover(V4again, MANUAL).0.authEpoch == 5
  {
    hide Good;
    BitsOf(V4asked);
    BitsOf(V4later);
    BitsOf(V4again);
  }

  lemma LateCount()
    requires Good(V4reset) && Good(V4late) && Good(V4later)
    ensures ProcessPacket(V4reset, ACK14, true) == Some(V4late)
    ensures ProcessPacket(V4late, ACK34, true) == Some(V4later)
  {
    hide Good;
    BitsOf(V4reset);
    BitsOf(V4late);
    assert LearnEpochs(V4reset, ACK14) == V4reset;
    assert LearnEpochs(V4late, ACK34) == V4late;
  }

  /** Node 4 runs its failover handler; it asks node 2, if anybody. */
  lemma FailoverRuns(run: seq<System>, steps: seq<Step>, v1: View, v2: View, v3: View, v4: View, v5: View,
                     net: multiset<Msg>, wins: set<(nat, NodeId)>, t: Timing, w: View, action: FailoverAction)
    returns (run': seq<System>, steps': seq<Step>)
    requires Ends(run, steps, v1, v2, v3, v4, v5, net, wins)
    requires Good(v4) && HandleFailover(v4, t) == (w, action)
    ensures Good(w)
    ensures Ends(run', steps', v1, v2, v3, w, v5,
                 if action.AskVotes? then net + multiset{BuildMessage(w, 2, AuthRequest(true))} else net,
                 if action.Won? then wins + {(w.authEpoch, 4)} else wins)
  {
    hide Good, IsRun, Wf, HandleFailover, BuildMessage, Views;
    ViewAt(v1, v2, v3, v4, v5, 4, w);
    var s, step := run[|run| - 1], Failover(4, t, {2}, true);
    Extend(run, steps, step);
    run', steps' := run + [Next(s, step)], steps + [step];
    assert (set d | d in {2} :: BuildMessage(w, d, AuthRequest(true))) == {BuildMessage(w, 2, AuthRequest(true))};
  }

  lemma LateRun(p: Script, reset: View, late: View, later: View, again: View, w: View)
    returns (run: seq<System>, steps: seq<Step>)
    requires Plays(p) && Good(p.dAsked) && HandleFailover(p.dAsked, RETRY) == (reset, Scheduled)
    requires Handles(reset, p.ackAD, 4, late, multiset{}) && Handles(late, p.ackCD, 4, later, multiset{})
    requires Good(later) && HandleFailover(later, MANUAL) == (again, AskVotes)
    requires Good(again) && HandleFailover(again, MANUAL) == (w, Won)
    ensures Ends(run, steps, p.a', p.b, p.c', w, p.e, multiset{BuildMessage(again, 2, AuthRequest(true))}, {(w.authEpoch, 4)})
  {
    hide Good, Handles, Asks, Wins, Dominated, BuildMessage, Ends, HandleFailover, IsRun, Wf;
    run, steps := LateVotes(p);
    var acks := multiset{p.ackCD} + multiset{p.ackAD};
    run, steps := FailoverRuns(run, steps, p.a', p.b, p.c', p.dAsked, p.e, acks, {}, RETRY, reset, Scheduled);
    Pair(p.ackAD, p.ackCD);
    Take(p.ackAD, multiset{p.ackCD}, multiset{});
    run, steps := Handled(run, steps, p.a', p.b, p.c', reset, p.e, multiset{p.ackAD} + multiset{p.ackCD}, {}, 4, p.ackAD, late, multiset{});
    Pair(p.ackCD, p.ackCD);
    Gone(p.ackCD);
    run, steps := Handled(run, steps, p.a', p.b, p.c', late, p.e, multiset{p.ackCD}, {}, 4, p.ackCD, later, multiset{});
    run, steps := FailoverRuns(run, steps, p.a', p.b, p.c', later, p.e, multiset{}, {}, MANUAL, again, AskVotes);
    var asked := multiset{BuildMessage(again, 2, AuthRequest(true))};
    assert multiset{} + asked == asked;
    run, steps := FailoverRuns(run, steps, p.a', p.b, p.c', again, p.e, asked, {}, MANUAL, w, Won);
    var none: set<(nat, NodeId)> := {};
    assert none + {(w.authEpoch, 4)} == {(w.authEpoch, 4)};
  }

  /** The election of epoch 4 up to the votes, whose acks are under way. */
  lemma LateVotes(p: Script) returns (run: seq<System>, steps: seq<Step>)
    requires Plays(p)
    ensures Ends(run, steps, p.a', p.b, p.c', p.dAsked, p.e, multiset{p.ackCD} + multiset{p.ackAD}, {})
  {
    hide Good, Asks, Dominated, IsRun, Wf, Handles, Wins, BuildMessage;
    var s0 := System(Views(p.a, p.b, p.c, p.d, p.e), multiset{}, map[],
                     map[1 := {}, 2 := {}, 3 := {}, 4 := {}, 5 := {}], {});
    StartsRun(p, s0);
    run, steps := [s0], [];
    run, steps := AskedNow(run, steps, p.a, p.b, p.c, p.d, p.e, multiset{}, {}, 4, p.dAsked, 1, 3, p.askDA, p.askDC);
    Pair(p.askDA, p.askDC);
    assert multiset{} + multiset{p.askDA, p.askDC} == multiset{p.askDA} + multiset{p.askDC};
    Take(p.askDA, multiset{p.askDC}, multiset{p.ackAD});
    run, steps := Handled(run, steps, p.a, p.b, p.c, p.dAsked, p.e, multiset{p.askDA} + multiset{p.askDC}, {}, 1, p.askDA, p.a', multiset{p.ackAD});
    Pair(p.askDC, p.ackAD);
    Take(p.askDC, multiset{p.ackAD}, multiset{p.ackCD});
    run, steps := Handled(run, steps, p.a', p.b, p.c, p.dAsked, p.e, multiset{p.askDC} + multiset{p.ackAD}, {}, 3, p.askDC, p.c', multiset{p.ackCD});
  }

  lemma LateFacts()
    ensures Good(V4asked) && HandleFailover(V4asked, RETRY) == (V4reset, Scheduled)
    ensures Handles(V4reset, ACK14, 4, V4late, multiset{}) && Handles(V4late, ACK34, 4, V4later, multiset{})
    ensures Good(V4later) && HandleFailover(V4later, MANUAL) == (V4again, AskVotes)
    ensures Good(V4again) && HandleFailover(V4again, MANUAL).1.Won? && HandleFailover(V4again, MANUAL).0.authEpoch == 5
  {
    hide Good, At, HandleFailover, ProcessPacket, Replies;
    LateGood();
    LateFailover();
    LateCount();
    Unanswered(V4reset, ACK14);
    Unanswered(V4late, ACK34);
  }

  lemma NobodyVotedLater()
    ensures V1voted.lastVoteEpoch == 4 && V3voted.lastVoteEpoch == 4 && V2.lastVoteEpoch == 0 && V5.lastVoteEpoch == 0
    ensures V4again.lastVoteEpoch == 0
  {
  }

  lemma WinKeepsVote(v: View, t: Timing)
    requires Good(v)
    ensures HandleFailover(v, t).0.lastVoteEpoch == v.lastVoteEpoch
  {
    hide Good;
  }

  /** Replica 4 wins epoch 5 in a run of the unrestricted protocol, and no node has voted in
      an epoch later than 4. */
  lemma StaleWin() returns (run: seq<System>, steps: seq<Step>)
    ensures IsRun(run, steps)
    ensures var s := run[|run| - 1];
            (5, 4) in s.wins && forall n | n in s.views :: s.views[n].lastVoteEpoch <= 4
  {
    hide Good, Plays, HandleFailover, Handles, At, IsRun, Wf;
    StoryPlays();
    LateFacts();
    NobodyVotedLater();
    WinKeepsVote(V4again, MANUAL);
    run, steps := LateRun(STORY, V4reset, V4late, V4later, V4again, HandleFailover(V4again, MANUAL).0);
  }
}
