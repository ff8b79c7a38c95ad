/**
 The electorate must stay fixed while an epoch is contested. Here five nodes follow the
 code to the letter: replica 4 of master 1 and replica 5 of master 2 both fail over by
 hand in epoch 4. Replica 4 wins with the votes of 1 and 3, becomes a master with slots
 and, never having voted itself, votes for replica 5 in the epoch it has just won.
 */
module ClusterDoubleWin {
  import opened Wrappers
  import opened ClusterView
  import opened ClusterProtocol
  import opened ClusterEpochs

  const NODES: map<NodeId, Node> := map[
    1 := Node(Master, false, 1, None),
    2 := Node(Master, false, 2, None),
    3 := Node(Master, false, 3, None),
    4 := Node(Replica, false, 0, Some(1)),
    5 := Node(Replica, false, 0, Some(2))]

  const SLOTS: map<Slot, NodeId> := map[0 := 1, 1 := 2, 2 := 3]

  const MANUAL := Timing(true, false, false, false, false, false)

  function At(n: NodeId, nodes: map<NodeId, Node>, slots: map<Slot, NodeId>, current: nat, last: nat,
              auth: nat, count: nat, sent: bool): View
  {
    View(n, nodes, slots, map[], map[], {}, false, current, last, 3, auth, count, sent)
  }

  // What each node knows, in the order it comes to know it.
  const V1 := At(1, NODES, SLOTS, 3, 0, 0, 0, false)
  const V2 := At(2, NODES, SLOTS, 3, 0, 0, 0, false)
  const V3 := At(3, NODES, SLOTS, 3, 0, 0, 0, false)
  const V4 := At(4, NODES, SLOTS, 3, 0, 0, 0, false)
  const V5 := At(5, NODES, SLOTS, 3, 0, 0, 0, false)

  const V4asked := At(4, NODES, SLOTS, 4, 0, 4, 0, true)
  const V5asked := At(5, NODES, SLOTS, 4, 0, 4, 0, true)

  const HEARD4 := NODES[4 := Node(Replica, false, 1, Some(1))]
  const V1voted := At(1, HEARD4, SLOTS, 4, 4, 0, 0, false)
  const V3voted := At(3, HEARD4, SLOTS, 4, 4, 0, 0, false)

  const V4one := At(4, NODES, SLOTS, 4, 0, 4, 1, true)
  const V4two := At(4, NODES, SLOTS, 4, 0, 4, 2, true)

  const PROMOTED := NODES[4 := Node(Master, false, 4, None)]
  const MOVED: map<Slot, NodeId> := map[0 := 4, 1 := 2, 2 := 3]
  const V4won := At(4, PROMOTED, MOVED, 4, 0, 4, 2, true)

  const HEARD5 := PROMOTED[5 := Node(Replica, false, 2, Some(2))]
  const V4voted := At(4, HEARD5, MOVED, 4, 4, 4, 2, true)

  const V2voted := At(2, NODES[5 := Node(Replica, false, 2, Some(2))], SLOTS, 4, 4, 0, 0, false)

  const V5told := At(5, PROMOTED, MOVED, 4, 0, 4, 0, true)
  const V5one := At(5, PROMOTED, MOVED, 4, 0, 4, 1, true)
  const V5two := At(5, PROMOTED, MOVED, 4, 0, 4, 2, true)

  // The packets they exchange.
  const ASK41 := Msg(4, 1, 4, 1, Some(1), {0}, AuthRequest(true))
  const ASK43 := Msg(4, 3, 4, 1, Some(1), {0}, AuthRequest(true))
  const ASK52 := Msg(5, 2, 4, 2, Some(2), {1}, AuthRequest(true))
  const ASK54 := Msg(5, 4, 4, 2, Some(2), {1}, AuthRequest(true))
  const ACK14 := Msg(1, 4, 4, 1, None, {0}, AuthAck)
  const ACK34 := Msg(3, 4, 4, 3, None, {2}, AuthAck)
  const PING45 := Msg(4, 5, 4, 4, None, {0}, Ping)
  const ACK45 := Msg(4, 5, 4, 4, None, {0}, AuthAck)
  const ACK25 := Msg(2, 5, 4, 2, None, {1}, AuthAck)

  // ------------------------------------------------------------ node by node

  ghost predicate Both(n: NodeId, v: View, w: View) {
    Good(v) && Good(w) && v.myself == n && w.myself == n
  }

  lemma GoodAt(n: NodeId, nodes: map<NodeId, Node>, current: nat, last: nat, auth: nat, count: nat, sent: bool)
    requires nodes.Keys == {1, 2, 3, 4, 5} && n in nodes
    requires nodes[2].role.Master? && nodes[3].role.Master?
    requires forall x | x in nodes && nodes[x].slaveof.Some? :: nodes[x].role.Replica? && nodes[x].slaveof.value in nodes
    ensures nodes[1].role.Master? ==> Good(At(n, nodes, SLOTS, current, last, auth, count, sent))
    ensures nodes[4].role.Master? ==> Good(At(n, nodes, MOVED, current, last, auth, count, sent))
  {
  }

  lemma BitsOf(v: View)
    ensures v.slots == SLOTS ==> v.Bits(1) == {0} && v.Bits(2) == {1} && v.Bits(3) == {2} && v.Bits(4) == {} && v.Bits(5) == {}
    ensures v.slots == MOVED ==> v.Bits(4) == {0} && v.Bits(2) == {1} && v.Bits(3) == {2} && v.Bits(1) == {} && v.Bits(5) == {}
  {
  }

  lemma StartGood()
    ensures Good(V1) && Good(V2) && Good(V3) && Good(V4) && Good(V5)
  {
    hide Good;
    GoodAt(1, NODES, 3, 0, 0, 0, false);
    GoodAt(2, NODES, 3, 0, 0, 0, false);
    GoodAt(3, NODES, 3, 0, 0, 0, false);
    GoodAt(4, NODES, 3, 0, 0, 0, false);
    GoodAt(5, NODES, 3, 0, 0, 0, false);
  }

  lemma VotedGood()
    ensures Good(V1voted) && Good(V2voted) && Good(V3voted) && Good(V4voted)
  {
    hide Good;
    GoodAt(1, HEARD4, 4, 4, 0, 0, false);
    GoodAt(3, HEARD4, 4, 4, 0, 0, false);
    GoodAt(2, NODES[5 := Node(Replica, false, 2, Some(2))], 4, 4, 0, 0, false);
    GoodAt(4, HEARD5, 4, 4, 4, 2, true);
  }

  lemma AskedGood()
    ensures Good(V4asked) && Good(V4one) && Good(V4two) && Good(V5asked)
  {
    hide Good;
    GoodAt(4, NODES, 4, 0, 4, 0, true);
    GoodAt(4, NODES, 4, 0, 4, 1, true);
    GoodAt(4, NODES, 4, 0, 4, 2, true);
    GoodAt(5, NODES, 4, 0, 4, 0, true);
  }

  lemma WonGood()
    ensures Good(V4won) && Good(V5told) && Good(V5one) && Good(V5two)
  {
    hide Good;
    GoodAt(4, PROMOTED, 4, 0, 4, 2, true);
    GoodAt(5, PROMOTED, 4, 0, 4, 0, true);
    GoodAt(5, PROMOTED, 4, 0, 4, 1, true);
    GoodAt(5, PROMOTED, 4, 0, 4, 2, true);
  }

  lemma AllGood()
    ensures Both(1, V1, V1voted) && Both(2, V2, V2voted) && Both(3, V3, V3voted)
    ensures Both(4, V4, V4asked) && Both(4, V4one, V4two) && Both(4, V4won, V4voted)
    ensures Both(5, V5, V5asked) && Both(5, V5told, V5one) && Good(V5two)
  {
    hide Good;
    StartGood();
    VotedGood();
    AskedGood();
    WonGood();
  }

  lemma Ask4()
    requires Both(4, V4, V4asked)
    ensures HandleFailover(V4, MANUAL) == (V4asked, AskVotes)
    ensures BuildMessage(V4asked, 1, AuthRequest(true)) == ASK41
    ensures BuildMessage(V4asked, 3, AuthRequest(true)) == ASK43
  {
    hide Good;
    BitsOf(V4);
    BitsOf(V4asked);
  }

  lemma Ask5()
    requires Both(5, V5, V5asked)
    ensures HandleFailover(V5, MANUAL) == (V5asked, AskVotes)
    ensures BuildMessage(V5asked, 2, AuthRequest(true)) == ASK52
    ensures BuildMessage(V5asked, 4, AuthRequest(true)) == ASK54
  {
    hide Good;
    BitsOf(V5);
    BitsOf(V5asked);
  }

  lemma Vote1()
    requires Both(1, V1, V1voted)
    ensures ProcessPacket(V1, ASK41, true) == Some(V1voted)
    ensures Replies(V1, ASK41, true, false) == multiset{ACK14}
  {
    hide Good;
    assert LearnEpochs(V1, ASK41) == V1voted.(lastVoteEpoch := 0);
    BitsOf(V1voted.(lastVoteEpoch := 0));
  }

  lemma Vote3()
    requires Both(3, V3, V3voted)
    ensures ProcessPacket(V3, ASK43, true) == Some(V3voted)
    ensures Replies(V3, ASK43, true, false) == multiset{ACK34}
  {
    hide Good;
    assert LearnEpochs(V3, ASK43) == V3voted.(lastVoteEpoch := 0);
    BitsOf(V3voted.(lastVoteEpoch := 0));
  }

  lemma Count4()
    requires Both(4, V4, V4asked) && Both(4, V4one, V4two)
    ensures ProcessPacket(V4asked, ACK14, true) == Some(V4one)
    ensures ProcessPacket(V4one, ACK34, true) == Some(V4two)
  {
    hide Good;
    BitsOf(V4asked);
    BitsOf(V4one);
    assert LearnEpochs(V4asked, ACK14) == V4asked;
    assert LearnEpochs(V4one, ACK34) == V4one;
  }

  lemma Win4()
    requires Both(4, V4one, V4two)
    ensures HandleFailover(V4two, MANUAL) == (V4won, Won) && V4won.authEpoch == 4
  {
    hide Good;
    BitsOf(V4two);
    var v1 := WithMyEpoch(V4two, 4);
    BitsOf(v1);
    assert ReplaceMaster(v1).slots == MOVED;
    assert ReplaceMaster(v1).nodes == PROMOTED;
  }

  lemma Vote4()
    requires Both(4, V4won, V4voted)
    ensures ProcessPacket(V4won, ASK54, true) == Some(V4voted)
    ensures Replies(V4won, ASK54, true, false) == multiset{ACK45}
  {
    hide Good;
    assert LearnEpochs(V4won, ASK54) == V4voted.(lastVoteEpoch := 0);
    BitsOf(V4voted.(lastVoteEpoch := 0));
  }

  lemma Vote2()
    requires Both(2, V2, V2voted)
    ensures ProcessPacket(V2, ASK52, true) == Some(V2voted)
    ensures Replies(V2, ASK52, true, false) == multiset{ACK25}
  {
    hide Good;
    assert LearnEpochs(V2, ASK52) == V2voted.(lastVoteEpoch := 0);
    BitsOf(V2voted.(lastVoteEpoch := 0));
  }

  lemma Ping5()
    requires Both(5, V5, V5asked) && Both(4, V4won, V4voted) && Both(5, V5told, V5one)
    ensures BuildMessage(V4won, 5, Ping) == PING45
    ensures ProcessPacket(V5asked, PING45, true) == Some(V5told)
  {
    BitsOf(V4won);
    var v0 := LearnEpochs(V5asked, PING45);
    assert v0 == V5asked.(nodes := NODES[4 := Node(Replica, false, 4, Some(1))]);
    Pinged5(v0);
  }

  lemma Pinged5(v0: View)
    requires Good(v0) && v0 == V5asked.(nodes := NODES[4 := Node(Replica, false, 4, Some(1))])
    ensures HandlePing(v0, PING45) == Some(V5told)
  {
    var v1 := SetNodeAsMaster(v0, 4);
    BitsOf(v1);
    assert Rebound(v1, 4, 4, {0}) == {0};
    var v2 := Bind(v1, {0}, 4);
    assert v2.slots == MOVED;
    assert v1.Owner(0) == Some(1);
    assert DropKeys(v2, v1, {0}).keyed == {};
    assert v2.nodes == PROMOTED;
  }

  lemma Count5()
    requires Both(5, V5told, V5one) && Good(V5two)
    ensures ProcessPacket(V5told, ACK45, true) == Some(V5one)
    ensures ProcessPacket(V5one, ACK25, true) == Some(V5two)
  {
    hide Good;
    BitsOf(V5told);
    BitsOf(V5one);
    assert LearnEpochs(V5told, ACK45) == V5told;
    assert LearnEpochs(V5one, ACK25) == V5one;
  }

  lemma Win5()
    requires Good(V5two)
    ensures HandleFailover(V5two, MANUAL).1.Won? && HandleFailover(V5two, MANUAL).0.authEpoch == 4
  {
    hide Good;
    BitsOf(V5two);
  }

  // --------------------------------------------------------------- step by step

  /** The run so far ends in a state with these views, packets and winners. */
  ghost predicate Ends(run: seq<System>, steps: seq<Step>, v1: View, v2: View, v3: View, v4: View, v5: View,
                       net: multiset<Msg>, wins: set<(nat, NodeId)>)
  {
    && IsRun(run, steps) && |run| > 0
    && var s := run[|run| - 1];
       && Wf(s) && s.net == net && s.wins == wins
       && s.views == Views(v1, v2, v3, v4, v5)
  }

  function Views(v1: View, v2: View, v3: View, v4: View, v5: View): map<NodeId, View> {
    map[1 := v1, 2 := v2, 3 := v3, 4 := v4, 5 := v5]
  }

  lemma ViewAt(v1: View, v2: View, v3: View, v4: View, v5: View, n: NodeId, w: View)
    requires 1 <= n <= 5
    ensures var vs := Views(v1, v2, v3, v4, v5);
            && n in vs
            && vs[n] == (if n == 1 then v1 else if n == 2 then v2 else if n == 3 then v3 else if n == 4 then v4 else v5)
            && vs[n := w] == Views(if n == 1 then w else v1, if n == 2 then w else v2, if n == 3 then w else v3,
                                   if n == 4 then w else v4, if n == 5 then w else v5)
  {
  }

  lemma Extend(run: seq<System>, steps: seq<Step>, step: Step)
    requires IsRun(run, steps) && Wf(run[|run| - 1]) && Enabled(run[|run| - 1], step)
    ensures IsRun(run + [Next(run[|run| - 1], step)], steps + [step])
    ensures Wf(Next(run[|run| - 1], step))
  {
    hide Good, Next, Enabled, Wf, Init;
    NextWf(run[|run| - 1], step);
    var run', steps' := run + [Next(run[|run| - 1], step)], steps + [step];
    forall i | 0 <= i < |steps'|
      ensures Wf(run'[i]) && Enabled(run'[i], steps'[i]) && run'[i + 1] == Next(run'[i], steps'[i])
    {
      if i < |steps| { assert run'[i] == run[i] && run'[i + 1] == run[i + 1] && steps'[i] == steps[i]; }
    }
  }

  /** Deliver `m` to a node that becomes `w` and answers `out`. */
  lemma Delivered(run: seq<System>, steps: seq<Step>, m: Msg, w: View, out: multiset<Msg>)
    returns (run': seq<System>, steps': seq<Step>)
    requires IsRun(run, steps) && |run| > 0
    requires var s := run[|run| - 1];
             && Wf(s) && m in s.net && m.dst in s.views && Good(s.views[m.dst])
             && ProcessPacket(s.views[m.dst], m, true) == Some(w)
             && Replies(s.views[m.dst], m, true, false) == out
    ensures IsRun(run', steps') && |run'| > 0 && Wf(run'[|run'| - 1])
    ensures var s, s' := run[|run| - 1], run'[|run'| - 1];
            s'.views == s.views[m.dst := w] && s'.net == s.net - multiset{m} + out && s'.wins == s.wins
  {
    hide Good, IsRun, Wf, ProcessPacket, Replies, Votes, Counts, LearnEpochs;
    var step := Deliver(m, true, false);
    Extend(run, steps, step);
    run', steps' := run + [Next(run[|run| - 1], step)], steps + [step];
  }

  /** Node `n` runs its failover handler and becomes `w`. */
  lemma FailedOver(run: seq<System>, steps: seq<Step>, n: NodeId, dsts: set<NodeId>, w: View, action: FailoverAction)
    returns (run': seq<System>, steps': seq<Step>)
    requires IsRun(run, steps) && |run| > 0
    requires var s := run[|run| - 1];
             && Wf(s) && n in s.views && Good(s.views[n]) && HandleFailover(s.views[n], MANUAL) == (w, action)
    requires action.AskVotes? || action.Won?
    ensures IsRun(run', steps') && |run'| > 0 && Wf(run'[|run'| - 1]) && Good(w)
    ensures var s, s' := run[|run| - 1], run'[|run'| - 1];
            && s'.views == s.views[n := w]
            && s'.net == s.net + (if action.AskVotes? then multiset(set d | d in dsts :: BuildMessage(w, d, AuthRequest(true))) else multiset{})
            && s'.wins == s.wins + (if action.Won? then {(w.authEpoch, n)} else {})
  {
    hide Good, IsRun, Wf, HandleFailover, BuildMessage;
    var step := Failover(n, MANUAL, dsts, true);
    Extend(run, steps, step);
    run', steps' := run + [Next(run[|run| - 1], step)], steps + [step];
  }

  /** The views and packets of the story, without what is in them. */
  datatype Script = Script(
    a: View, a': View, b: View, b': View, c: View, c': View,
    d: View, dAsked: View, dOne: View, dTwo: View, dWon: View, dVoted: View,
    e: View, eAsked: View, eTold: View, eOne: View, eTwo: View,
    askDA: Msg, askDC: Msg, askEB: Msg, askED: Msg,
    ackAD: Msg, ackCD: Msg, pingDE: Msg, ackDE: Msg, ackBE: Msg)

  ghost predicate Asks(v: View, w: View, x: NodeId, y: NodeId, toX: Msg, toY: Msg) {
    && Good(v) && Good(w) && HandleFailover(v, MANUAL) == (w, AskVotes)
    && BuildMessage(w, x, AuthRequest(true)) == toX && BuildMessage(w, y, AuthRequest(true)) == toY
  }

  ghost predicate Handles(v: View, m: Msg, dst: NodeId, w: View, out: multiset<Msg>) {
    Good(v) && m.dst == dst && ProcessPacket(v, m, true) == Some(w) && Replies(v, m, true, false) == out
  }

  ghost predicate Wins(v: View, w: View) {
    Good(v) && HandleFailover(v, MANUAL) == (w, Won) && w.authEpoch == 4
  }

  ghost predicate Plays(p: Script) {
    && (p.a.myself == 1 && p.b.myself == 2 && p.c.myself == 3 && p.d.myself == 4 && p.e.myself == 5)
    && (Good(p.a) && Good(p.b) && Good(p.c) && Good(p.d) && Good(p.e))
    && (Dominated(p.a) && Dominated(p.b) && Dominated(p.c) && Dominated(p.d) && Dominated(p.e))
    && (p.a.authCount == 0 && p.b.authCount == 0 && p.c.authCount == 0 && p.d.authCount == 0 && p.e.authCount == 0)
    && Asks(p.d, p.dAsked, 1, 3, p.askDA, p.askDC)
    && Asks(p.e, p.eAsked, 2, 4, p.askEB, p.askED)
    && Handles(p.a, p.askDA, 1, p.a', multiset{p.ackAD})
    && Handles(p.c, p.askDC, 3, p.c', multiset{p.ackCD})
    && Handles(p.dAsked, p.ackAD, 4, p.dOne, multiset{})
    && Handles(p.dOne, p.ackCD, 4, p.dTwo, multiset{})
    && Wins(p.dTwo, p.dWon)
    && Good(p.dWon) && BuildMessage(p.dWon, 5, Ping) == p.pingDE
    && Handles(p.eAsked, p.pingDE, 5, p.eTold, multiset{})
    && Handles(p.dWon, p.askED, 4, p.dVoted, multiset{p.ackDE})
    && Handles(p.b, p.askEB, 2, p.b', multiset{p.ackBE})
    && Handles(p.eTold, p.ackDE, 5, p.eOne, multiset{})
    && Handles(p.eOne, p.ackBE, 5, p.eTwo, multiset{})
  }

  /** Node `n` handles a packet: one more state, in which only its view differs. */
  lemma Handled(run: seq<System>, steps: seq<Step>, v1: View, v2: View, v3: View, v4: View, v5: View,
                net: multiset<Msg>, wins: set<(nat, NodeId)>, n: NodeId, m: Msg, w: View, out: multiset<Msg>)
    returns (run': seq<System>, steps': seq<Step>)
    requires Ends(run, steps, v1, v2, v3, v4, v5, net, wins) && 1 <= n <= 5 && m in net
    requires Handles(if n == 1 then v1 else if n == 2 then v2 else if n == 3 then v3 else if n == 4 then v4 else v5, m, n, w, out)
    ensures Ends(run', steps', if n == 1 then w else v1, if n == 2 then w else v2, if n == 3 then w else v3,
                 if n == 4 then w else v4, if n == 5 then w else v5, net - multiset{m} + out, wins)
  {
    hide Good, ProcessPacket, Replies, IsRun, Wf, Views;
    ViewAt(v1, v2, v3, v4, v5, n, w);
    run', steps' := Delivered(run, steps, m, w, out);
  }

  lemma WonNow(run: seq<System>, steps: seq<Step>, v1: View, v2: View, v3: View, v4: View, v5: View,
               net: multiset<Msg>, wins: set<(nat, NodeId)>, n: NodeId, w: View)
    returns (run': seq<System>, steps': seq<Step>)
    requires Ends(run, steps, v1, v2, v3, v4, v5, net, wins) && 1 <= n <= 5
    requires Wins(if n == 1 then v1 else if n == 2 then v2 else if n == 3 then v3 else if n == 4 then v4 else v5, w)
    ensures Ends(run', steps', if n == 1 then w else v1, if n == 2 then w else v2, if n == 3 then w else v3,
                 if n == 4 then w else v4, if n == 5 then w else v5, net, wins + {(4, n)})
  {
    hide Good, HandleFailover, BuildMessage, IsRun, Wf, Views;
    ViewAt(v1, v2, v3, v4, v5, n, w);
    run', steps' := FailedOver(run, steps, n, {}, w, Won);
  }

  lemma AskedNow(run: seq<System>, steps: seq<Step>, v1: View, v2: View, v3: View, v4: View, v5: View,
                 net: multiset<Msg>, wins: set<(nat, NodeId)>, n: NodeId, w: View, x: NodeId, y: NodeId, toX: Msg, toY: Msg)
    returns (run': seq<System>, steps': seq<Step>)
    requires Ends(run, steps, v1, v2, v3, v4, v5, net, wins) && 1 <= n <= 5 && x != y
    requires Asks(if n == 1 then v1 else if n == 2 then v2 else if n == 3 then v3 else if n == 4 then v4 else v5, w, x, y, toX, toY)
    ensures Ends(run', steps', if n == 1 then w else v1, if n == 2 then w else v2, if n == 3 then w else v3,
                 if n == 4 then w else v4, if n == 5 then w else v5, net + multiset{toX, toY}, wins)
  {
    hide Good, HandleFailover, BuildMessage, IsRun, Wf, Views;
    ViewAt(v1, v2, v3, v4, v5, n, w);
    TwoAsked(w, x, y, toX, toY);
    run', steps' := FailedOver(run, steps, n, {x, y}, w, AskVotes);
  }

  lemma PingedNow(run: seq<System>, steps: seq<Step>, v1: View, v2: View, v3: View, v4: View, v5: View,
                  net: multiset<Msg>, wins: set<(nat, NodeId)>, ping: Msg)
    returns (run': seq<System>, steps': seq<Step>)
    requires Ends(run, steps, v1, v2, v3, v4, v5, net, wins) && Good(v4) && BuildMessage(v4, 5, Ping) == ping
    ensures Ends(run', steps', v1, v2, v3, v4, v5, net + multiset{ping}, wins)
  {
    hide Good, BuildMessage, IsRun, Wf, Views;
    ViewAt(v1, v2, v3, v4, v5, 4, v4);
    run', steps' := Pinged(run, steps, 4, 5);
  }

  /** Both replicas ask for votes in epoch 4. */
  lemma BothAsk(p: Script) returns (run: seq<System>, steps: seq<Step>)
    requires Plays(p)
    ensures Ends(run, steps, p.a, p.b, p.c, p.dAsked, p.eAsked, multiset{p.askDA, p.askDC} + multiset{p.askEB, p.askED}, {})
  {
    hide Good, Asks, Dominated, IsRun, Wf, Handles, Wins, BuildMessage;
    var s0 := System(Views(p.a, p.b, p.c, p.d, p.e), multiset{}, map[],
                     map[1 := {}, 2 := {}, 3 := {}, 4 := {}, 5 := {}], {});
    StartsRun(p, s0);
    run, steps := [s0], [];
    run, steps := AskedNow(run, steps, p.a, p.b, p.c, p.d, p.e, multiset{}, {}, 4, p.dAsked, 1, 3, p.askDA, p.askDC);
    run, steps := AskedNow(run, steps, p.a, p.b, p.c, p.dAsked, p.e, multiset{} + multiset{p.askDA, p.askDC}, {}, 5, p.eAsked, 2, 4, p.askEB, p.askED);
    assert multiset{} + multiset{p.askDA, p.askDC} == multiset{p.askDA, p.askDC};
  }

  lemma TwoAsked(w: View, x: NodeId, y: NodeId, toX: Msg, toY: Msg)
    requires Good(w) && x != y
    requires BuildMessage(w, x, AuthRequest(true)) == toX && BuildMessage(w, y, AuthRequest(true)) == toY
    ensures multiset(set d | d in {x, y} :: BuildMessage(w, d, AuthRequest(true))) == multiset{toX, toY}
  {
    hide Good;
    assert (set d | d in {x, y} :: BuildMessage(w, d, AuthRequest(true))) == {toX, toY};
    assert toX.dst == x && toY.dst == y;
  }

  lemma StartsRun(p: Script, s0: System)
    requires Plays(p)
    requires s0 == System(Views(p.a, p.b, p.c, p.d, p.e), multiset{}, map[],
                          map[1 := {}, 2 := {}, 3 := {}, 4 := {}, 5 := {}], {})
    ensures IsRun([s0], []) && Wf(s0)
  {
    hide Good, Dominated, Asks, Handles, Wins, BuildMessage, Next, Enabled;
    forall n | n in s0.views
      ensures Good(s0.views[n]) && Dominated(s0.views[n]) && s0.views[n].myself == n
      ensures s0.views[n].authCount == 0 && n in s0.tally && s0.tally[n] == {}
    {
    }
  }

  lemma Take<T>(m: T, rest: multiset<T>, out: multiset<T>)
    ensures multiset{m} + rest - multiset{m} + out == out + rest
  {
  }

  lemma Bring<T>(a: T, b: T, rest: multiset<T>)
    ensures multiset{a} + (multiset{b} + rest) == multiset{b} + (multiset{a} + rest)
    ensures multiset{a, b} + rest == multiset{a} + (multiset{b} + rest)
    ensures multiset{} + rest == rest && rest + multiset{a} == multiset{a} + rest
  {
  }

  /** Replica 4 collects the votes of 1 and 3 and wins. */
  lemma FirstWins(p: Script) returns (run: seq<System>, steps: seq<Step>)
    requires Plays(p)
    ensures Ends(run, steps, p.a', p.b, p.c', p.dWon, p.eAsked, multiset{p.askEB, p.askED}, {(4, 4)})
  {
    hide Good, Handles, Asks, Wins, Dominated, BuildMessage, Ends;
    run, steps := BothAsk(p);
    var rest := multiset{p.askEB, p.askED};
    Bring(p.askDA, p.askDC, rest);
    Take(p.askDA, multiset{p.askDC} + rest, multiset{p.ackAD});
    run, steps := Handled(run, steps, p.a, p.b, p.c, p.dAsked, p.eAsked, multiset{p.askDA, p.askDC} + rest, {}, 1, p.askDA, p.a', multiset{p.ackAD});
    Bring(p.ackAD, p.askDC, rest);
    Take(p.askDC, multiset{p.ackAD} + rest, multiset{p.ackCD});
    run, steps := Handled(run, steps, p.a', p.b, p.c, p.dAsked, p.eAsked, multiset{p.askDC} + (multiset{p.ackAD} + rest), {}, 3, p.askDC, p.c', multiset{p.ackCD});
    Bring(p.ackCD, p.ackAD, rest);
    Take(p.ackAD, multiset{p.ackCD} + rest, multiset{});
    run, steps := Handled(run, steps, p.a', p.b, p.c', p.dAsked, p.eAsked, multiset{p.ackAD} + (multiset{p.ackCD} + rest), {}, 4, p.ackAD, p.dOne, multiset{});
    Bring(p.ackCD, p.ackAD, multiset{p.ackCD} + rest);
    Take(p.ackCD, rest, multiset{});
    run, steps := Handled(run, steps, p.a', p.b, p.c', p.dOne, p.eAsked, multiset{p.ackCD} + rest, {}, 4, p.ackCD, p.dTwo, multiset{});
    run, steps := WonNow(run, steps, p.a', p.b, p.c', p.dTwo, p.eAsked, rest, {}, 4, p.dWon);
    assert {} + {(4, 4)} == {(4, 4)};
  }

  /** Replica 5 learns that 4 is a master and gets its vote. */
  lemma VoteOf4(p: Script) returns (run: seq<System>, steps: seq<Step>)
    requires Plays(p)
    ensures Ends(run, steps, p.a', p.b, p.c', p.dVoted, p.eTold, multiset{p.ackDE} + multiset{p.askEB}, {(4, 4)})
  {
    hide Good, Handles, Asks, Wins, Dominated, BuildMessage, Ends;
    var won := {(4, 4)};
    var rest := multiset{p.askEB, p.askED};
    run, steps := FirstWins(p);
    run, steps := PingedNow(run, steps, p.a', p.b, p.c', p.dWon, p.eAsked, rest, won, p.pingDE);
    Bring(p.pingDE, p.askEB, rest);
    Take(p.pingDE, rest, multiset{});
    run, steps := Handled(run, steps, p.a', p.b, p.c', p.dWon, p.eAsked, multiset{p.pingDE} + rest, won, 5, p.pingDE, p.eTold, multiset{});
    Pair(p.askEB, p.askED);
    Take(p.askED, multiset{p.askEB}, multiset{p.ackDE});
    run, steps := Handled(run, steps, p.a', p.b, p.c', p.dWon, p.eTold, multiset{p.askED} + multiset{p.askEB}, won, 4, p.askED, p.dVoted, multiset{p.ackDE});
  }

  lemma Gone<T>(m: T)
    ensures multiset{m} - multiset{m} + multiset{} == multiset{}
  {
  }

  lemma Pair<T>(a: T, b: T)
    ensures multiset{a, b} == multiset{b} + multiset{a} == multiset{a} + multiset{b}
    ensures multiset{a} + multiset{} == multiset{a} && multiset{} + multiset{a} == multiset{a}
  {
  }

  /** Replica 5 counts the votes of 4 and of 2 and wins the same epoch. */
  lemma SecondWins(p: Script, w: View) returns (run: seq<System>, steps: seq<Step>)
    requires Plays(p) && Wins(p.eTwo, w)
    ensures Ends(run, steps, p.a', p.b', p.c', p.dVoted, w, multiset{}, {(4, 4), (4, 5)})
  {
    hide Good, Handles, Asks, Wins, Dominated, BuildMessage, Ends;
    var won := {(4, 4)};
    run, steps := VoteOf4(p);
    Pair(p.askEB, p.ackDE);
    Take(p.askEB, multiset{p.ackDE}, multiset{p.ackBE});
    run, steps := Handled(run, steps, p.a', p.b, p.c', p.dVoted, p.eTold, multiset{p.askEB} + multiset{p.ackDE}, won, 2, p.askEB, p.b', multiset{p.ackBE});
    Pair(p.ackDE, p.ackBE);
    Take(p.ackDE, multiset{p.ackBE}, multiset{});
    run, steps := Handled(run, steps, p.a', p.b', p.c', p.dVoted, p.eTold, multiset{p.ackDE} + multiset{p.ackBE}, won, 5, p.ackDE, p.eOne, multiset{});
    Pair(p.ackBE, p.ackBE);
    Gone(p.ackBE);
    run, steps := Handled(run, steps, p.a', p.b', p.c', p.dVoted, p.eOne, multiset{p.ackBE}, won, 5, p.ackBE, p.eTwo, multiset{});
    run, steps := WonNow(run, steps, p.a', p.b', p.c', p.dVoted, p.eTwo, multiset{}, won, 5, w);
    assert won + {(4, 5)} == {(4, 4), (4, 5)};
  }

  lemma Pinged(run: seq<System>, steps: seq<Step>, n: NodeId, dst: NodeId)
    returns (run': seq<System>, steps': seq<Step>)
    requires IsRun(run, steps) && |run| > 0
    requires var s := run[|run| - 1]; Wf(s) && n in s.views && Good(s.views[n])
    ensures IsRun(run', steps') && |run'| > 0 && Wf(run'[|run'| - 1])
    ensures var s, s' := run[|run| - 1], run'[|run'| - 1];
            s'.views == s.views && s'.wins == s.wins && s'.net == s.net + multiset{BuildMessage(s.views[n], dst, Ping)}
  {
    hide Good, IsRun, Wf, BuildMessage;
    Extend(run, steps, SendPing(n, dst));
    run', steps' := run + [Next(run[|run| - 1], SendPing(n, dst))], steps + [SendPing(n, dst)];
  }

  lemma Unanswered(v: View, m: Msg)
    requires Good(v) && (m.body.AuthAck? || m.body.Ping?)
    ensures Replies(v, m, true, false) == multiset{}
  {
    hide Good, LearnEpochs;
  }

  const STORY := Script(V1, V1voted, V2, V2voted, V3, V3voted, V4, V4asked, V4one, V4two, V4won, V4voted,
                        V5, V5asked, V5told, V5one, V5two, ASK41, ASK43, ASK52, ASK54, ACK14, ACK34, PING45, ACK45, ACK25)

  lemma StartDominated()
    ensures Dominated(V1) && Dominated(V2) && Dominated(V3) && Dominated(V4) && Dominated(V5)
  {
  }

  lemma FirstHalf()
    ensures Asks(V4, V4asked, 1, 3, ASK41, ASK43) && Asks(V5, V5asked, 2, 4, ASK52, ASK54)
    ensures Handles(V1, ASK41, 1, V1voted, multiset{ACK14}) && Handles(V3, ASK43, 3, V3voted, multiset{ACK34})
    ensures Handles(V4asked, ACK14, 4, V4one, multiset{}) && Handles(V4one, ACK34, 4, V4two, multiset{})
    ensures Wins(V4two, V4won)
  {
    hide Good, At, HandleFailover, ProcessPacket, Replies, BuildMessage;
    AllGood();
    Ask4();
    Ask5();
    Vote1();
    Vote3();
    Count4();
    Unanswered(V4asked, ACK14);
    Unanswered(V4one, ACK34);
    Win4();
  }

  lemma SecondHalf()
    ensures Good(V4won) && BuildMessage(V4won, 5, Ping) == PING45
    ensures Handles(V5asked, PING45, 5, V5told, multiset{}) && Handles(V4won, ASK54, 4, V4voted, multiset{ACK45})
    ensures Handles(V2, ASK52, 2, V2voted, multiset{ACK25})
    ensures Handles(V5told, ACK45, 5, V5one, multiset{}) && Handles(V5one, ACK25, 5, V5two, multiset{})
    ensures Good(V5two) && Wins(V5two, HandleFailover(V5two, MANUAL).0)
  {
    hide Good, At, HandleFailover, ProcessPacket, Replies, BuildMessage;
    AllGood();
    Ping5();
    Unanswered(V5asked, PING45);
    Vote4();
    Vote2();
    Count5();
    Unanswered(V5told, ACK45);
    Unanswered(V5one, ACK25);
    Win5();
  }

  lemma StoryPlays()
    ensures Plays(STORY) && Good(V5two) && Wins(V5two, HandleFailover(V5two, MANUAL).0)
  {
    hide Good, Dominated, HandleFailover, BuildMessage, Asks, Handles, Wins;
    StartGood();
    StartDominated();
    FirstHalf();
    SecondHalf();
  }

  /** Two replicas win epoch 4 in a run of the unrestricted protocol: the votes are all
      cast by masters with slots, no ack is stale, and both candidates count three voters. */
  lemma DoubleWin() returns (run: seq<System>, steps: seq<Step>)
    ensures IsRun(run, steps)
    ensures (4, 4) in run[|run| - 1].wins && (4, 5) in run[|run| - 1].wins
  {
    hide Good, Plays, Wins, HandleFailover, Views;
    StoryPlays();
    run, steps := SecondWins(STORY, HandleFailover(V5two, MANUAL).0);
  }
}
