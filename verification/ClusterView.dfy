/**
 What one node of the cluster knows (`server.cluster`) and what the handlers of
 cluster.c do to it, with each fact kept once: who owns a slot is in `slots` alone
 (a NULL entry is an absent key), who replicates whom is in `slaveof` alone. The
 bitmaps, counters and replica arrays that cluster.c keeps beside them are fields of
 ClusterState, whose methods are proved against the functions of this module.
 */
module ClusterView {
  import opened Wrappers

  const CLUSTER_SLOTS: nat := 16384

  type Slot = j: nat | j < CLUSTER_SLOTS

  /** Node names, ordered as memcmp orders them. */
  type NodeId = nat

  datatype Role = Master | Replica

  datatype Node = Node(role: Role, failed: bool, configEpoch: nat, slaveof: Option<NodeId>)

  datatype View = View(
    myself: NodeId,
    nodes: map<NodeId, Node>,
    slots: map<Slot, NodeId>,
    importing: map<Slot, NodeId>,
    migrating: map<Slot, NodeId>,
    keyed: set<Slot>,          // slots that hold local keys
    noRedirection: bool,       // CLUSTER_MODULE_FLAG_NO_REDIRECTION
    currentEpoch: nat,
    lastVoteEpoch: nat,
    size: nat,
    authEpoch: nat,
    authCount: nat,
    authSent: bool)
  {
    function Me(): Node
      requires myself in nodes
    {
      nodes[myself]
    }

    /** The slots a node serves. */
    function Bits(n: NodeId): set<Slot> {
      set j | j in slots && slots[j] == n
    }

    function Owner(j: Slot): Option<NodeId> {
      if j in slots then Some(slots[j]) else None
    }
  }

  /** Only masters own slots, only replicas have a master, and every node named is known. */
  ghost predicate Good(v: View) {
    && v.myself in v.nodes
    && (forall j | j in v.slots :: v.slots[j] in v.nodes && v.nodes[v.slots[j]].role.Master?)
    && (forall n | n in v.nodes && v.nodes[n].slaveof.Some? ::
          v.nodes[n].role.Replica? && v.nodes[n].slaveof.value in v.nodes)
  }

  /** Nothing recorded about epochs of nodes changed. */
  ghost predicate SameEpochs(v: View, w: View) {
    && w.nodes.Keys == v.nodes.Keys
    && forall n | n in v.nodes :: w.nodes[n].configEpoch == v.nodes[n].configEpoch
  }

  /** Of all that elections depend on, only the current epoch may have grown. */
  ghost predicate EpochGrew(v: View, w: View) {
    && w.currentEpoch >= v.currentEpoch
    && SameElection(v.(currentEpoch := w.currentEpoch), w)
  }

  /** Nothing that elections depend on changed. */
  ghost predicate SameElection(v: View, w: View) {
    && w.myself == v.myself
    && w.currentEpoch == v.currentEpoch
    && w.lastVoteEpoch == v.lastVoteEpoch
    && w.size == v.size
    && w.authEpoch == v.authEpoch
    && w.authCount == v.authCount
    && w.authSent == v.authSent
  }

  /** A replica owns no slot. */
  lemma ReplicaOwnsNothing(v: View, n: NodeId)
    requires Good(v) && n in v.nodes && v.nodes[n].role.Replica?
    ensures v.Bits(n) == {}
  {
  }

  /** Replace what is recorded about one node. */
  function WithNode(v: View, n: NodeId, node: Node): (w: View)
    requires Good(v) && n in v.nodes
    requires node.slaveof.Some? ==> node.role.Replica? && node.slaveof.value in v.nodes
    requires node.role.Replica? ==> v.nodes[n].role.Replica? || v.Bits(n) == {}
    ensures Good(w) && w.nodes.Keys == v.nodes.Keys
  {
    if v.nodes[n].role.Master? && node.role.Replica? then
      OwnsNothing(v, n);
      v.(nodes := v.nodes[n := node])
    else
      v.(nodes := v.nodes[n := node])
  }

  lemma OwnsNothing(v: View, n: NodeId)
    requires v.Bits(n) == {}
    ensures forall j | j in v.slots :: v.slots[j] != n
  {
    assert forall j | j in v.slots && v.slots[j] == n :: j in v.Bits(n);
  }

  // ------------------------------------------------------------------ messages

  datatype Body =
    | Ping
    | Update(about: NodeId, aboutEpoch: nat, aboutSlots: set<Slot>)
    | AuthRequest(forceAck: bool)
    | AuthAck
    | Fail(failing: NodeId)

  /** The header every packet carries, and the part specific to its type. */
  datatype Msg = Msg(
    src: NodeId,
    dst: NodeId,
    currentEpoch: nat,
    configEpoch: nat,
    slaveof: Option<NodeId>,
    claimed: set<Slot>,
    body: Body)

  /** The node whose configuration this node advertises: its master, if it has one. */
  function Advertised(v: View): NodeId
    requires Good(v)
  {
    if v.Me().role.Replica? && v.Me().slaveof.Some? then v.Me().slaveof.value else v.myself
  }

  /** clusterBuildMessageHdr. */
  function BuildMessage(v: View, dst: NodeId, body: Body): Msg
    requires Good(v)
  {
    var adv := Advertised(v);
    Msg(v.myself, dst, v.currentEpoch, v.nodes[adv].configEpoch, v.Me().slaveof, v.Bits(adv), body)
  }

  /** clusterSendUpdate. */
  function BuildUpdate(v: View, dst: NodeId, about: NodeId): Msg
    requires Good(v) && about in v.nodes
  {
    BuildMessage(v, dst, Update(about, v.nodes[about].configEpoch, v.Bits(about)))
  }

  // ------------------------------------------------------------- slot movement

  /** Bind every slot of `r` to `owner`. */
  function Bind(v: View, r: set<Slot>, owner: NodeId): View {
    v.(slots := map j | j in v.slots.Keys + r :: if j in r then owner else v.slots[j])
  }

  /** Leave every slot of `r` without an owner. */
  function Unbind(v: View, r: set<Slot>): View {
    v.(slots := v.slots - r)
  }

  // ------------------------------------------------------------- role switches

  function SetNodeAsMaster(v: View, n: NodeId): (w: View)
    requires Good(v) && n in v.nodes
    ensures Good(w) && n in w.nodes && w.nodes[n].role.Master?
    ensures SameEpochs(v, w) && SameElection(v, w) && w.slots == v.slots
  {
    if v.nodes[n].role.Master? then v
    else WithNode(v, n, v.nodes[n].(role := Master, slaveof := None))
  }

  /** clusterSetMaster: this node becomes a replica of `n`. The last two requires are
      the two serverAsserts of the source. */
  function SetMaster(v: View, n: NodeId): (w: View)
    requires Good(v) && n in v.nodes
    requires n != v.myself
    requires v.Bits(v.myself) == {}
    ensures Good(w) && SameEpochs(v, w) && SameElection(v, w) && w.slots == v.slots
  {
    var w := WithNode(v, v.myself, v.Me().(role := Replica, slaveof := Some(n)));
    if v.Me().role.Master? then w.(importing := map[], migrating := map[]) else w
  }

  // --------------------------------------------------------------- slot claims

  /** This node if it is a master, else the node it replicates. */
  function CurMaster(v: View): Option<NodeId>
    requires Good(v)
  {
    if v.Me().role.Master? then Some(v.myself) else v.Me().slaveof
  }

  /** The slots that a claim by `sender` under `epoch` takes. */
  function Rebound(v: View, sender: NodeId, epoch: nat, claimed: set<Slot>): set<Slot>
    requires Good(v)
  {
    set j | j in claimed && j !in v.importing
            && (j in v.slots ==> v.slots[j] != sender && v.nodes[v.slots[j]].configEpoch < epoch)
  }

  /** Forget the keys of the slots of `r` that this node owned in `before`. */
  function DropKeys(w: View, before: View, r: set<Slot>): View {
    w.(keyed := w.keyed - set j | j in r && before.Owner(j) == Some(before.myself))
  }

  /** clusterUpdateSlotsConfigWith. `None` is the NULL dereference of `curmaster`. */
  function UpdateSlots(v: View, sender: NodeId, epoch: nat, claimed: set<Slot>): (w: Option<View>)
    requires Good(v) && sender in v.nodes && v.nodes[sender].role.Master?
    ensures w.Some? ==> Good(w.value) && SameEpochs(v, w.value) && SameElection(v, w.value)
    ensures w.Some? && sender != v.myself ==>
              w.value.slots == Bind(v, Rebound(v, sender, epoch, claimed), sender).slots
  {
    if sender == v.myself then Some(v)
    else
      var r := Rebound(v, sender, epoch, claimed);
      var v1 := Bind(v, r, sender);
      var cur := CurMaster(v);
      if v.noRedirection then Some(v1)
      else if !exists j | j in r :: v.Owner(j) == cur then Some(DropKeys(v1, v, r))
      else if cur.None? then None
      else if v1.Bits(cur.value) != {} then Some(DropKeys(v1, v, r))
      else
        assert v1.Bits(v1.myself) == {} by { MeOrReplica(v1, cur.value); }
        Some(SetMaster(v1, sender))
  }

  lemma MeOrReplica(v: View, cur: NodeId)
    requires Good(v) && Some(cur) == CurMaster(v) && v.Bits(cur) == {}
    ensures v.Bits(v.myself) == {}
  {
    if v.Me().role.Replica? { ReplicaOwnsNothing(v, v.myself); }
  }

  /** The process dies on a claim exactly when a replica that does not know its master
      is told of a slot nobody owns. */
  lemma UpdateSlotsDies(v: View, sender: NodeId, epoch: nat, claimed: set<Slot>)
    requires Good(v) && sender in v.nodes && v.nodes[sender].role.Master?
    ensures UpdateSlots(v, sender, epoch, claimed).None? <==>
            && sender != v.myself
            && !v.noRedirection
            && v.Me().role.Replica? && v.Me().slaveof.None?
            && exists j :: j in claimed && j !in v.importing && j !in v.slots
  {
    var r := Rebound(v, sender, epoch, claimed);
    forall j | j in claimed && j !in v.importing && j !in v.slots
      ensures j in r && v.Owner(j) == None
    {
    }
  }

  // -------------------------------------------------------------------- epochs

  /** clusterGetMaxEpoch differs from the epoch of this node. */
  predicate BehindSomeEpoch(v: View)
    requires Good(v)
  {
    v.Me().configEpoch < v.currentEpoch
    || exists n | n in v.nodes :: v.Me().configEpoch < v.nodes[n].configEpoch
  }

  function WithMyEpoch(v: View, epoch: nat): (w: View)
    requires Good(v)
    ensures Good(w) && SameElection(v, w) && w.nodes.Keys == v.nodes.Keys
  {
    WithNode(v, v.myself, v.Me().(configEpoch := epoch))
  }

  /** Take a fresh epoch without asking anybody. */
  function TakeNextEpoch(v: View): (w: View)
    requires Good(v)
    ensures Good(w) && EpochGrew(v, w) && w.nodes.Keys == v.nodes.Keys
  {
    WithMyEpoch(v.(currentEpoch := v.currentEpoch + 1), v.currentEpoch + 1)
  }

  /** clusterBumpConfigEpochWithoutConsensus. */
  function BumpEpoch(v: View): (w: View)
    requires Good(v)
    ensures Good(w) && EpochGrew(v, w) && w.nodes.Keys == v.nodes.Keys
  {
    if v.Me().configEpoch == 0 || BehindSomeEpoch(v) then TakeNextEpoch(v) else v
  }

  /** clusterHandleConfigEpochCollision. */
  function HandleCollision(v: View, sender: NodeId): (w: View)
    requires Good(v) && sender in v.nodes
    ensures Good(w) && EpochGrew(v, w) && w.nodes.Keys == v.nodes.Keys
  {
    if || v.nodes[sender].configEpoch != v.Me().configEpoch
       || v.nodes[sender].role.Replica? || v.Me().role.Replica?
       || sender <= v.myself
    then v
    else TakeNextEpoch(v)
  }

  // ------------------------------------------------------------------- packets

  /** Learn newer epochs from the header. */
  function LearnEpochs(v: View, m: Msg): (w: View)
    requires Good(v) && m.src in v.nodes
    ensures Good(w) && EpochGrew(v, w) && w.nodes.Keys == v.nodes.Keys && w.slots == v.slots
  {
    var sender := v.nodes[m.src];
    var v1 := if m.configEpoch > sender.configEpoch
              then WithNode(v, m.src, sender.(configEpoch := m.configEpoch)) else v;
    if m.currentEpoch > v1.currentEpoch then v1.(currentEpoch := m.currentEpoch) else v1
  }

  /** A master turned into a replica: it loses its slots. */
  function Demote(v: View, n: NodeId): (w: View)
    requires Good(v) && n in v.nodes && v.nodes[n].role.Master?
    ensures Good(w) && SameEpochs(v, w) && SameElection(v, w) && w.nodes[n].role.Replica?
  {
    var v1 := Unbind(v, v.Bits(n));
    WithNode(v1, n, v.nodes[n].(role := Replica))
  }

  /** The role switch check of clusterProcessPacket. */
  function SwitchRole(v: View, sender: NodeId, slaveof: Option<NodeId>): (w: View)
    requires Good(v) && sender in v.nodes
    ensures Good(w) && SameEpochs(v, w) && SameElection(v, w)
  {
    if slaveof.None? then SetNodeAsMaster(v, sender)
    else
      var v1 := if v.nodes[sender].role.Replica? then v else Demote(v, sender);
      if slaveof.value in v1.nodes
      then WithNode(v1, sender, v1.nodes[sender].(slaveof := slaveof))
      else v1
  }

  /** The slots the sender claims are not the ones this node has for it (or for its master). */
  predicate DirtySlots(v: View, sender: NodeId, claimed: set<Slot>)
    requires Good(v) && sender in v.nodes
  {
    var master := if v.nodes[sender].role.Master? then Some(sender) else v.nodes[sender].slaveof;
    master.Some? && v.Bits(master.value) != claimed
  }

  /** PING, PONG: process the configuration the sender advertises. */
  function HandlePing(v: View, m: Msg): (w: Option<View>)
    requires Good(v) && m.src in v.nodes
    ensures w.Some? ==> Good(w.value) && EpochGrew(v, w.value)
  {
    var v1 := SwitchRole(v, m.src, m.slaveof);
    var v2 := if v1.nodes[m.src].role.Master? && DirtySlots(v1, m.src, m.claimed)
              then UpdateSlots(v1, m.src, m.configEpoch, m.claimed)
              else Some(v1);
    if v2.None? then None
    else if && v2.value.Me().role.Master? && v2.value.nodes[m.src].role.Master?
            && m.configEpoch == v2.value.Me().configEpoch
    then Some(HandleCollision(v2.value, m.src))
    else v2
  }

  /** UPDATE: configuration of a third node. */
  function HandleUpdate(v: View, about: NodeId, epoch: nat, claimed: set<Slot>): (w: Option<View>)
    requires Good(v)
    ensures w.Some? ==> Good(w.value) && SameElection(v, w.value)
  {
    if about !in v.nodes || v.nodes[about].configEpoch >= epoch then Some(v)
    else
      var v1 := SetNodeAsMaster(v, about);
      UpdateSlots(WithNode(v1, about, v1.nodes[about].(configEpoch := epoch)), about, epoch, claimed)
  }

  /** The tests of clusterSendFailoverAuthIfNeeded, in order; `timeOk` stands for the
      voted_time test. */
  predicate GrantsVote(v: View, m: Msg, timeOk: bool)
    requires Good(v) && m.src in v.nodes && m.body.AuthRequest?
  {
    && v.Me().role.Master? && v.Bits(v.myself) != {}
    && m.currentEpoch >= v.currentEpoch
    && v.lastVoteEpoch != v.currentEpoch
    && v.nodes[m.src].role.Replica?
    && v.nodes[m.src].slaveof.Some?
    && (v.nodes[v.nodes[m.src].slaveof.value].failed || m.body.forceAck)
    && timeOk
    && forall j | j in m.claimed && j in v.slots :: v.nodes[v.slots[j]].configEpoch <= m.configEpoch
  }

  /** An ack counts if it comes from a master with slots whose epoch is not older than
      the election. */
  predicate CountsAck(v: View, m: Msg)
    requires Good(v) && m.src in v.nodes
  {
    v.nodes[m.src].role.Master? && v.Bits(m.src) != {} && m.currentEpoch >= v.authEpoch
  }

  /** clusterSendFailoverAuthIfNeeded. */
  function VoteIfNeeded(v: View, m: Msg, timeOk: bool): (w: View)
    requires Good(v) && m.src in v.nodes && m.body.AuthRequest?
    ensures Good(w) && SameElection(v.(lastVoteEpoch := w.lastVoteEpoch), w) && w.nodes == v.nodes
    ensures w.lastVoteEpoch == if GrantsVote(v, m, timeOk) then v.currentEpoch else v.lastVoteEpoch
  {
    if GrantsVote(v, m, timeOk) then v.(lastVoteEpoch := v.currentEpoch) else v
  }

  /** FAILOVER_AUTH_ACK. */
  function CountAck(v: View, m: Msg): (w: View)
    requires Good(v) && m.src in v.nodes
    ensures Good(w) && SameElection(v.(authCount := w.authCount), w) && w.nodes == v.nodes
    ensures w.authCount == v.authCount + if CountsAck(v, m) then 1 else 0
  {
    if CountsAck(v, m) then v.(authCount := v.authCount + 1) else v
  }

  /** FAIL. */
  function MarkFailing(v: View, n: NodeId): (w: View)
    requires Good(v)
    ensures Good(w) && SameElection(v, w) && SameEpochs(v, w)
  {
    if n in v.nodes && n != v.myself then WithNode(v, n, v.nodes[n].(failed := true)) else v
  }

  /** The vote test, on the view that has learnt the epochs of the request. */
  predicate Votes(v: View, m: Msg, timeOk: bool)
    requires Good(v)
  {
    m.body.AuthRequest? && m.src in v.nodes && GrantsVote(LearnEpochs(v, m), m, timeOk)
  }

  predicate Counts(v: View, m: Msg)
    requires Good(v)
  {
    m.body.AuthAck? && m.src in v.nodes && CountsAck(LearnEpochs(v, m), m)
  }

  /** What a packet may change of the fields elections depend on. */
  ghost predicate PacketFrame(v: View, m: Msg, timeOk: bool, w: View)
    requires Good(v)
  {
    && w.myself == v.myself
    && w.currentEpoch >= v.currentEpoch
    && w.size == v.size
    && w.authEpoch == v.authEpoch
    && w.authSent == v.authSent
    && w.authCount == v.authCount + (if Counts(v, m) then 1 else 0)
    && w.lastVoteEpoch == (if Votes(v, m, timeOk) then LearnEpochs(v, m).currentEpoch else v.lastVoteEpoch)
  }

  /** clusterProcessPacket for a packet whose sender is not in handshake. */
  function ProcessPacket(v: View, m: Msg, timeOk: bool): (w: Option<View>)
    requires Good(v)
    ensures w.Some? ==> Good(w.value) && PacketFrame(v, m, timeOk, w.value)
  {
    if m.src !in v.nodes then Some(v)
    else
      var v0 := LearnEpochs(v, m);
      match m.body
      case Ping => HandlePing(v0, m)
      case Update(about, epoch, claimed) => HandleUpdate(v0, about, epoch, claimed)
      case AuthRequest(_) => Some(VoteIfNeeded(v0, m, timeOk))
      case AuthAck => Some(CountAck(v0, m))
      case Fail(n) => Some(MarkFailing(v0, n))
  }

  // ------------------------------------------------------------------ failover

  /** clusterFailoverReplaceYourMaster. */
  function ReplaceMaster(v: View): (w: View)
    requires Good(v)
    ensures Good(w)
  {
    if v.Me().role.Master? || v.Me().slaveof.None? then v
    else Bind(SetNodeAsMaster(v, v.myself), v.Bits(v.Me().slaveof.value), v.myself)
  }

  /** What the clock and the replication link say when clusterHandleSlaveFailover runs. */
  datatype Timing = Timing(
    manual: bool,        // manual failover in progress and allowed to start
    noFailover: bool,    // cluster-slave-no-failover
    dataTooOld: bool,
    retryDue: bool,      // auth_age > auth_retry_time
    tooEarly: bool,      // failover_auth_time not reached
    expired: bool)       // auth_age > auth_timeout

  datatype FailoverAction = Nothing | Scheduled | AskVotes | Won

  predicate MayFailover(v: View, t: Timing)
    requires Good(v)
  {
    && v.Me().role.Replica?
    && v.Me().slaveof.Some?
    && (v.nodes[v.Me().slaveof.value].failed || t.manual)
    && (!t.noFailover || t.manual)
    && v.Bits(v.Me().slaveof.value) != {}
  }

  /** clusterHandleSlaveFailover: the new view and what was done. */
  function HandleFailover(v: View, t: Timing): (r: (View, FailoverAction))
    requires Good(v)
    ensures Good(r.0)
  {
    if !MayFailover(v, t) then (v, Nothing)
    else if t.dataTooOld && !t.manual then (v, Nothing)
    else if t.retryDue then (v.(authCount := 0, authSent := false), Scheduled)
    else if t.tooEarly then (v, Nothing)
    else if t.expired then (v, Nothing)
    else if !v.authSent then
      (v.(currentEpoch := v.currentEpoch + 1, authEpoch := v.currentEpoch + 1, authSent := true), AskVotes)
    else if v.authCount >= v.size / 2 + 1 then
      var v1 := if v.Me().configEpoch < v.authEpoch then WithMyEpoch(v, v.authEpoch) else v;
      (ReplaceMaster(v1), Won)
    else (v, Nothing)
  }

  /** The count clusterUpdateState makes: masters that serve a slot. */
  function ClusterSize(v: View): nat {
    |set n | n in v.nodes && v.nodes[n].role.Master? && v.Bits(n) != {}|
  }

  // ------------------------------------------------------------------ commands

  /** What administrators order. Replicate also stands for replica migration, which ends in
      the same call of clusterSetMaster. */
  datatype Command =
    | AddSlots(slots: set<Slot>)
    | DelSlots(slots: set<Slot>)
    | SetSlotNode(slot: Slot, node: NodeId)
    | SetImporting(slot: Slot, node: NodeId)
    | SetMigrating(slot: Slot, node: NodeId)
    | SetStable(slot: Slot)
    | Forget(node: NodeId)
    | Replicate(node: NodeId, dbEmpty: bool)
    | Bump
    | SetConfigEpoch(epoch: nat)
    | Takeover

  /** clusterDelNode. */
  function DelNode(v: View, n: NodeId): (w: View)
    requires Good(v) && n in v.nodes && n != v.myself
    ensures Good(w)
  {
    var nodes := map x | x in v.nodes && x != n ::
                   if v.nodes[x].slaveof == Some(n) then v.nodes[x].(slaveof := None) else v.nodes[x];
    DelNodeGood(v, n, nodes);
    v.(importing := map j | j in v.importing && v.importing[j] != n :: v.importing[j],
       migrating := map j | j in v.migrating && v.migrating[j] != n :: v.migrating[j],
       slots := v.slots - v.Bits(n),
       nodes := nodes)
  }

  lemma DelNodeGood(v: View, n: NodeId, nodes: map<NodeId, Node>)
    requires Good(v) && n in v.nodes && n != v.myself
    requires nodes == map x | x in v.nodes && x != n ::
                        if v.nodes[x].slaveof == Some(n) then v.nodes[x].(slaveof := None) else v.nodes[x]
    ensures forall importing, migrating ::
              Good(v.(importing := importing, migrating := migrating, slots := v.slots - v.Bits(n), nodes := nodes))
  {
    var slots := v.slots - v.Bits(n);
    forall j | j in slots ensures slots[j] in nodes && nodes[slots[j]].role.Master? {
      assert j !in v.Bits(n);
    }
  }

  /** Neither ADDSLOTS nor SETSLOT NODE asks whether the new owner is a replica. */
  predicate OwnerIsMaster(v: View, c: Command)
    requires Good(v)
  {
    match c
    case AddSlots(slots) => v.Me().role.Master? || slots == {}
    case SetSlotNode(_, n) => n in v.nodes ==> v.nodes[n].role.Master?
    case _ => true
  }

  function SetSlotToNode(v: View, j: Slot, n: NodeId): View
    requires Good(v)
  {
    if v.Me().role.Replica? || n !in v.nodes then v
    else if v.Owner(j) == Some(v.myself) && n != v.myself && j in v.keyed then v
    else
      var v1 := if j !in v.keyed then v.(migrating := v.migrating - {j}) else v;
      var v2 := if n == v.myself && j in v.importing
                then BumpEpoch(v1).(importing := v.importing - {j}) else v1;
      Bind(v2, {j}, n)
  }

  /** CLUSTER SET-CONFIG-EPOCH: only for a node that knows no other and has no epoch yet. */
  function AssignEpoch(v: View, epoch: nat): (w: View)
    requires Good(v)
    ensures Good(w) && EpochGrew(v, w) && w.nodes.Keys == v.nodes.Keys
  {
    if v.nodes.Keys != {v.myself} || v.Me().configEpoch != 0 then v
    else WithMyEpoch(v.(currentEpoch := if v.currentEpoch < epoch then epoch else v.currentEpoch), epoch)
  }

  /** The CLUSTER command; a refused command leaves the view alone. */
  function Execute(v: View, c: Command): View
    requires Good(v)
  {
    match c
    case AddSlots(s) =>
      if s !! v.slots.Keys then Bind(v.(importing := v.importing - s), s, v.myself) else v
    case DelSlots(s) =>
      if s <= v.slots.Keys then Unbind(v.(importing := v.importing - s), s) else v
    case SetSlotNode(j, n) => SetSlotToNode(v, j, n)
    case SetImporting(j, n) =>
      if v.Me().role.Master? && v.Owner(j) != Some(v.myself) && n in v.nodes
      then v.(importing := v.importing[j := n]) else v
    case SetMigrating(j, n) =>
      if v.Me().role.Master? && v.Owner(j) == Some(v.myself) && n in v.nodes
      then v.(migrating := v.migrating[j := n]) else v
    case SetStable(j) =>
      if v.Me().role.Master?
      then v.(importing := v.importing - {j}, migrating := v.migrating - {j}) else v
    case Forget(n) =>
      if n in v.nodes && n != v.myself && !(v.Me().role.Replica? && v.Me().slaveof == Some(n))
      then DelNode(v, n) else v
    case Replicate(n, dbEmpty) =>
      if && n in v.nodes && n != v.myself && v.nodes[n].role.Master?
         && (v.Me().role.Master? ==> v.Bits(v.myself) == {} && dbEmpty)
      then
        assert v.Bits(v.myself) == {} by { if v.Me().role.Replica? { ReplicaOwnsNothing(v, v.myself); } }
        SetMaster(v, n)
      else v
    case Bump => BumpEpoch(v)
    case SetConfigEpoch(epoch) => AssignEpoch(v, epoch)
    case Takeover =>
      if v.Me().role.Replica? && v.Me().slaveof.Some? then ReplaceMaster(BumpEpoch(v)) else v
  }

  lemma BindGood(v: View, r: set<Slot>, n: NodeId)
    requires Good(v) && n in v.nodes
    ensures Good(Bind(v, r, n)) <==> v.nodes[n].role.Master? || r == {}
  {
    if r != {} {
      var j :| j in r;
      assert Bind(v, r, n).slots[j] == n;
    }
  }

  /** A command keeps the table sound exactly when it does not hand a slot to a replica. */
  lemma ExecuteGood(v: View, c: Command)
    requires Good(v)
    ensures OwnerIsMaster(v, c) || Execute(v, c) == v <==> Good(Execute(v, c))
  {
    match c
    case AddSlots(s) =>
      var v1 := v.(importing := v.importing - s);
      BindGood(v1, s, v.myself);
      if s == {} { assert Execute(v, c) == v; }
    case SetSlotNode(j, n) =>
      SetSlotGood(v, j, n);
    case DelSlots(s) =>
    case _ =>
      assert Good(Execute(v, c));
  }

  lemma SetSlotGood(v: View, j: Slot, n: NodeId)
    requires Good(v)
    ensures (n in v.nodes ==> v.nodes[n].role.Master?) || SetSlotToNode(v, j, n) == v
            <==> Good(SetSlotToNode(v, j, n))
  {
    if v.Me().role.Master? && n in v.nodes {
      var v1 := if j !in v.keyed then v.(migrating := v.migrating - {j}) else v;
      var v2 := if n == v.myself && j in v.importing
                then BumpEpoch(v1).(importing := v.importing - {j}) else v1;
      BindGood(v2, {j}, n);
    }
  }
}
