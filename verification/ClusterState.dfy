/**
 `server.cluster` as cluster.c keeps it: beside the slot table each node record carries
 its own slot bitmap, a counter of the bits set, and an array of its replicas, all
 updated in place. Every method is proved to keep them in agreement with the table and
 to do to the view what the function of the same name in ClusterView says.
 */
module ClusterState {
  import opened Wrappers
  import V = ClusterView
  import opened ClusterView

  /** struct clusterNode. */
  datatype ClusterNode = ClusterNode(
    role: Role,
    failed: bool,
    configEpoch: nat,
    slaveof: Option<NodeId>,
    bits: set<Slot>,
    numslots: int,
    slaves: seq<NodeId>)

  type Nodes = map<NodeId, ClusterNode>

  function Abstract(nodes: Nodes): (abs: map<NodeId, Node>)
    ensures abs.Keys == nodes.Keys
  {
    map n | n in nodes :: Node(nodes[n].role, nodes[n].failed, nodes[n].configEpoch, nodes[n].slaveof)
  }

  ghost predicate NoDuplicates(s: seq<NodeId>) {
    forall i, k | 0 <= i < k < |s| :: s[i] != s[k]
  }

  /** Bitmaps and counters say what the table says. */
  ghost predicate BitmapsAgree(nodes: Nodes, slots: map<Slot, NodeId>) {
    && (forall n, j | n in nodes :: j in nodes[n].bits <==> j in slots && slots[j] == n)
    && (forall n | n in nodes :: nodes[n].numslots == |nodes[n].bits|)
  }

  /** The replicas of a node are listed once each. */
  ghost predicate ListsAgree(nodes: Nodes) {
    forall n | n in nodes ::
      && NoDuplicates(nodes[n].slaves)
      && forall y :: y in nodes[n].slaves <==> y in nodes && nodes[y].slaveof == Some(n)
  }

  lemma BindBitmaps(nodes: Nodes, slots: map<Slot, NodeId>, n: NodeId, j: Slot)
    requires BitmapsAgree(nodes, slots) && n in nodes && j !in slots
    ensures BitmapsAgree(nodes[n := nodes[n].(bits := nodes[n].bits + {j}, numslots := nodes[n].numslots + 1)], slots[j := n])
  {
  }

  lemma UnbindBitmaps(nodes: Nodes, slots: map<Slot, NodeId>, j: Slot)
    requires BitmapsAgree(nodes, slots) && j in slots && slots[j] in nodes
    ensures var n := slots[j];
            BitmapsAgree(nodes[n := nodes[n].(bits := nodes[n].bits - {j}, numslots := nodes[n].numslots - 1)], slots - {j})
  {
  }

  /** A change to one bitmap is invisible to the view and to the replica lists. */
  lemma BitsInvisible(nodes: Nodes, n: NodeId, bits: set<Slot>, count: int)
    requires n in nodes
    ensures var nodes' := nodes[n := nodes[n].(bits := bits, numslots := count)];
            Abstract(nodes') == Abstract(nodes) && (ListsAgree(nodes) ==> ListsAgree(nodes'))
  {
    var nodes' := nodes[n := nodes[n].(bits := bits, numslots := count)];
    assert forall x | x in nodes :: nodes'[x].slaves == nodes[x].slaves && nodes'[x].slaveof == nodes[x].slaveof;
  }

  lemma OwnerKnown(v: View, j: Slot)
    requires Good(v) && j in v.slots
    ensures v.slots[j] in v.nodes
  {
  }

  lemma UnbindGood(v: View, r: set<Slot>)
    requires Good(v)
    ensures Good(Unbind(v, r))
  {
  }

  lemma BindOne(v: View, j: Slot, n: NodeId)
    ensures Bind(v, {j}, n).slots == v.slots[j := n]
  {
  }

  /** The array without the first occurrence of `x`. */
  function Without(s: seq<NodeId>, x: NodeId): (r: seq<NodeId>)
    ensures x !in s ==> r == s
    ensures NoDuplicates(s) ==> NoDuplicates(r) && x !in r && forall y :: y in r <==> y in s && y != x
  {
    if s == [] then []
    else if s[0] == x then s[1..]
    else
      var rest := Without(s[1..], x);
      assert NoDuplicates(s) ==> NoDuplicates(s[1..]) && s[0] !in s[1..];
      [s[0]] + rest
  }

  lemma {:induction false} WithoutAt(s: seq<NodeId>, x: NodeId, j: nat)
    requires j < |s| && s[j] == x && x !in s[..j]
    ensures Without(s, x) == s[..j] + s[j + 1..]
  {
    if j > 0 {
      assert s[1..][..j - 1] == s[..j][1..];
      WithoutAt(s[1..], x, j - 1);
    }
  }

  /** Node `x` once `n` has role `role` and replicates `m`. */
  function Relinked(node: ClusterNode, x: NodeId, n: NodeId, m: Option<NodeId>, role: Role): (r: ClusterNode)
    ensures NoDuplicates(node.slaves) ==>
              && NoDuplicates(r.slaves)
              && forall y :: y in r.slaves <==> if y == n then m == Some(x) else y in node.slaves
  {
    var others := Without(node.slaves, n);
    var node1 := node.(slaves := if m == Some(x) then others + [n] else others);
    if x == n then node1.(role := role, slaveof := m) else node1
  }

  function Relink(nodes: Nodes, n: NodeId, m: Option<NodeId>, role: Role): Nodes {
    map x | x in nodes :: Relinked(nodes[x], x, n, m, role)
  }

  lemma RelinkLists(nodes: Nodes, n: NodeId, m: Option<NodeId>, role: Role)
    requires ListsAgree(nodes) && n in nodes
    ensures ListsAgree(Relink(nodes, n, m, role))
  {
  }

  lemma RelinkBitmaps(nodes: Nodes, slots: map<Slot, NodeId>, n: NodeId, m: Option<NodeId>, role: Role)
    requires BitmapsAgree(nodes, slots)
    ensures BitmapsAgree(Relink(nodes, n, m, role), slots)
  {
    hide NoDuplicates, Without;
    assert forall x | x in nodes :: Relinked(nodes[x], x, n, m, role).bits == nodes[x].bits
                                    && Relinked(nodes[x], x, n, m, role).numslots == nodes[x].numslots;
  }

  lemma RelinkAbstract(nodes: Nodes, n: NodeId, m: Option<NodeId>, role: Role)
    requires n in nodes
    ensures Abstract(Relink(nodes, n, m, role)) == Abstract(nodes)[n := Abstract(nodes)[n].(role := role, slaveof := m)]
  {
  }

  /** Removing `n` from the list of its master is all the unlinking there is. */
  lemma UnlinkIsRelink(nodes: Nodes, n: NodeId, role: Role)
    requires ListsAgree(nodes) && n in nodes
    requires nodes[n].slaveof.Some? ==> nodes[n].slaveof.value in nodes
    ensures var nodes1 := Unlink(nodes, n);
            n in nodes1 && nodes1[n := nodes1[n].(role := role, slaveof := None)] == Relink(nodes, n, None, role)
  {
    hide Without, NoDuplicates, ListsAgree;
    var left, right := Unlink(nodes, n), Relink(nodes, n, None, role);
    UnlinkedFrom(nodes, n, n);
    var left' := left[n := left[n].(role := role, slaveof := None)];
    assert left'.Keys == right.Keys;
    forall x | x in nodes ensures left'[x] == right[x] {
      UnlinkedFrom(nodes, n, x);
    }
  }

  function Unlink(nodes: Nodes, n: NodeId): Nodes
    requires n in nodes && (nodes[n].slaveof.Some? ==> nodes[n].slaveof.value in nodes)
  {
    match nodes[n].slaveof
    case None => nodes
    case Some(m) => nodes[m := nodes[m].(slaves := Without(nodes[m].slaves, n))]
  }

  lemma AbstractNode(nodes: Nodes, n: NodeId)
    requires n in nodes
    ensures Abstract(nodes)[n] == Node(nodes[n].role, nodes[n].failed, nodes[n].configEpoch, nodes[n].slaveof)
  {
  }

  lemma MeKnown(v: View)
    requires Good(v)
    ensures v.myself in v.nodes
  {
  }

  lemma BitsAre(nodes: Nodes, v: View, n: NodeId)
    requires BitmapsAgree(nodes, v.slots) && n in nodes
    ensures nodes[n].bits == v.Bits(n)
    ensures nodes[n].numslots == |nodes[n].bits|
  {
  }

  lemma NoMasterOfMaster(v: View, n: NodeId)
    requires Good(v) && n in v.nodes && v.nodes[n].role.Master?
    ensures v.nodes[n].slaveof.None?
  {
  }

  lemma MasterKnown(v: View, n: NodeId)
    requires Good(v) && n in v.nodes
    ensures v.nodes[n].slaveof.Some? ==> v.nodes[n].slaveof.value in v.nodes
  {
  }

  /** Unlink, then append to the array of the new master. */
  lemma MoveIsRelink(nodes: Nodes, n: NodeId, m: NodeId)
    requires ListsAgree(nodes) && n in nodes && m in nodes && m != n
    requires nodes[n].slaveof.Some? ==> nodes[n].slaveof.value in nodes
    ensures var nodes1 := Unlink(nodes, n);
            && n in nodes1 && m in nodes1 && n !in nodes1[m].slaves
            && nodes1[n := nodes1[n].(role := Replica, slaveof := Some(m))]
                     [m := nodes1[m].(slaves := nodes1[m].slaves + [n])]
               == Relink(nodes, n, Some(m), Replica)
  {
    hide Without, NoDuplicates, ListsAgree;
    var nodes1, right := Unlink(nodes, n), Relink(nodes, n, Some(m), Replica);
    UnlinkedFrom(nodes, n, m);
    var left := nodes1[n := nodes1[n].(role := Replica, slaveof := Some(m))]
                      [m := nodes1[m].(slaves := nodes1[m].slaves + [n])];
    assert left.Keys == right.Keys;
    forall x | x in nodes ensures left[x] == right[x] {
      UnlinkedFrom(nodes, n, x);
    }
  }

  lemma UnlinkedFrom(nodes: Nodes, n: NodeId, x: NodeId)
    requires ListsAgree(nodes) && n in nodes && x in nodes
    requires nodes[n].slaveof.Some? ==> nodes[n].slaveof.value in nodes
    ensures var nodes1 := Unlink(nodes, n);
            && nodes1.Keys == nodes.Keys
            && nodes1[x] == nodes[x].(slaves := Without(nodes[x].slaves, n))
            && n !in nodes1[x].slaves
  {
    hide Without;
    assert NoDuplicates(nodes[x].slaves);
    assert n in nodes[x].slaves <==> nodes[n].slaveof == Some(x);
  }

  /** The slots of `r` that a scan has passed. */
  function Below(r: set<Slot>, j: nat): set<Slot> {
    set x | x in r && x < j
  }

  lemma BelowNext(r: set<Slot>, j: Slot)
    ensures Below(r, j + 1) == if j in r then Below(r, j) + {j} else Below(r, j)
    ensures j !in Below(r, j)
  {
  }

  /** A scan that unbinds the slots of `n` finds the next one untouched. */
  lemma StillOwned(v: View, n: NodeId, j: Slot)
    ensures j in Unbind(v, Below(v.Bits(n), j)).Bits(n) <==> j in v.Bits(n)
  {
  }

  lemma SetMasterView(v: View, n: NodeId)
    requires Good(v) && n in v.nodes && n != v.myself && v.Bits(v.myself) == {}
    ensures V.SetMaster(v, n) ==
            v.(nodes := v.nodes[v.myself := v.nodes[v.myself].(role := Replica, slaveof := Some(n))],
               importing := if v.nodes[v.myself].role.Master? then map[] else v.importing,
               migrating := if v.nodes[v.myself].role.Master? then map[] else v.migrating)
  {
    hide Good;
  }

  lemma BelowAll(r: set<Slot>)
    ensures Below(r, CLUSTER_SLOTS) == r && Below(r, 0) == {}
  {
  }

  lemma BindMore(v: View, r: set<Slot>, j: Slot, n: NodeId)
    ensures Bind(Unbind(Bind(v, r, n), {j}), {j}, n) == Bind(v, r + {j}, n)
  {
    assert Bind(Unbind(Bind(v, r, n), {j}), {j}, n).slots == Bind(v, r + {j}, n).slots;
  }

  lemma UnbindMore(v: View, r: set<Slot>, j: Slot)
    ensures Unbind(Unbind(v, r), {j}) == Unbind(v, r + {j})
  {
    assert v.slots - r - {j} == v.slots - (r + {j});
  }

  lemma UnbindNodes(v: View, r: set<Slot>)
    ensures Unbind(v, r).nodes == v.nodes
  {
  }

  lemma UnbindNone(v: View)
    ensures Unbind(v, {}) == v
  {
    assert v.slots - {} == v.slots;
  }

  lemma BindNone(v: View, n: NodeId)
    ensures Bind(v, {}, n) == v
  {
    assert Bind(v, {}, n).slots == v.slots;
  }

  /** When the scan reaches slot `j`, its owner is the one before the scan, so the test it
      makes is membership in the set of slots to rebind. */
  lemma UntouchedSlot(v: View, r: set<Slot>, j: Slot, sender: NodeId, epoch: nat, claimed: set<Slot>)
    requires Good(v) && r == Rebound(v, sender, epoch, claimed)
    ensures var w := Bind(v, Below(r, j), sender);
            && w.nodes == v.nodes && w.importing == v.importing && w.keyed == v.keyed && w.myself == v.myself
            && (j in w.slots <==> j in v.slots) && (j in v.slots ==> w.slots[j] == v.slots[j] && v.slots[j] in v.nodes)
            && (j in r <==> && j in claimed && !(j in w.slots && w.slots[j] == sender) && j !in w.importing
                            && (j in w.slots ==> w.nodes[w.slots[j]].configEpoch < epoch))
  {
  }

  lemma BindFrame(v: View, r: set<Slot>, n: NodeId)
    ensures var w := Bind(v, r, n); w == v.(slots := w.slots)
  {
  }

  lemma CurMasterKnown(v: View)
    requires Good(v)
    ensures CurMaster(v).Some? ==> CurMaster(v).value in v.nodes
  {
  }

  lemma KeysInvisible(v: View, keyed: set<Slot>)
    requires Good(v)
    ensures Good(v.(keyed := keyed))
  {
  }

  /** The scan of a failover finds each slot of the old master still in its bitmap; if the
      old master is this node, the slots stay where they are. */
  lemma StillToMove(v: View, oldmaster: NodeId, j: Slot)
    requires Good(v)
    ensures j in Bind(v, Below(v.Bits(oldmaster), j), v.myself).Bits(oldmaster) <==> j in v.Bits(oldmaster)
  {
  }

  /** The failure flag and the epoch of a node touch no bitmap and no list. */
  lemma RecordInvisible(nodes: Nodes, slots: map<Slot, NodeId>, n: NodeId, failed: bool, epoch: nat)
    requires n in nodes && BitmapsAgree(nodes, slots) && ListsAgree(nodes)
    ensures var nodes' := nodes[n := nodes[n].(failed := failed, configEpoch := epoch)];
            && BitmapsAgree(nodes', slots) && ListsAgree(nodes')
            && Abstract(nodes') == Abstract(nodes)[n := Abstract(nodes)[n].(failed := failed, configEpoch := epoch)]
            && Abstract(nodes)[n].failed == nodes[n].failed
  {
    hide BitmapsAgree, ListsAgree;
    var nodes' := nodes[n := nodes[n].(failed := failed, configEpoch := epoch)];
    BitmapsSame(nodes, nodes', slots);
    ListsSame(nodes, nodes');
  }

  lemma BitmapsSame(nodes: Nodes, nodes': Nodes, slots: map<Slot, NodeId>)
    requires BitmapsAgree(nodes, slots) && nodes'.Keys == nodes.Keys
    requires forall x | x in nodes :: nodes'[x].bits == nodes[x].bits && nodes'[x].numslots == nodes[x].numslots
    ensures BitmapsAgree(nodes', slots)
  {
  }

  lemma ListsSame(nodes: Nodes, nodes': Nodes)
    requires ListsAgree(nodes) && nodes'.Keys == nodes.Keys
    requires forall x | x in nodes :: nodes'[x].slaves == nodes[x].slaves && nodes'[x].slaveof == nodes[x].slaveof
    ensures ListsAgree(nodes')
  {
  }

  lemma RoleInvisible(nodes: Nodes, slots: map<Slot, NodeId>, n: NodeId, role: Role)
    requires n in nodes && BitmapsAgree(nodes, slots) && ListsAgree(nodes)
    ensures var nodes' := nodes[n := nodes[n].(role := role)];
            && BitmapsAgree(nodes', slots) && ListsAgree(nodes')
            && Abstract(nodes') == Abstract(nodes)[n := Abstract(nodes)[n].(role := role)]
  {
    hide BitmapsAgree, ListsAgree;
    var nodes' := nodes[n := nodes[n].(role := role)];
    BitmapsSame(nodes, nodes', slots);
    ListsSame(nodes, nodes');
  }

  /** As MoveIsRelink, in the order clusterProcessPacket uses: the array first. */
  lemma AdoptIsRelink(nodes: Nodes, n: NodeId, m: NodeId)
    requires ListsAgree(nodes) && n in nodes && m in nodes && nodes[n].role.Replica?
    requires nodes[n].slaveof.Some? ==> nodes[n].slaveof.value in nodes
    ensures var nodes1 := Unlink(nodes, n);
            && n in nodes1 && m in nodes1 && n !in nodes1[m].slaves
            && var nodes2 := nodes1[m := nodes1[m].(slaves := nodes1[m].slaves + [n])];
            nodes2[n := nodes2[n].(slaveof := Some(m))] == Relink(nodes, n, Some(m), Replica)
  {
    hide Without, NoDuplicates, ListsAgree;
    var nodes1, right := Unlink(nodes, n), Relink(nodes, n, Some(m), Replica);
    UnlinkedFrom(nodes, n, m);
    UnlinkedFrom(nodes, n, n);
    var nodes2 := nodes1[m := nodes1[m].(slaves := nodes1[m].slaves + [n])];
    var left := nodes2[n := nodes2[n].(slaveof := Some(m))];
    assert left.Keys == right.Keys;
    forall x | x in nodes ensures left[x] == right[x] {
      UnlinkedFrom(nodes, n, x);
    }
  }

  lemma ElectionInvisible(v: View)
    requires Good(v)
    ensures Good(v.(authCount := 0, authSent := false))
    ensures Good(v.(currentEpoch := v.currentEpoch + 1, authEpoch := v.currentEpoch + 1, authSent := true))
  {
  }

  lemma AssignIs(v: View, epoch: nat)
    requires Good(v)
    ensures v.myself in v.nodes
    ensures AssignEpoch(v, epoch) ==
            if v.nodes.Keys != {v.myself} || v.nodes[v.myself].configEpoch != 0 then v
            else v.(currentEpoch := if v.currentEpoch < epoch then epoch else v.currentEpoch,
                    nodes := v.nodes[v.myself := v.nodes[v.myself].(configEpoch := epoch)])
  {
    hide Good;
    MeKnown(v);
  }

  lemma OnlyMe(keys: set<NodeId>, me: NodeId)
    requires me in keys
    ensures |keys| > 1 <==> keys != {me}
  {
    if forall n | n in keys :: n == me {
      assert keys == {me};
    } else {
      var n :| n in keys && n != me;
      assert {me, n} <= keys;
      SubsetSize({me, n}, keys);
    }
  }

  lemma {:induction false} SubsetSize(a: set<NodeId>, b: set<NodeId>)
    requires a <= b
    ensures |a| <= |b|
    decreases a
  {
    if a != {} {
      var x :| x in a;
      SubsetSize(a - {x}, b - {x});
    }
  }

  lemma CountGood(v: View, k: nat)
    requires Good(v)
    ensures Good(v.(authCount := k))
  {
  }

  /** The entries that do not point to `n`, as far as a scan has come. */
  function Purge(m: map<Slot, NodeId>, n: NodeId, j: nat): map<Slot, NodeId> {
    map x | x in m && !(m[x] == n && x < j) :: m[x]
  }

  /** The view when the scan of clusterDelNode has passed the slots below `j`. */
  function Scanned(v: View, n: NodeId, j: nat): View {
    Unbind(v, Below(v.Bits(n), j)).(importing := Purge(v.importing, n, j), migrating := Purge(v.migrating, n, j))
  }

  lemma ScannedNone(v: View, n: NodeId)
    ensures Scanned(v, n, 0) == v
  {
    BelowAll(v.Bits(n));
    UnbindNone(v);
    assert Purge(v.importing, n, 0) == v.importing && Purge(v.migrating, n, 0) == v.migrating;
  }

  lemma ScannedNext(v: View, n: NodeId, j: Slot)
    ensures var w := Scanned(v, n, j);
            Scanned(v, n, j + 1) ==
              (if w.Owner(j) == Some(n) then Unbind(w, {j}) else w).(
                importing := if j in w.importing && w.importing[j] == n then w.importing - {j} else w.importing,
                migrating := if j in w.migrating && w.migrating[j] == n then w.migrating - {j} else w.migrating)
  {
    hide Below, Unbind, Purge;
    BelowNext(v.Bits(n), j);
    UnbindMore(v, Below(v.Bits(n), j), j);
    StillOwned(v, n, j);
    PurgeNext(v.importing, n, j);
    PurgeNext(v.migrating, n, j);
    UnbindIs(v, Below(v.Bits(n), j));
    UnbindIs(Scanned(v, n, j), {j});
    UnbindIs(Unbind(v, Below(v.Bits(n), j)), {j});
  }

  lemma UnbindIs(v: View, r: set<Slot>)
    ensures Unbind(v, r) == v.(slots := v.slots - r)
  {
  }

  lemma PurgeNext(m: map<Slot, NodeId>, n: NodeId, j: Slot)
    ensures var p := Purge(m, n, j);
            Purge(m, n, j + 1) == if j in p && p[j] == n then p - {j} else p
  {
  }

  lemma LinksGood(v: View, importing: map<Slot, NodeId>, migrating: map<Slot, NodeId>)
    requires Good(v)
    ensures Good(v.(importing := importing, migrating := migrating))
    ensures Good(v.(importing := importing)) && Good(v.(migrating := migrating))
  {
  }

  function Orphaned(nodes: Nodes, slaves: seq<NodeId>): Nodes {
    map x | x in nodes :: if x in slaves then nodes[x].(slaveof := None) else nodes[x]
  }

  lemma OrphanNone(nodes: Nodes)
    ensures Orphaned(nodes, []) == nodes
  {
  }

  lemma OrphanMore(nodes: Nodes, slaves: seq<NodeId>, i: nat)
    requires i < |slaves| && slaves[i] in nodes
    ensures var nodes1 := Orphaned(nodes, slaves[..i]);
            && slaves[i] in nodes1
            && Orphaned(nodes, slaves[..i + 1]) == nodes1[slaves[i] := nodes1[slaves[i]].(slaveof := None)]
  {
    assert slaves[..i + 1] == slaves[..i] + [slaves[i]];
  }

  lemma SlavesKnown(nodes: Nodes, n: NodeId, x: NodeId)
    requires ListsAgree(nodes) && n in nodes && x in nodes[n].slaves
    ensures x in nodes
  {
  }

  /** The records once `n` is gone. */
  function Freed(nodes: Nodes, n: NodeId): Nodes {
    map x | x in nodes && x != n ::
      nodes[x].(slaves := Without(nodes[x].slaves, n),
                slaveof := if nodes[x].slaveof == Some(n) then None else nodes[x].slaveof)
  }

  lemma FreedIs(nodes: Nodes, n: NodeId)
    requires ListsAgree(nodes) && n in nodes
    requires nodes[n].slaveof.Some? ==> nodes[n].slaveof.value in nodes
    ensures var nodes1 := Orphaned(nodes, nodes[n].slaves);
            && n in nodes1 && (nodes1[n].slaveof.Some? ==> nodes1[n].slaveof.value in nodes1)
            && Unlink(nodes1, n) - {n} == Freed(nodes, n)
  {
    hide Without, NoDuplicates;
    var left, right := Unlink(Orphaned(nodes, nodes[n].slaves), n) - {n}, Freed(nodes, n);
    assert left.Keys == right.Keys;
    forall x | x in nodes && x != n ensures left[x] == right[x] {
      assert x in nodes[n].slaves <==> nodes[x].slaveof == Some(n);
      assert n in nodes[x].slaves <==> nodes[n].slaveof == Some(x);
    }
  }

  /** What the view keeps of the other nodes once `n` is gone. */
  function Survivors(nodes: map<NodeId, Node>, n: NodeId): map<NodeId, Node> {
    map x | x in nodes && x != n :: if nodes[x].slaveof == Some(n) then nodes[x].(slaveof := None) else nodes[x]
  }

  lemma FreedBitmaps(nodes: Nodes, slots: map<Slot, NodeId>, n: NodeId)
    requires BitmapsAgree(nodes, slots)
    ensures BitmapsAgree(Freed(nodes, n), slots)
  {
    hide Without, NoDuplicates;
  }

  lemma FreedLists(nodes: Nodes, n: NodeId)
    requires ListsAgree(nodes)
    ensures ListsAgree(Freed(nodes, n))
  {
    hide Without;
    var free := Freed(nodes, n);
    forall x | x in free
      ensures NoDuplicates(free[x].slaves)
      ensures forall y :: y in free[x].slaves <==> y in free && free[y].slaveof == Some(x)
    {
      assert NoDuplicates(nodes[x].slaves);
    }
  }

  lemma FreedAbstract(nodes: Nodes, n: NodeId)
    ensures Abstract(Freed(nodes, n)) == Survivors(Abstract(nodes), n)
  {
    hide Without, NoDuplicates;
  }

  lemma ForgetIsDelNode(v: View, w: View, n: NodeId)
    requires Good(v) && n in v.nodes && n != v.myself
    requires w == Unbind(v, v.Bits(n)).(importing := Purge(v.importing, n, CLUSTER_SLOTS),
                                       migrating := Purge(v.migrating, n, CLUSTER_SLOTS))
    ensures V.DelNode(v, n) == w.(nodes := Survivors(w.nodes, n))
  {
  }

  class Cluster {
    var myself: NodeId
    var nodes: Nodes
    var slots: map<Slot, NodeId>
    var importing: map<Slot, NodeId>
    var migrating: map<Slot, NodeId>
    var keyed: set<Slot>
    var noRedirection: bool
    var currentEpoch: nat
    var lastVoteEpoch: nat
    var size: nat
    var authEpoch: nat
    var authCount: nat
    var authSent: bool

    ghost function View(): View
      reads this
    {
      V.View(myself, Abstract(nodes), slots, importing, migrating, keyed, noRedirection,
             currentEpoch, lastVoteEpoch, size, authEpoch, authCount, authSent)
    }

    /** The agreement every handler keeps. */
    ghost predicate Valid()
      reads this
    {
      Good(View()) && BitmapsAgree(nodes, slots) && ListsAgree(nodes)
    }

    /** A node that has never met another: a master without slots. */
    constructor (name: NodeId)
      ensures Valid()
      ensures View() == V.View(name, map[name := Node(Master, false, 0, None)], map[], map[], map[], {}, false,
                               0, 0, 1, 0, 0, false)
    {
      myself := name;
      nodes := map[name := ClusterNode(Master, false, 0, None, {}, 0, [])];
      slots, importing, migrating, keyed := map[], map[], map[], {};
      noRedirection := false;
      currentEpoch, lastVoteEpoch, size := 0, 0, 1;
      authEpoch, authCount, authSent := 0, 0, false;
    }

    /** clusterAddSlot. It does not ask whether the node is a master; bitmaps and lists agree
        either way, but a slot bound to a replica is the end of the rest. */
    method AddSlot(n: NodeId, j: Slot) returns (ok: bool)
      requires Valid() && n in nodes
      modifies this`nodes, this`slots
      ensures BitmapsAgree(nodes, slots) && ListsAgree(nodes)
      ensures Valid() <==> !ok || old(nodes[n]).role.Master?
      ensures ok <==> j !in old(slots)
      ensures View() == if ok then Bind(old(View()), {j}, n) else old(View())
    {
      hide Good, BitmapsAgree, ListsAgree;
      if j in slots { return false; }
      AbstractNode(nodes, n);
      BindBitmaps(nodes, slots, n, j);
      BitsInvisible(nodes, n, nodes[n].bits + {j}, nodes[n].numslots + 1);
      BindGood(View(), {j}, n);
      BindOne(View(), j, n);
      var node := nodes[n];
      nodes := nodes[n := node.(bits := node.bits + {j}, numslots := node.numslots + 1)];
      slots := slots[j := n];
      return true;
    }

    /** clusterDelSlot; the assert is the serverAssert of the source. */
    method DelSlot(j: Slot) returns (ok: bool)
      requires Valid()
      modifies this`nodes, this`slots
      ensures Valid()
      ensures ok <==> j in old(slots)
      ensures View() == Unbind(old(View()), {j})
    {
      hide Good, ListsAgree;
      if j !in slots {
        assert slots - {j} == slots;
        return false;
      }
      var n := slots[j];
      OwnerKnown(View(), j);
      assert j in nodes[n].bits;
      UnbindBitmaps(nodes, slots, j);
      BitsInvisible(nodes, n, nodes[n].bits - {j}, nodes[n].numslots - 1);
      UnbindGood(View(), {j});
      var node := nodes[n];
      nodes := nodes[n := node.(bits := node.bits - {j}, numslots := node.numslots - 1)];
      slots := slots - {j};
      return true;
    }

    /** clusterNodeRemoveSlave. */
    method RemoveSlave(m: NodeId, n: NodeId) returns (ok: bool)
      requires m in nodes
      modifies this`nodes
      ensures nodes == old(nodes)[m := old(nodes[m]).(slaves := Without(old(nodes[m].slaves), n))]
      ensures ok <==> n in old(nodes[m].slaves)
    {
      var slaves := nodes[m].slaves;
      var j := 0;
      while j < |slaves|
        invariant 0 <= j <= |slaves|
        invariant n !in slaves[..j]
      {
        if slaves[j] == n {
          WithoutAt(slaves, n, j);
          nodes := nodes[m := nodes[m].(slaves := slaves[..j] + slaves[j + 1..])];
          return true;
        }
        j := j + 1;
      }
      assert nodes == nodes[m := nodes[m]];
      return false;
    }

    /** clusterNodeAddSlave. */
    method AddSlave(m: NodeId, n: NodeId) returns (ok: bool)
      requires m in nodes
      modifies this`nodes
      ensures ok <==> n !in old(nodes[m].slaves)
      ensures nodes == if ok then old(nodes)[m := old(nodes[m]).(slaves := old(nodes[m].slaves) + [n])] else old(nodes)
    {
      var slaves := nodes[m].slaves;
      var j := 0;
      while j < |slaves|
        invariant 0 <= j <= |slaves|
        invariant n !in slaves[..j]
      {
        if slaves[j] == n { return false; }
        j := j + 1;
      }
      nodes := nodes[m := nodes[m].(slaves := slaves + [n])];
      return true;
    }

    /** clusterSetNodeAsMaster. */
    method SetNodeAsMaster(n: NodeId)
      requires Valid() && n in nodes
      modifies this`nodes
      ensures Valid() && View() == V.SetNodeAsMaster(old(View()), n)
    {
      hide Good, BitmapsAgree, ListsAgree, Relink, Without;
      if nodes[n].role.Master? { return; }
      MasterKnown(View(), n);
      RelinkLists(nodes, n, None, Master);
      RelinkBitmaps(nodes, slots, n, None, Master);
      RelinkAbstract(nodes, n, None, Master);
      UnlinkIsRelink(nodes, n, Master);
      if nodes[n].slaveof.Some? {
        var _ := RemoveSlave(nodes[n].slaveof.value, n);
      }
      nodes := nodes[n := nodes[n].(role := Master, slaveof := None)];
      assert nodes == Relink(old(nodes), n, None, Master);
      assert View() == V.SetNodeAsMaster(old(View()), n);
    }

    /** The pointer work of clusterSetMaster: leave the old master's array, join the new one's. */
    method MoveToMaster(n: NodeId)
      requires ListsAgree(nodes) && myself in nodes && n in nodes && n != myself
      requires nodes[myself].slaveof.Some? ==> nodes[myself].slaveof.value in nodes
      modifies this`nodes
      ensures nodes == Relink(old(nodes), myself, Some(n), Replica)
    {
      hide ListsAgree, Relink, Without, NoDuplicates;
      MoveIsRelink(nodes, myself, n);
      if nodes[myself].slaveof.Some? {
        var _ := RemoveSlave(nodes[myself].slaveof.value, myself);
      }
      assert nodes == Unlink(old(nodes), myself);
      nodes := nodes[myself := nodes[myself].(role := Replica, slaveof := Some(n))];
      var _ := AddSlave(n, myself);
    }

    /** clusterSetMaster; the two asserts are the serverAsserts of the source. */
    method SetMaster(n: NodeId)
      requires Valid() && n in nodes && n != myself && View().Bits(myself) == {}
      modifies this`nodes, this`importing, this`migrating
      ensures Valid() && View() == V.SetMaster(old(View()), n)
    {
      hide Good, BitmapsAgree, ListsAgree, Relink, V.SetMaster, Abstract;
      SetMasterView(View(), n);
      MeKnown(View());
      AbstractNode(nodes, myself);
      BitsAre(nodes, View(), myself);
      assert n != myself;
      assert nodes[myself].numslots == 0;
      MasterKnown(View(), myself);
      RelinkLists(nodes, myself, Some(n), Replica);
      RelinkBitmaps(nodes, slots, myself, Some(n), Replica);
      RelinkAbstract(nodes, myself, Some(n), Replica);
      if nodes[myself].role.Master? {
        importing, migrating := map[], map[];
      }
      MoveToMaster(n);
      assert View() == V.SetMaster(old(View()), n);
    }

    /** clusterDelNodeSlots. */
    method DelNodeSlots(n: NodeId) returns (deleted: nat)
      requires Valid() && n in nodes
      modifies this`nodes, this`slots
      ensures Valid() && View() == Unbind(old(View()), old(View()).Bits(n))
      ensures deleted == |old(View()).Bits(n)|
    {
      hide Good, BitmapsAgree, ListsAgree, Below, Unbind;
      ghost var r := View().Bits(n);
      deleted := 0;
      var j := 0;
      BelowAll(r);
      UnbindNone(View());
      while j < CLUSTER_SLOTS
        invariant 0 <= j <= CLUSTER_SLOTS
        invariant Valid() && View() == Unbind(old(View()), Below(r, j))
        invariant deleted == |Below(r, j)|
      {
        BelowNext(r, j);
        UnbindMore(old(View()), Below(r, j), j);
        UnbindNodes(old(View()), Below(r, j));
        BitsAre(nodes, View(), n);
        StillOwned(old(View()), n, j);
        if j in nodes[n].bits {
          var _ := DelSlot(j);
          deleted := deleted + 1;
        }
        j := j + 1;
      }
    }

    /** One step of a scan that hands slots to `n`: clusterDelSlot, then clusterAddSlot. */
    method MoveSlot(j: Slot, n: NodeId)
      requires Valid() && n in nodes && nodes[n].role.Master?
      modifies this`nodes, this`slots
      ensures Valid() && View() == Bind(Unbind(old(View()), {j}), {j}, n)
    {
      hide Good, BitmapsAgree, ListsAgree;
      AbstractNode(nodes, n);
      var _ := DelSlot(j);
      AbstractNode(nodes, n);
      var ok := AddSlot(n, j);
      assert ok;
    }

    /** The scan of clusterUpdateSlotsConfigWith. */
    method ClaimSlots(sender: NodeId, epoch: nat, claimed: set<Slot>)
      returns (newmaster: bool, dirty: seq<Slot>)
      requires Valid() && sender in nodes && nodes[sender].role.Master? && sender != myself
      modifies this`nodes, this`slots
      ensures Valid()
      ensures View() == Bind(old(View()), Rebound(old(View()), sender, epoch, claimed), sender)
      ensures var v, r := old(View()), Rebound(old(View()), sender, epoch, claimed);
              && (newmaster <==> exists j | j in r :: v.Owner(j) == CurMaster(v))
              && forall j :: j in dirty <==> j in r && v.Owner(j) == Some(v.myself) && j in v.keyed
    {
      hide Good, BitmapsAgree, ListsAgree, Below, Bind, Rebound, Abstract;
      ghost var v, r := View(), Rebound(View(), sender, epoch, claimed);
      MeKnown(v);
      AbstractNode(nodes, myself);
      AbstractNode(nodes, sender);
      var curmaster := if nodes[myself].role.Master? then Some(myself) else nodes[myself].slaveof;
      newmaster, dirty := false, [];
      BelowAll(r);
      BindNone(v, sender);
      var j := 0;
      while j < CLUSTER_SLOTS
        invariant 0 <= j <= CLUSTER_SLOTS
        invariant Valid() && View() == Bind(v, Below(r, j), sender)
        invariant newmaster <==> exists x | x in Below(r, j) :: v.Owner(x) == CurMaster(v)
        invariant forall x :: x in dirty <==> x in Below(r, j) && v.Owner(x) == Some(v.myself) && x in v.keyed
      {
        BelowNext(r, j);
        BindMore(v, Below(r, j), j, sender);
        UntouchedSlot(v, r, j, sender, epoch, claimed);
        if j in claimed && !(j in slots && slots[j] == sender) && j !in importing {
          if j in slots { OwnerKnown(View(), j); AbstractNode(nodes, slots[j]); }
          if j !in slots || nodes[slots[j]].configEpoch < epoch {
            var owner := if j in slots then Some(slots[j]) else None;
            if owner == Some(myself) && j in keyed {
              dirty := dirty + [j];
            }
            if owner == curmaster {
              newmaster := true;
            }
            AbstractNode(nodes, sender);
            MoveSlot(j, sender);
          }
        }
        j := j + 1;
      }
    }

    /** delKeysInSlot for every dirty slot. */
    method DeleteKeys(dirty: seq<Slot>)
      modifies this`keyed
      ensures keyed == old(keyed) - set j | j in dirty
    {
      var i := 0;
      while i < |dirty|
        invariant 0 <= i <= |dirty|
        invariant keyed == old(keyed) - set j | j in dirty[..i]
      {
        keyed := keyed - {dirty[i]};
        i := i + 1;
      }
      assert dirty[..i] == dirty;
    }

    /** clusterUpdateSlotsConfigWith, when it does not die. */
    method UpdateSlotsConfigWith(sender: NodeId, epoch: nat, claimed: set<Slot>)
      requires Valid() && sender in nodes && nodes[sender].role.Master?
      requires UpdateSlots(View(), sender, epoch, claimed).Some?
      modifies this`nodes, this`slots, this`keyed, this`importing, this`migrating
      ensures Valid() && Some(View()) == UpdateSlots(old(View()), sender, epoch, claimed)
    {
      hide Good, BitmapsAgree, ListsAgree, Rebound, Abstract, V.SetMaster, Bind;
      if sender == myself { return; }
      ghost var v := View();
      MeKnown(v);
      AbstractNode(nodes, myself);
      var curmaster := if nodes[myself].role.Master? then Some(myself) else nodes[myself].slaveof;
      var newmaster, dirty := ClaimSlots(sender, epoch, claimed);
      ghost var r := Rebound(v, sender, epoch, claimed);
      BindFrame(v, r, sender);
      if noRedirection { return; }
      if newmaster {
        CurMasterKnown(v);
        BitsAre(nodes, View(), curmaster.value);
        if nodes[curmaster.value].numslots == 0 {
          MeOrReplica(View(), curmaster.value);
          SetMaster(sender);
          return;
        }
      }
      assert keyed - (set j | j in dirty) == keyed - set j | j in r && v.Owner(j) == Some(v.myself);
      KeysInvisible(View(), keyed - set j | j in dirty);
      DeleteKeys(dirty);
    }

    /** clusterFailoverReplaceYourMaster. */
    method ReplaceMaster()
      requires Valid()
      modifies this`nodes, this`slots
      ensures Valid() && View() == V.ReplaceMaster(old(View()))
    {
      hide Good, BitmapsAgree, ListsAgree, Abstract, Bind, Below, V.SetNodeAsMaster;
      MeKnown(View());
      AbstractNode(nodes, myself);
      if nodes[myself].role.Master? || nodes[myself].slaveof.None? { return; }
      var oldmaster := nodes[myself].slaveof.value;
      MasterKnown(View(), myself);
      SetNodeAsMaster(myself);
      ghost var v := View();
      ghost var r := v.Bits(oldmaster);
      BelowAll(r);
      BindNone(v, myself);
      var j := 0;
      while j < CLUSTER_SLOTS
        invariant 0 <= j <= CLUSTER_SLOTS && myself == v.myself
        invariant Valid() && View() == Bind(v, Below(r, j), myself)
      {
        BelowNext(r, j);
        BindMore(v, Below(r, j), j, myself);
        BindFrame(v, Below(r, j), myself);
        AbstractNode(nodes, myself);
        StillToMove(v, oldmaster, j);
        BitsAre(nodes, View(), oldmaster);
        if j in nodes[oldmaster].bits {
          MoveSlot(j, myself);
        }
        j := j + 1;
      }
    }

    /** The preconditions of a failover. */
    method FailoverAllowed(t: Timing) returns (ok: bool)
      requires Valid()
      ensures ok == MayFailover(View(), t)
    {
      hide Good, BitmapsAgree, ListsAgree, Abstract;
      MeKnown(View());
      MasterKnown(View(), myself);
      AbstractNode(nodes, myself);
      if nodes[myself].role.Master? || nodes[myself].slaveof.None? {
        return false;
      }
      var master := nodes[myself].slaveof.value;
      AbstractNode(nodes, master);
      BitsAre(nodes, View(), master);
      ok := !((!nodes[master].failed && !t.manual) || (t.noFailover && !t.manual) || nodes[master].numslots == 0);
    }

    /** An election won: the epoch is taken, and the master's place. */
    method TakeOver()
      requires Valid()
      modifies this`nodes, this`slots
      ensures var v := old(View());
              Valid() && View() == V.ReplaceMaster(if v.Me().configEpoch < v.authEpoch then WithMyEpoch(v, v.authEpoch) else v)
    {
      hide Good, BitmapsAgree, ListsAgree, Abstract, V.ReplaceMaster;
      MeKnown(View());
      AbstractNode(nodes, myself);
      if nodes[myself].configEpoch < authEpoch {
        RecordInvisible(nodes, slots, myself, nodes[myself].failed, authEpoch);
        nodes := nodes[myself := nodes[myself].(configEpoch := authEpoch)];
        assert View() == WithMyEpoch(old(View()), authEpoch);
      }
      ReplaceMaster();
    }

    /** clusterHandleSlaveFailover: one call, and what it did. */
    method HandleSlaveFailover(t: Timing) returns (action: FailoverAction)
      requires Valid()
      modifies this
      ensures Valid() && (View(), action) == HandleFailover(old(View()), t)
    {
      hide Good, BitmapsAgree, ListsAgree, Abstract, V.ReplaceMaster, MayFailover, WithMyEpoch;
      var ok := FailoverAllowed(t);
      if !ok || (t.dataTooOld && !t.manual) {
        return Nothing;
      }
      ElectionInvisible(View());
      if t.retryDue {
        authCount, authSent := 0, false;
        return Scheduled;
      }
      if t.tooEarly || t.expired {
        return Nothing;
      }
      if !authSent {
        currentEpoch := currentEpoch + 1;
        authEpoch, authSent := currentEpoch, true;
        return AskVotes;
      }
      if authCount < size / 2 + 1 {
        return Nothing;
      }
      TakeOver();
      action := Won;
    }

    /** clusterGetMaxEpoch. */
    method GetMaxEpoch() returns (max: nat)
      ensures currentEpoch <= max && forall n | n in nodes :: nodes[n].configEpoch <= max
      ensures max == currentEpoch || exists n | n in nodes :: nodes[n].configEpoch == max
    {
      max := 0;
      var rest := nodes.Keys;
      while rest != {}
        invariant rest <= nodes.Keys
        invariant forall n | n in nodes && n !in rest :: nodes[n].configEpoch <= max
        invariant max == 0 || exists n | n in nodes :: nodes[n].configEpoch == max
        decreases rest
      {
        var n :| n in rest;
        if nodes[n].configEpoch > max { max := nodes[n].configEpoch; }
        rest := rest - {n};
      }
      if max < currentEpoch { max := currentEpoch; }
    }

    /** Assign the next epoch to this node. */
    method TakeNextEpoch()
      requires Valid()
      modifies this`nodes, this`currentEpoch
      ensures Valid() && View() == V.TakeNextEpoch(old(View()))
    {
      hide Good, BitmapsAgree, ListsAgree, Abstract;
      MeKnown(View());
      currentEpoch := currentEpoch + 1;
      RecordInvisible(nodes, slots, myself, nodes[myself].failed, currentEpoch);
      nodes := nodes[myself := nodes[myself].(configEpoch := currentEpoch)];
      assert View() == V.TakeNextEpoch(old(View()));
    }

    /** clusterBumpConfigEpochWithoutConsensus. */
    method BumpConfigEpoch() returns (bumped: bool)
      requires Valid()
      modifies this`nodes, this`currentEpoch
      ensures Valid() && View() == BumpEpoch(old(View()))
      ensures bumped <==> old(View()).Me().configEpoch == 0 || BehindSomeEpoch(old(View()))
    {
      hide Good, BitmapsAgree, ListsAgree, Abstract, V.TakeNextEpoch;
      MeKnown(View());
      forall n | n in nodes ensures Abstract(nodes)[n].configEpoch == nodes[n].configEpoch { AbstractNode(nodes, n); }
      var max := GetMaxEpoch();
      if nodes[myself].configEpoch == 0 || nodes[myself].configEpoch != max {
        TakeNextEpoch();
        return true;
      }
      return false;
    }

    /** CLUSTER SET-CONFIG-EPOCH. */
    method SetConfigEpoch(epoch: nat) returns (ok: bool)
      requires Valid()
      modifies this`nodes, this`currentEpoch
      ensures Valid() && View() == AssignEpoch(old(View()), epoch)
      ensures ok <==> old(nodes).Keys == {myself} && old(nodes)[myself].configEpoch == 0
    {
      hide Good, BitmapsAgree, ListsAgree, Abstract, AssignEpoch;
      MeKnown(View());
      AbstractNode(nodes, myself);
      OnlyMe(nodes.Keys, myself);
      AssignIs(View(), epoch);
      if |nodes.Keys| > 1 || nodes[myself].configEpoch != 0 {
        return false;
      }
      RecordInvisible(nodes, slots, myself, nodes[myself].failed, epoch);
      nodes := nodes[myself := nodes[myself].(configEpoch := epoch)];
      if currentEpoch < epoch {
        currentEpoch := epoch;
      }
      assert View() == AssignEpoch(old(View()), epoch);
      return true;
    }

    /** clusterHandleConfigEpochCollision. */
    method HandleConfigEpochCollision(sender: NodeId)
      requires Valid() && sender in nodes
      modifies this`nodes, this`currentEpoch
      ensures Valid() && View() == HandleCollision(old(View()), sender)
    {
      hide Good, BitmapsAgree, ListsAgree, Abstract, V.TakeNextEpoch;
      MeKnown(View());
      AbstractNode(nodes, myself);
      AbstractNode(nodes, sender);
      if nodes[sender].configEpoch != nodes[myself].configEpoch
         || !nodes[sender].role.Master? || !nodes[myself].role.Master? { return; }
      if sender <= myself { return; }
      TakeNextEpoch();
    }

    /** clusterSendFailoverAuthIfNeeded; `timeOk` stands for the voted_time test. */
    method SendFailoverAuthIfNeeded(m: Msg, timeOk: bool) returns (granted: bool)
      requires Valid() && m.src in nodes && m.body.AuthRequest?
      modifies this`lastVoteEpoch
      ensures Valid() && View() == VoteIfNeeded(old(View()), m, timeOk)
      ensures granted <==> GrantsVote(old(View()), m, timeOk)
    {
      hide Good, BitmapsAgree, ListsAgree, Abstract;
      MeKnown(View());
      MasterKnown(View(), m.src);
      BitsAre(nodes, View(), myself);
      forall n | n in nodes ensures Abstract(nodes)[n] == Node(nodes[n].role, nodes[n].failed, nodes[n].configEpoch, nodes[n].slaveof) { AbstractNode(nodes, n); }
      var node := nodes[m.src];
      if nodes[myself].role.Replica? || nodes[myself].numslots == 0 { return false; }
      if m.currentEpoch < currentEpoch { return false; }
      if lastVoteEpoch == currentEpoch { return false; }
      if node.role.Master? || node.slaveof.None? { return false; }
      if !nodes[node.slaveof.value].failed && !m.body.forceAck { return false; }
      if !timeOk { return false; }
      var j := 0;
      while j < CLUSTER_SLOTS
        invariant 0 <= j <= CLUSTER_SLOTS && Valid() && View() == old(View())
        invariant forall x: Slot | x < j && x in m.claimed && x in slots ::
                    slots[x] in nodes && nodes[slots[x]].configEpoch <= m.configEpoch
      {
        if j in m.claimed && j in slots {
          OwnerKnown(View(), j);
          if nodes[slots[j]].configEpoch > m.configEpoch { return false; }
        }
        j := j + 1;
      }
      lastVoteEpoch := currentEpoch;
      assert View() == VoteIfNeeded(old(View()), m, timeOk);
      return true;
    }

    /** The role switch check of clusterProcessPacket. */
    method SwitchRole(sender: NodeId, slaveof: Option<NodeId>)
      requires Valid() && sender in nodes
      modifies this`nodes, this`slots
      ensures Valid() && View() == V.SwitchRole(old(View()), sender, slaveof)
    {
      hide Good, BitmapsAgree, ListsAgree, Abstract, Unbind, V.SetNodeAsMaster, Relink, Without;
      AbstractNode(nodes, sender);
      if slaveof.None? {
        SetNodeAsMaster(sender);
        return;
      }
      if nodes[sender].role.Master? {
        DemoteNode(sender);
      }
      AbstractNode(nodes, sender);
      if slaveof.value in nodes {
        FollowMaster(sender, slaveof.value);
      }
    }

    /** A master turned into a replica. */
    method DemoteNode(n: NodeId)
      requires Valid() && n in nodes && nodes[n].role.Master?
      modifies this`nodes, this`slots
      ensures Valid() && n in nodes && old(View()).nodes[n].role.Master? && View() == Demote(old(View()), n)
    {
      hide Good, BitmapsAgree, ListsAgree, Abstract;
      AbstractNode(nodes, n);
      var _ := DelNodeSlots(n);
      RoleInvisible(nodes, slots, n, Replica);
      nodes := nodes[n := nodes[n].(role := Replica)];
      assert View() == Demote(old(View()), n);
    }

    /** The replica `n` is told to have the master `m`. */
    method FollowMaster(n: NodeId, m: NodeId)
      requires Valid() && n in nodes && m in nodes && nodes[n].role.Replica?
      modifies this`nodes
      ensures Valid() && old(View()).nodes[n].role.Replica?
      ensures View() == WithNode(old(View()), n, old(View()).nodes[n].(slaveof := Some(m)))
    {
      hide Good, BitmapsAgree, ListsAgree, Abstract, Relink, Without, NoDuplicates;
      AbstractNode(nodes, n);
      if nodes[n].slaveof == Some(m) {
        assert View().nodes[n := View().nodes[n].(slaveof := Some(m))] == View().nodes;
        return;
      }
      MasterKnown(View(), n);
      RelinkLists(nodes, n, Some(m), Replica);
      RelinkBitmaps(nodes, slots, n, Some(m), Replica);
      RelinkAbstract(nodes, n, Some(m), Replica);
      AdoptIsRelink(nodes, n, m);
      if nodes[n].slaveof.Some? {
        var _ := RemoveSlave(nodes[n].slaveof.value, n);
      }
      assert nodes == Unlink(old(nodes), n);
      var _ := AddSlave(m, n);
      nodes := nodes[n := nodes[n].(slaveof := Some(m))];
      assert View() == WithNode(old(View()), n, old(View()).nodes[n].(slaveof := Some(m)));
    }

    /** The header part of clusterProcessPacket. */
    method LearnEpochs(m: Msg)
      requires Valid() && m.src in nodes
      modifies this`nodes, this`currentEpoch
      ensures Valid() && View() == V.LearnEpochs(old(View()), m)
    {
      hide Good, BitmapsAgree, ListsAgree, Abstract;
      AbstractNode(nodes, m.src);
      if m.currentEpoch > currentEpoch { currentEpoch := m.currentEpoch; }
      if m.configEpoch > nodes[m.src].configEpoch {
        RecordInvisible(nodes, slots, m.src, nodes[m.src].failed, m.configEpoch);
        nodes := nodes[m.src := nodes[m.src].(configEpoch := m.configEpoch)];
      }
      assert View() == V.LearnEpochs(old(View()), m);
    }

    /** PING, PONG. */
    method ProcessPing(m: Msg)
      requires Valid() && m.src in nodes && HandlePing(View(), m).Some?
      modifies this`nodes, this`slots, this`keyed, this`importing, this`migrating, this`currentEpoch
      ensures Valid() && Some(View()) == HandlePing(old(View()), m)
    {
      hide Good, BitmapsAgree, ListsAgree, Abstract, V.SwitchRole, HandleCollision, UpdateSlots;
      SwitchRole(m.src, m.slaveof);
      ghost var v1 := View();
      AbstractNode(nodes, m.src);
      MasterKnown(v1, m.src);
      var master := if nodes[m.src].role.Master? then Some(m.src) else nodes[m.src].slaveof;
      var dirty := false;
      if master.Some? {
        BitsAre(nodes, v1, master.value);
        dirty := nodes[master.value].bits != m.claimed;
      }
      if nodes[m.src].role.Master? && dirty {
        UpdateSlotsConfigWith(m.src, m.configEpoch, m.claimed);
      }
      MeKnown(View());
      AbstractNode(nodes, m.src);
      AbstractNode(nodes, myself);
      if nodes[myself].role.Master? && nodes[m.src].role.Master? && m.configEpoch == nodes[myself].configEpoch {
        HandleConfigEpochCollision(m.src);
      }
    }

    /** UPDATE. */
    method ProcessUpdate(about: NodeId, epoch: nat, claimed: set<Slot>)
      requires Valid() && HandleUpdate(View(), about, epoch, claimed).Some?
      modifies this`nodes, this`slots, this`keyed, this`importing, this`migrating
      ensures Valid() && Some(View()) == HandleUpdate(old(View()), about, epoch, claimed)
    {
      hide Good, BitmapsAgree, ListsAgree, Abstract, V.SetNodeAsMaster, UpdateSlots;
      if about !in nodes { return; }
      AbstractNode(nodes, about);
      if nodes[about].configEpoch >= epoch { return; }
      SetNodeAsMaster(about);
      NoMasterOfMaster(View(), about);
      AbstractNode(nodes, about);
      RecordInvisible(nodes, slots, about, nodes[about].failed, epoch);
      ghost var v1 := View();
      nodes := nodes[about := nodes[about].(configEpoch := epoch)];
      assert View() == WithNode(v1, about, v1.nodes[about].(configEpoch := epoch));
      UpdateSlotsConfigWith(about, epoch, claimed);
    }

    /** clusterProcessPacket, when it does not die. */
    method ProcessPacket(m: Msg, timeOk: bool) returns (granted: bool)
      requires Valid() && V.ProcessPacket(View(), m, timeOk).Some?
      modifies this
      ensures Valid() && Some(View()) == V.ProcessPacket(old(View()), m, timeOk)
      ensures granted <==> Votes(old(View()), m, timeOk)
    {
      hide Good, BitmapsAgree, ListsAgree, Abstract, V.LearnEpochs, HandlePing, HandleUpdate, VoteIfNeeded, GrantsVote;
      granted := false;
      if m.src !in nodes { return; }
      LearnEpochs(m);
      AbstractNode(nodes, m.src);
      BitsAre(nodes, View(), m.src);
      match m.body
      case Ping => ProcessPing(m);
      case Update(about, epoch, claimed) => ProcessUpdate(about, epoch, claimed);
      case AuthRequest(_) => granted := SendFailoverAuthIfNeeded(m, timeOk);
      case AuthAck =>
        if nodes[m.src].role.Master? && nodes[m.src].numslots > 0 && m.currentEpoch >= authEpoch {
          CountGood(View(), authCount + 1);
          authCount := authCount + 1;
        }
      case Fail(n) => SetFailing(n);
    }

    /** FAIL. */
    method SetFailing(n: NodeId)
      requires Valid()
      modifies this`nodes
      ensures Valid() && View() == MarkFailing(old(View()), n)
    {
      hide Good, BitmapsAgree, ListsAgree, Abstract;
      if n !in nodes || n == myself { return; }
      AbstractNode(nodes, n);
      MasterKnown(View(), n);
      RecordInvisible(nodes, slots, n, true, nodes[n].configEpoch);
      nodes := nodes[n := nodes[n].(failed := true)];
      assert View() == MarkFailing(old(View()), n);
    }

    /** No entry for slot `j` points to `n` any more. */
    method ForgetSlot(j: Slot, n: NodeId)
      requires Valid()
      modifies this`nodes, this`slots, this`importing, this`migrating
      ensures Valid()
      ensures importing == if j in old(importing) && old(importing)[j] == n then old(importing) - {j} else old(importing)
      ensures migrating == if j in old(migrating) && old(migrating)[j] == n then old(migrating) - {j} else old(migrating)
      ensures View() == (if old(View()).Owner(j) == Some(n) then Unbind(old(View()), {j}) else old(View())).(
                          importing := importing, migrating := migrating)
    {
      hide Good, BitmapsAgree, ListsAgree, Abstract;
      LinksGood(View(), importing - {j}, migrating - {j});
      LinksGood(View(), importing, migrating - {j});
      LinksGood(View(), importing - {j}, migrating);
      if j in importing && importing[j] == n { importing := importing - {j}; }
      if j in migrating && migrating[j] == n { migrating := migrating - {j}; }
      if j in slots && slots[j] == n {
        var _ := DelSlot(j);
      }
    }

    /** The first loop of clusterDelNode: no slot entry points to `n` any more. */
    method ForgetSlotsOf(n: NodeId)
      requires Valid() && n in nodes
      modifies this`nodes, this`slots, this`importing, this`migrating
      ensures Valid()
      ensures View() == Scanned(old(View()), n, CLUSTER_SLOTS)
    {
      hide Good, BitmapsAgree, ListsAgree, Abstract, Scanned, Unbind;
      ghost var v := View();
      ScannedNone(v, n);
      var j := 0;
      while j < CLUSTER_SLOTS
        invariant 0 <= j <= CLUSTER_SLOTS
        invariant Valid() && View() == Scanned(v, n, j)
      {
        ScannedNext(v, n, j);
        ForgetSlot(j, n);
        j := j + 1;
      }
    }

    /** freeClusterNode: orphan the replicas of `n`, leave its master's array, go. */
    method FreeNode(n: NodeId)
      requires ListsAgree(nodes) && n in nodes
      requires nodes[n].slaveof.Some? ==> nodes[n].slaveof.value in nodes
      modifies this`nodes
      ensures nodes == Freed(old(nodes), n)
    {
      hide Without, NoDuplicates, ListsAgree, Orphaned, Freed;
      FreedIs(nodes, n);
      var slaves := nodes[n].slaves;
      var i := 0;
      OrphanNone(nodes);
      while i < |slaves|
        invariant 0 <= i <= |slaves|
        invariant nodes == Orphaned(old(nodes), slaves[..i])
      {
        SlavesKnown(old(nodes), n, slaves[i]);
        OrphanMore(old(nodes), slaves, i);
        nodes := nodes[slaves[i] := nodes[slaves[i]].(slaveof := None)];
        i := i + 1;
      }
      assert slaves[..i] == slaves;
      if nodes[n].slaveof.Some? {
        var _ := RemoveSlave(nodes[n].slaveof.value, n);
      }
      nodes := nodes - {n};
    }

    /** clusterDelNode. */
    method DelNode(n: NodeId)
      requires Valid() && n in nodes && n != myself
      modifies this`nodes, this`slots, this`importing, this`migrating
      ensures Valid() && View() == V.DelNode(old(View()), n)
    {
      hide Good, BitmapsAgree, ListsAgree, Abstract, Purge, Freed, V.DelNode;
      ghost var v := View();
      AbstractNode(nodes, n);
      ForgetSlotsOf(n);
      AbstractNode(nodes, n);
      MasterKnown(View(), n);
      BitsAre(nodes, View(), n);
      assert View().Bits(n) == {};
      FreedBitmaps(nodes, slots, n);
      FreedLists(nodes, n);
      FreedAbstract(nodes, n);
      ForgetIsDelNode(v, View(), n);
      FreeNode(n);
      assert View() == V.DelNode(v, n);
    }
  }
}
