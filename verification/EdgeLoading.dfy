/**
 * The loaders of account_query.go: one batched child query each, whose rows are handed out to the
 * account nodes through maps.  Nodes are objects that the loaders update in place.
 */
module EdgeLoading {
  import opened Prelude
  import opened EdgeJoin
  import opened ManyToOne

  /** Which edges a query asked to load; also the loadedTypes array of a node. */
  datatype With = With(groups: bool, proxy: bool, usageLogs: bool, accountGroups: bool)

  /** None for a list is Go's nil slice. */
  datatype AccountEdges = AccountEdges(
    groups: Option<seq<Group>>,
    proxy: Option<Proxy>,
    usageLogs: Option<seq<UsageLog>>,
    accountGroups: Option<seq<AccountGroup>>,
    loaded: With)

  class Account {
    const id: int
    const proxyID: Option<int>
    var edges: AccountEdges

    constructor (id: int, proxyID: Option<int>, loaded: With)
      ensures this.id == id && this.proxyID == proxyID
      ensures edges == AccountEdges(None, None, None, None, loaded)
    {
      this.id := id;
      this.proxyID := proxyID;
      edges := AccountEdges(None, None, None, None, loaded);
    }
  }

  function Ids(nodes: seq<Account>): (ids: seq<int>)
    ensures |ids| == |nodes| && forall j :: 0 <= j < |nodes| ==> ids[j] == nodes[j].id
  {
    seq(|nodes|, j requires 0 <= j < |nodes| => nodes[j].id)
  }

  function ProxyOf(n: Account): Option<int> { n.proxyID }

  function ProxyIDs(nodes: seq<Account>): seq<Option<int>> {
    Keys(nodes, ProxyOf)
  }

  /** append: on a nil slice it makes a new one. */
  function Push<T>(list: Option<seq<T>>, x: T): Option<seq<T>> {
    Some((if list.Some? then list.value else []) + [x])
  }

  /** The map the loaders key by node ID: a repeated ID is overwritten by its last node. */
  ghost predicate Points(byID: map<int, Account>, nodes: seq<Account>) {
    && (forall a :: a in byID <==> a in Ids(nodes))
    && (forall a, j :: a in byID && 0 <= j < |nodes| ==>
          (byID[a] == nodes[j] <==> nodes[j].id == a && IsLast(Ids(nodes), j)))
  }

  lemma PointsAt(byID: map<int, Account>, nodes: seq<Account>, a: int, j: nat)
    requires Points(byID, nodes) && j < |nodes|
    ensures a in byID && byID[a] == nodes[j] <==> nodes[j].id == a && IsLast(Ids(nodes), j)
  {
    assert nodes[j].id == Ids(nodes)[j];
  }

  lemma PointsStep(byID: map<int, Account>, nodes: seq<Account>, i: nat)
    requires i < |nodes| && Distinct(nodes) && Points(byID, nodes[..i])
    requires forall a :: a in byID ==> byID[a] in nodes[..i]
    ensures Points(byID[nodes[i].id := nodes[i]], nodes[..i + 1])
  {
    var before, after := Ids(nodes[..i]), Ids(nodes[..i + 1]);
    assert after == before + [nodes[i].id];
    forall j | 0 <= j < i ensures IsLast(after, j) <==> IsLast(before, j) && nodes[j].id != nodes[i].id {
      assert forall k :: j < k < i ==> after[k] == before[k];
    }
  }

  /** The groups error loadGroups returns when interceptors hand back a group no row named. */
  function GroupsError(rows: Result<seq<JoinRow>, string>, intercept: seq<Group> -> seq<Group>): Option<LoadError> {
    match rows
    case Err(m) => Some(QueryFailed(m))
    case Ok(rs) =>
      var neighbors := intercept(FirstRows(rs));
      var known := Known(rs, neighbors);
      if |known| == |neighbors| then None else Some(Unexpected("groups", neighbors[|known|].id))
  }

  /** The loop that opens loadGroups, loadUsageLogs and loadAccountGroups. */
  method IndexNodes(nodes: seq<Account>) returns (edgeIDs: seq<int>, byID: map<int, Account>)
    requires Distinct(nodes)
    ensures edgeIDs == Ids(nodes)
    ensures Points(byID, nodes)
    ensures forall a :: a in byID ==> byID[a] in nodes
  {
    edgeIDs, byID := [], map[];
    for i := 0 to |nodes|
      invariant edgeIDs == Ids(nodes[..i]) && Points(byID, nodes[..i])
      invariant forall a :: a in byID ==> byID[a] in nodes[..i]
    {
      PointsStep(byID, nodes, i);
      edgeIDs := edgeIDs + [nodes[i].id];
      byID := byID[nodes[i].id := nodes[i]];
    }
    assert nodes[..|nodes|] == nodes;
  }

  /** nids after scanning: for each group met, the accounts its rows name. */
  ghost predicate Records(nids: map<int, set<Account>>, byID: map<int, Account>, rows: seq<JoinRow>)
    requires forall r | r in rows :: r.accountID in byID
  {
    && (forall g :: g in nids <==> Seen(rows, g))
    && (forall g :: g in nids ==>
          nids[g] == set r | r in rows && r.group.id == g :: byID[r.accountID])
  }

  lemma RecordsStep(nids: map<int, set<Account>>, byID: map<int, Account>, rows: seq<JoinRow>, row: JoinRow)
    requires forall r | r in rows + [row] :: r.accountID in byID
    requires Records(nids, byID, rows)
    ensures Records(nids[row.group.id :=
      (if row.group.id in nids then nids[row.group.id] else {}) + {byID[row.accountID]}], byID, rows + [row])
  {
  }

  /** The wrapped Assign of loadGroups, run on every row. */
  method ScanRows(rows: seq<JoinRow>, byID: map<int, Account>)
    returns (found: seq<Group>, nids: map<int, set<Account>>)
    requires forall r | r in rows :: r.accountID in byID
    ensures found == FirstRows(rows)
    ensures Records(nids, byID, rows)
  {
    found, nids := [], map[];
    for t := 0 to |rows|
      invariant found == FirstRows(rows[..t]) && Records(nids, byID, rows[..t])
    {
      assert rows[..t + 1] == rows[..t] + [rows[t]];
      RecordsStep(nids, byID, rows[..t], rows[t]);
      var outValue, inValue := rows[t].accountID, rows[t].group.id;
      if inValue !in nids {
        nids := nids[inValue := {byID[outValue]}];
        found := found + [rows[t].group];
      } else {
        nids := nids[inValue := nids[inValue] + {byID[outValue]}];
      }
    }
    assert rows[..|rows|] == rows;
  }

  /** Ranging over the node set of one group, in any order, gives each of its nodes the group once. */
  method AssignAll(targets: set<Account>, g: Group)
    modifies targets
    ensures forall n :: n in targets ==> n.edges == old(n.edges).(groups := Push(old(n.edges.groups), g))
  {
    var todo := targets;
    while todo != {}
      invariant todo <= targets
      invariant forall n :: n in todo ==> n.edges == old(n.edges)
      invariant forall n :: n in targets - todo ==>
        n.edges == old(n.edges).(groups := Push(old(n.edges.groups), g))
    {
      var kn :| kn in todo;
      kn.edges := kn.edges.(groups := Push(kn.edges.groups, g));
      todo := todo - {kn};
    }
  }

  /** The neighbors that nids gives to node n, in order. */
  function Handed(nids: map<int, set<Account>>, neighbors: seq<Group>, n: Account): seq<Group> {
    Filter(neighbors, (g: Group) => g.id in nids && n in nids[g.id])
  }

  lemma HandedStep(nids: map<int, set<Account>>, neighbors: seq<Group>, t: nat, n: Account)
    requires t < |neighbors| && neighbors[t].id in nids
    ensures Handed(nids, neighbors[..t + 1], n) ==
      if n in nids[neighbors[t].id] then Handed(nids, neighbors[..t], n) + [neighbors[t]]
      else Handed(nids, neighbors[..t], n)
  {
    assert neighbors[..t + 1][..t] == neighbors[..t];
  }

  /** The loop that hands the neighbors out, up to the first one no row named. */
  method Distribute(nodes: seq<Account>, nids: map<int, set<Account>>, neighbors: seq<Group>)
    returns (err: Option<LoadError>)
    requires forall g :: g in nids ==> forall n :: n in nids[g] ==> n in nodes
    requires forall n :: n in nodes ==> n.edges.groups == Some([])
    modifies nodes
    ensures var known := Accepted(neighbors, (g: Group) => g.id in nids);
      && (err == if |known| == |neighbors| then None else Some(Unexpected("groups", neighbors[|known|].id)))
      && (forall n :: n in nodes ==> n.edges == old(n.edges).(groups := Some(Handed(nids, known, n))))
  {
    for t := 0 to |neighbors|
      invariant forall k :: 0 <= k < t ==> neighbors[k].id in nids
      invariant forall n :: n in nodes ==> n.edges == old(n.edges).(groups := Some(Handed(nids, neighbors[..t], n)))
    {
      var n := neighbors[t];
      if n.id !in nids {
        AcceptedIs(neighbors, (g: Group) => g.id in nids, t);
        return Some(Unexpected("groups", n.id));
      }
      label before:
      AssignAll(nids[n.id], n);
      forall a | a in nodes
        ensures a.edges == old(a.edges).(groups := Some(Handed(nids, neighbors[..t + 1], a)))
      {
        HandedStep(nids, neighbors, t, a);
        assert old@before(a.edges) == old(a.edges).(groups := Some(Handed(nids, neighbors[..t], a)));
      }
    }
    AcceptedIs(neighbors, (g: Group) => g.id in nids, |neighbors|);
    assert neighbors[..|neighbors|] == neighbors;
    return None;
  }

  /** What Handed means once nids records the rows: the related groups, at the last node of each ID. */
  lemma HandedIsRelated(nids: map<int, set<Account>>, byID: map<int, Account>, nodes: seq<Account>,
                        rows: seq<JoinRow>, neighbors: seq<Group>, j: nat)
    requires j < |nodes| && Points(byID, nodes) && PushedDown(Ids(nodes), rows)
    requires Records(nids, byID, rows)
    ensures Handed(nids, Accepted(neighbors, (g: Group) => g.id in nids), nodes[j]) ==
      GroupsOf(Ids(nodes), rows, neighbors, j)
  {
    var known := Accepted(neighbors, (g: Group) => g.id in nids);
    assert known == Known(rows, neighbors) by {
      AcceptedIs(neighbors, (g: Group) => Seen(rows, g.id), |known|);
    }
    var ids := Ids(nodes);
    var p := (g: Group) => g.id in nids && nodes[j] in nids[g.id];
    if IsLast(ids, j) {
      FilterAgrees(known, p, (g: Group) => Joined(rows, ids[j], g.id));
    } else {
      FilterNone(known, p);
    }
  }

  method LoadGroups(nodes: seq<Account>, query: seq<int> -> Result<seq<JoinRow>, string>,
                    intercept: seq<Group> -> seq<Group>)
    returns (err: Option<LoadError>)
    requires Distinct(nodes)
    requires forall ids :: query(ids).Ok? ==> PushedDown(ids, query(ids).value)
    modifies nodes
    ensures err == GroupsError(query(Ids(nodes)), intercept)
    ensures var rows := query(Ids(nodes));
      forall j :: 0 <= j < |nodes| ==> nodes[j].edges == old(nodes[j].edges).(groups := Some(
        if rows.Ok? then GroupsOf(Ids(nodes), rows.value, intercept(FirstRows(rows.value)), j) else []))
  {
    var edgeIDs, byID := IndexNodes(nodes);
    forall j | 0 <= j < |nodes| {
      nodes[j].edges := nodes[j].edges.(groups := Some([]));
    }
    var fetched := query(edgeIDs);
    if fetched.Err? {
      return Some(QueryFailed(fetched.error));
    }
    var rows := fetched.value;
    var found, nids := ScanRows(rows, byID);
    var neighbors := intercept(found);
    err := Distribute(nodes, nids, neighbors);
    AcceptedIs(neighbors, (g: Group) => Seen(rows, g.id), |Accepted(neighbors, (g: Group) => g.id in nids)|);
    forall j | 0 <= j < |nodes|
      ensures nodes[j].edges == old(nodes[j].edges).(groups := Some(GroupsOf(Ids(nodes), rows, neighbors, j)))
    {
      HandedIsRelated(nids, byID, nodes, rows, neighbors, j);
    }
  }

  // ----- many-to-one ------------------------------------------------------------------------

  function ProxyError(fks: seq<Option<int>>, query: seq<int> -> Result<seq<Proxy>, string>): Option<LoadError> {
    TargetError("proxy_id", fks, query, ProxyKey)
  }

  function ProxiesUsed(fks: seq<Option<int>>, query: seq<int> -> Result<seq<Proxy>, string>): seq<Proxy> {
    TargetsUsed(fks, query, ProxyKey)
  }

  method AssignProxy(targets: seq<Account>, p: Proxy)
    modifies targets
    ensures forall n :: n in targets ==> n.edges == old(n.edges).(proxy := Some(p))
  {
    for i := 0 to |targets|
      invariant forall n :: n in targets[..i] ==> n.edges == old(n.edges).(proxy := Some(p))
      invariant forall n :: n in targets && n !in targets[..i] ==> n.edges == old(n.edges)
    {
      targets[i].edges := targets[i].edges.(proxy := Some(p));
      assert targets[..i + 1] == targets[..i] + [targets[i]];
    }
    assert targets[..|targets|] == targets;
  }

  /** The second loop of loadProxy. */
  method DistributeProxies(nodes: seq<Account>, nodeids: map<int, seq<Account>>, neighbors: seq<Proxy>)
    returns (err: Option<LoadError>)
    requires forall k :: k in nodeids <==> Some(k) in ProxyIDs(nodes)
    requires forall k :: k in nodeids ==> nodeids[k] == ByKey(nodes, ProxyOf, k)
    modifies nodes
    ensures var known := Referenced(ProxyIDs(nodes), neighbors, ProxyKey);
      && (err == if |known| == |neighbors| then None else Some(Unexpected("proxy_id", neighbors[|known|].id)))
      && (forall n :: n in nodes ==> n.edges == old(n.edges).(proxy :=
            MatchOf(known, ProxyKey, n.proxyID, old(n.edges.proxy))))
  {
    ghost var fks := ProxyIDs(nodes);
    for t := 0 to |neighbors|
      invariant forall k :: 0 <= k < t ==> Some(ProxyKey(neighbors[k])) in fks
      invariant forall n :: n in nodes ==> n.edges == old(n.edges).(proxy :=
        MatchOf(neighbors[..t], ProxyKey, n.proxyID, old(n.edges.proxy)))
    {
      var p := neighbors[t];
      if p.id !in nodeids {
        ReferencedIs(fks, neighbors, ProxyKey, t);
        return Some(Unexpected("proxy_id", p.id));
      }
      ByKeyMembers(nodes, ProxyOf, p.id);
      label before:
      AssignProxy(nodeids[p.id], p);
      forall n | n in nodes
        ensures n.edges == old(n.edges).(proxy :=
          MatchOf(neighbors[..t + 1], ProxyKey, n.proxyID, old(n.edges.proxy)))
      {
        MatchStep(neighbors, ProxyKey, n.proxyID, old(n.edges.proxy), t);
        assert n in nodeids[p.id] <==> n.proxyID == Some(p.id);
        assert old@before(n.edges) == old(n.edges).(proxy :=
          MatchOf(neighbors[..t], ProxyKey, n.proxyID, old(n.edges.proxy)));
      }
    }
    ReferencedIs(fks, neighbors, ProxyKey, |neighbors|);
    return None;
  }

  method LoadProxy(nodes: seq<Account>, query: seq<int> -> Result<seq<Proxy>, string>)
    returns (err: Option<LoadError>)
    modifies nodes
    ensures err == ProxyError(ProxyIDs(nodes), query)
    ensures forall n :: n in nodes ==> n.edges == old(n.edges).(proxy :=
      MatchOf(ProxiesUsed(ProxyIDs(nodes), query), ProxyKey, n.proxyID, old(n.edges.proxy)))
  {
    var ids, nodeids := IndexByKey(nodes, ProxyOf);
    if |ids| == 0 {
      return None;
    }
    var fetched := query(ids);
    if fetched.Err? {
      return Some(QueryFailed(fetched.error));
    }
    err := DistributeProxies(nodes, nodeids, fetched.value);
  }

  // ----- one-to-many ------------------------------------------------------------------------

  function ChildrenError<N>(edge: string, ids: seq<int>, fetched: Result<seq<N>, string>,
      fk: N -> int): Option<LoadError> {
    match fetched
    case Err(m) => Some(QueryFailed(m))
    case Ok(neighbors) =>
      var known := Owned(ids, neighbors, fk);
      if |known| == |neighbors| then None else Some(Unexpected(edge, fk(neighbors[|known|])))
  }

  function ChildrenUsed<N>(ids: seq<int>, fetched: Result<seq<N>, string>, fk: N -> int): seq<N> {
    if fetched.Err? then [] else Owned(ids, fetched.value, fk)
  }

  /** The neighbors whose foreign key the map sends to node n. */
  function Given<N>(byID: map<int, Account>, neighbors: seq<N>, fk: N -> int, n: Account): seq<N> {
    Filter(neighbors, (x: N) => fk(x) in byID && byID[fk(x)] == n)
  }

  lemma GivenStep<N>(byID: map<int, Account>, neighbors: seq<N>, fk: N -> int, n: Account, t: nat)
    requires t < |neighbors| && fk(neighbors[t]) in byID
    ensures Given(byID, neighbors[..t + 1], fk, n) ==
      if byID[fk(neighbors[t])] == n then Given(byID, neighbors[..t], fk, n) + [neighbors[t]]
      else Given(byID, neighbors[..t], fk, n)
  {
    assert neighbors[..t + 1][..t] == neighbors[..t];
  }

  lemma GivenIsChildren<N>(byID: map<int, Account>, nodes: seq<Account>, neighbors: seq<N>, fk: N -> int, j: nat)
    requires j < |nodes| && Points(byID, nodes)
    ensures Given(byID, neighbors, fk, nodes[j]) == ChildrenOf(Ids(nodes), neighbors, fk, j)
  {
    var ids := Ids(nodes);
    var p := (x: N) => fk(x) in byID && byID[fk(x)] == nodes[j];
    if IsLast(ids, j) {
      FilterAgrees(neighbors, p, (x: N) => fk(x) == ids[j]);
    } else {
      forall x | x in neighbors ensures !p(x) {
        PointsAt(byID, nodes, fk(x), j);
      }
      FilterNone(neighbors, p);
    }
  }

  /** The field of a node's edges that holds one kind of children. */
  datatype Slot<!N> = Slot(get: AccountEdges -> Option<seq<N>>, put: (AccountEdges, Option<seq<N>>) -> AccountEdges)

  ghost predicate Lawful<N(!new)>(slot: Slot<N>) {
    && (forall e, x :: slot.get(slot.put(e, x)) == x)
    && (forall e, x, y :: slot.put(slot.put(e, x), y) == slot.put(e, y))
  }

  const USAGE_LOGS: Slot<UsageLog> :=
    Slot((e: AccountEdges) => e.usageLogs, (e: AccountEdges, x: Option<seq<UsageLog>>) => e.(usageLogs := x))

  const ACCOUNT_GROUPS: Slot<AccountGroup> :=
    Slot((e: AccountEdges) => e.accountGroups,
        (e: AccountEdges, x: Option<seq<AccountGroup>>) => e.(accountGroups := x))

  /** The second loop of loadUsageLogs and of loadAccountGroups. */
  method DistributeChildren<N(!new)>(
    nodes: seq<Account>, nodeids: map<int, Account>, neighbors: seq<N>, fk: N -> int, slot: Slot<N>)
    returns (err: Option<LoadError>)
    requires Distinct(nodes) && Points(nodeids, nodes) && Lawful(slot)
    requires forall a :: a in nodeids ==> nodeids[a] in nodes
    requires forall n :: n in nodes ==> n.edges == slot.put(n.edges, Some([]))
    modifies nodes
    ensures var known := Owned(Ids(nodes), neighbors, fk);
      && (err == if |known| == |neighbors| then None else Some(Unexpected("account_id", fk(neighbors[|known|]))))
      && (forall n :: n in nodes ==> n.edges == slot.put(old(n.edges), Some(Given(nodeids, known, fk, n))))
  {
    ghost var ids := Ids(nodes);
    for t := 0 to |neighbors|
      invariant forall k :: 0 <= k < t ==> fk(neighbors[k]) in ids
      invariant forall n :: n in nodes ==>
        n.edges == slot.put(old(n.edges), Some(Given(nodeids, neighbors[..t], fk, n)))
    {
      var key := fk(neighbors[t]);
      if key !in nodeids {
        OwnedIs(ids, neighbors, fk, t);
        return Some(Unexpected("account_id", key));
      }
      var node := nodeids[key];
      label before:
      node.edges := slot.put(node.edges, Push(slot.get(node.edges), neighbors[t]));
      forall n | n in nodes
        ensures n.edges == slot.put(old(n.edges), Some(Given(nodeids, neighbors[..t + 1], fk, n)))
      {
        GivenStep(nodeids, neighbors, fk, n, t);
        assert old@before(n.edges) == slot.put(old(n.edges), Some(Given(nodeids, neighbors[..t], fk, n)));
      }
    }
    OwnedIs(ids, neighbors, fk, |neighbors|);
    return None;
  }

  method LoadChildren<N(!new)>(
    nodes: seq<Account>, query: seq<int> -> Result<seq<N>, string>, fk: N -> int, slot: Slot<N>)
    returns (err: Option<LoadError>)
    requires Distinct(nodes) && Lawful(slot)
    modifies nodes
    ensures err == ChildrenError("account_id", Ids(nodes), query(Ids(nodes)), fk)
    ensures forall j :: 0 <= j < |nodes| ==> nodes[j].edges == slot.put(old(nodes[j].edges), Some(
      ChildrenOf(Ids(nodes), ChildrenUsed(Ids(nodes), query(Ids(nodes)), fk), fk, j)))
  {
    var fks, nodeids := IndexNodes(nodes);
    forall j | 0 <= j < |nodes| {
      nodes[j].edges := slot.put(nodes[j].edges, Some([]));
    }
    var fetched := query(fks);
    if fetched.Err? {
      return Some(QueryFailed(fetched.error));
    }
    err := DistributeChildren(nodes, nodeids, fetched.value, fk, slot);
    forall j | 0 <= j < |nodes| {
      GivenIsChildren(nodeids, nodes, Owned(fks, fetched.value, fk), fk, j);
    }
  }

  method LoadUsageLogs(nodes: seq<Account>, query: seq<int> -> Result<seq<UsageLog>, string>)
    returns (err: Option<LoadError>)
    requires Distinct(nodes)
    modifies nodes
    ensures err == ChildrenError("account_id", Ids(nodes), query(Ids(nodes)), LogOwner)
    ensures forall j :: 0 <= j < |nodes| ==> nodes[j].edges == old(nodes[j].edges).(usageLogs := Some(
      ChildrenOf(Ids(nodes), ChildrenUsed(Ids(nodes), query(Ids(nodes)), LogOwner), LogOwner, j)))
  {
    err := LoadChildren(nodes, query, LogOwner, USAGE_LOGS);
  }

  method LoadAccountGroups(nodes: seq<Account>, query: seq<int> -> Result<seq<AccountGroup>, string>)
    returns (err: Option<LoadError>)
    requires Distinct(nodes)
    modifies nodes
    ensures err == ChildrenError("account_id", Ids(nodes), query(Ids(nodes)), MembershipOwner)
    ensures forall j :: 0 <= j < |nodes| ==> nodes[j].edges == old(nodes[j].edges).(accountGroups := Some(
      ChildrenOf(Ids(nodes), ChildrenUsed(Ids(nodes), query(Ids(nodes)), MembershipOwner), MembershipOwner, j)))
  {
    err := LoadChildren(nodes, query, MembershipOwner, ACCOUNT_GROUPS);
  }
}
