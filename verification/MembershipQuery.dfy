/**
 * AccountGroupQuery: rows of the join table, which have a composite key and two many-to-one edges.
 * loadAccount and loadGroup differ in the foreign key they read and in the edge they set.
 */
module MembershipQuery {
  import opened Prelude
  import opened EdgeJoin
  import opened ManyToOne

  datatype Side = AccountSide | GroupSide

  /** An account or a group. */
  datatype Target = Target(id: int, name: string)

  datatype Wanted = Wanted(account: bool, group: bool)

  datatype LinkEdges = LinkEdges(account: Option<Target>, group: Option<Target>, loaded: Wanted)

  /** An account_groups row; its foreign keys are never nil. */
  datatype LinkKeys = LinkKeys(accountID: int, groupID: int)

  class Link {
    const keys: LinkKeys
    var edges: LinkEdges

    constructor (keys: LinkKeys, loaded: Wanted)
      ensures this.keys == keys && edges == LinkEdges(None, None, loaded)
    {
      this.keys := keys;
      edges := LinkEdges(None, None, loaded);
    }
  }

  function TargetKey(t: Target): int { t.id }

  function Requested(want: Wanted, side: Side): bool {
    if side.AccountSide? then want.account else want.group
  }

  function ForeignKey(keys: LinkKeys, side: Side): int {
    if side.AccountSide? then keys.accountID else keys.groupID
  }

  function ForeignKeyOf(side: Side): Link -> Option<int> {
    (n: Link) => Some(ForeignKey(n.keys, side))
  }

  function EdgeOn(e: LinkEdges, side: Side): Option<Target> {
    if side.AccountSide? then e.account else e.group
  }

  function SetEdge(e: LinkEdges, side: Side, t: Option<Target>): LinkEdges {
    if side.AccountSide? then e.(account := t) else e.(group := t)
  }

  function EdgeName(side: Side): string {
    if side.AccountSide? then "account_id" else "group_id"
  }

  method AssignTarget(targets: seq<Link>, side: Side, t: Target)
    modifies targets
    ensures forall n :: n in targets ==> n.edges == SetEdge(old(n.edges), side, Some(t))
  {
    for i := 0 to |targets|
      invariant forall n :: n in targets[..i] ==> n.edges == SetEdge(old(n.edges), side, Some(t))
      invariant forall n :: n in targets && n !in targets[..i] ==> n.edges == old(n.edges)
    {
      targets[i].edges := SetEdge(targets[i].edges, side, Some(t));
      assert targets[..i + 1] == targets[..i] + [targets[i]];
    }
    assert targets[..|targets|] == targets;
  }

  /** The edges of a row once some of the neighbors have been handed out. */
  function Reached(e: LinkEdges, keys: LinkKeys, side: Side, neighbors: seq<Target>): LinkEdges {
    SetEdge(e, side, MatchOf(neighbors, TargetKey, Some(ForeignKey(keys, side)), EdgeOn(e, side)))
  }

  lemma ReachedStep(e: LinkEdges, keys: LinkKeys, side: Side, neighbors: seq<Target>, t: nat)
    requires t < |neighbors|
    ensures Reached(e, keys, side, neighbors[..t + 1]) ==
      if ForeignKey(keys, side) == neighbors[t].id
          then SetEdge(Reached(e, keys, side, neighbors[..t]), side, Some(neighbors[t]))
      else Reached(e, keys, side, neighbors[..t])
  {
    MatchStep(neighbors, TargetKey, Some(ForeignKey(keys, side)), EdgeOn(e, side), t);
  }

  /** The second loop of loadAccount and of loadGroup. */
  method Distribute(nodes: seq<Link>, side: Side, nodeids: map<int, seq<Link>>, neighbors: seq<Target>)
    returns (err: Option<LoadError>)
    requires forall k :: k in nodeids <==> Some(k) in Keys(nodes, ForeignKeyOf(side))
    requires forall k :: k in nodeids ==> nodeids[k] == ByKey(nodes, ForeignKeyOf(side), k)
    modifies nodes
    ensures var known := Referenced(Keys(nodes, ForeignKeyOf(side)), neighbors, TargetKey);
      && (err == if |known| == |neighbors| then None else Some(Unexpected(EdgeName(side), neighbors[|known|].id)))
      && (forall n :: n in nodes ==> n.edges == Reached(old(n.edges), n.keys, side, known))
  {
    ghost var fks := Keys(nodes, ForeignKeyOf(side));
    for t := 0 to |neighbors|
      invariant forall k :: 0 <= k < t ==> Some(TargetKey(neighbors[k])) in fks
      invariant forall n :: n in nodes ==> n.edges == Reached(old(n.edges), n.keys, side, neighbors[..t])
    {
      var target := neighbors[t];
      if target.id !in nodeids {
        ReferencedIs(fks, neighbors, TargetKey, t);
        return Some(Unexpected(EdgeName(side), target.id));
      }
      ByKeyMembers(nodes, ForeignKeyOf(side), target.id);
      label before:
      AssignTarget(nodeids[target.id], side, target);
      forall n | n in nodes ensures n.edges == Reached(old(n.edges), n.keys, side, neighbors[..t + 1]) {
        ReachedStep(old(n.edges), n.keys, side, neighbors, t);
        assert n in nodeids[target.id] <==> ForeignKey(n.keys, side) == target.id;
        assert old@before(n.edges) == Reached(old(n.edges), n.keys, side, neighbors[..t]);
      }
    }
    ReferencedIs(fks, neighbors, TargetKey, |neighbors|);
    return None;
  }

  /** loadAccount and loadGroup */
  method Load(nodes: seq<Link>, side: Side, query: seq<int> -> Result<seq<Target>, string>)
      returns (err: Option<LoadError>)
    modifies nodes
    ensures err == TargetError(EdgeName(side), Keys(nodes, ForeignKeyOf(side)), query, TargetKey)
    ensures var used := TargetsUsed(Keys(nodes, ForeignKeyOf(side)), query, TargetKey);
      forall n :: n in nodes ==> n.edges == Reached(old(n.edges), n.keys, side, used)
  {
    var ids, nodeids := IndexByKey(nodes, ForeignKeyOf(side));
    if |ids| == 0 {
      return None;
    }
    var fetched := query(ids);
    if fetched.Err? {
      return Some(QueryFailed(fetched.error));
    }
    err := Distribute(nodes, side, nodeids, fetched.value);
  }

  // ----- the whole query --------------------------------------------------------------------

  function SideKeys(rows: seq<LinkKeys>, side: Side): seq<Option<int>> {
    seq(|rows|, j requires 0 <= j < |rows| => Some(ForeignKey(rows[j], side)))
  }

  type Fetch = (Side, seq<int>) -> Result<seq<Target>, string>

  function SideError(want: Wanted, side: Side, rows: seq<LinkKeys>, query: Fetch): Option<LoadError> {
    if Requested(want, side)
        then TargetError(EdgeName(side), SideKeys(rows, side), ids => query(side, ids), TargetKey) else None
  }

  function FirstError(want: Wanted, rows: seq<LinkKeys>, query: Fetch): Option<LoadError> {
    var first := SideError(want, AccountSide, rows, query);
    if first.Some? then first else SideError(want, GroupSide, rows, query)
  }

  function SideLoaded(want: Wanted, side: Side, rows: seq<LinkKeys>, query: Fetch, j: nat): Option<Target>
    requires j < |rows|
  {
    if Requested(want, side)
    then MatchOf(TargetsUsed(SideKeys(rows, side), ids => query(side, ids), TargetKey), TargetKey,
                 Some(ForeignKey(rows[j], side)), None)
    else None
  }

  /** The edges of row j once the requested loaders have run. */
  function EdgesOf(want: Wanted, rows: seq<LinkKeys>, query: Fetch, j: nat): LinkEdges
    requires j < |rows|
  {
    LinkEdges(SideLoaded(want, AccountSide, rows, query, j), SideLoaded(want, GroupSide, rows, query, j), want)
  }

  /** AccountGroupQuery.sqlAll */
  method SqlAll(want: Wanted, fetched: Result<seq<LinkKeys>, string>, query: Fetch)
      returns (r: Result<seq<Link>, LoadError>)
    ensures fetched.Err? ==> r == Err(QueryFailed(fetched.error))
    ensures fetched.Ok? ==> var rows := fetched.value;
      && (r.Err? <==> FirstError(want, rows, query).Some?)
      && (r.Err? ==> Some(r.error) == FirstError(want, rows, query))
      && (r.Ok? ==> |r.value| == |rows|)
      && (r.Ok? ==> forall j :: 0 <= j < |rows| ==>
           fresh(r.value[j]) && r.value[j].keys == rows[j] && r.value[j].edges == EdgesOf(want, rows, query, j))
  {
    if fetched.Err? {
      return Err(QueryFailed(fetched.error));
    }
    var rows := fetched.value;
    var nodes: seq<Link> := [];
    for i := 0 to |rows|
      invariant |nodes| == i
      invariant forall j :: 0 <= j < i ==>
        fresh(nodes[j]) && nodes[j].keys == rows[j] && nodes[j].edges == LinkEdges(None, None, want)
    {
      var node := new Link(rows[i], want);
      nodes := nodes + [node];
    }
    if |nodes| == 0 {
      return Ok(nodes);
    }
    assert Keys(nodes, ForeignKeyOf(AccountSide)) == SideKeys(rows, AccountSide);
    assert Keys(nodes, ForeignKeyOf(GroupSide)) == SideKeys(rows, GroupSide);
    if want.account {
      var err := Load(nodes, AccountSide, ids => query(AccountSide, ids));
      if err.Some? { return Err(err.value); }
    }
    if want.group {
      var err := Load(nodes, GroupSide, ids => query(GroupSide, ids));
      if err.Some? { return Err(err.value); }
    }
    return Ok(nodes);
  }

  // ----- the edge accessors of accountgroup.go ----------------------------------------------

  datatype EdgeError = NotLoaded | NotFound

  /** AccountOrErr and GroupOrErr */
  function OrErr(e: LinkEdges, side: Side): Result<Target, EdgeError> {
    if EdgeOn(e, side).Some? then Ok(EdgeOn(e, side).value)
    else if Requested(e.loaded, side) then Err(NotFound)
    else Err(NotLoaded)
  }

  ghost predicate UniqueIds(targets: seq<Target>) {
    forall a, b :: 0 <= a < b < |targets| ==> targets[a].id != targets[b].id
  }

  lemma SideUsed(want: Wanted, rows: seq<LinkKeys>, query: Fetch, j: nat, side: Side)
    requires Requested(want, side) && FirstError(want, rows, query).None? && j < |rows|
    requires var fetched := query(side, Queried(SideKeys(rows, side)));
      fetched.Ok? ==> UniqueIds(fetched.value)
    ensures var fetched, fk := query(side, Queried(SideKeys(rows, side))), ForeignKey(rows[j], side);
      && fetched.Ok?
      && forall t :: SideLoaded(want, side, rows, query, j) == Some(t) <==> t in fetched.value && t.id == fk
  {
    var fks := SideKeys(rows, side);
    QueriedExact(fks);
    assert fks[j] in fks && Queried(fks) != [];
    assert SideError(want, side, rows, query).None?;
    AllUsed(EdgeName(side), fks, ids => query(side, ids), TargetKey);
    MatchExact(query(side, Queried(fks)).value, TargetKey, Some(ForeignKey(rows[j], side)));
  }

  lemma OrErrOf(want: Wanted, rows: seq<LinkKeys>, query: Fetch, j: nat, side: Side)
    requires j < |rows|
    ensures OrErr(EdgesOf(want, rows, query, j), side) ==
      match SideLoaded(want, side, rows, query, j)
      case Some(t) => Ok(t)
      case None => Err(if Requested(want, side) then NotFound else NotLoaded)
  {
  }

  /**
   * After a successful sqlAll both accessors tell the three situations apart for every row, however
   * many rows share an account or a group; a requested edge is only missing when the child query
   * did not answer its key.
   */
  lemma LinkAccess(want: Wanted, rows: seq<LinkKeys>, query: Fetch, j: nat, side: Side)
    requires j < |rows| && FirstError(want, rows, query).None?
    requires var fetched := query(side, Queried(SideKeys(rows, side)));
      Requested(want, side) && fetched.Ok? ==> UniqueIds(fetched.value)
    ensures var fetched := query(side, Queried(SideKeys(rows, side)));
      var r := OrErr(EdgesOf(want, rows, query, j), side);
      && (Requested(want, side) ==> fetched.Ok?)
      && (r == Err(NotLoaded) <==> !Requested(want, side))
      && (r == Err(NotFound) <==>
            Requested(want, side) && forall t | t in fetched.value :: t.id != ForeignKey(rows[j], side))
      && (forall t :: r == Ok(t) <==> Requested(want, side) && t in fetched.value && t.id == ForeignKey(rows[j], side))
  {
    OrErrOf(want, rows, query, j, side);
    var loaded := SideLoaded(want, side, rows, query, j);
    if Requested(want, side) {
      SideUsed(want, rows, query, j, side);
      forall t | t in query(side, Queried(SideKeys(rows, side))).value && t.id == ForeignKey(rows[j], side)
        ensures loaded == Some(t)
      {
      }
    } else {
      assert loaded.None?;
    }
  }
}
