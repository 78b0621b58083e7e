/** Which error a query with eager loading reports, from the answers of its child queries alone. */
module LoadErrors {
  import opened Prelude
  import opened EdgeJoin
  import opened EdgeLoading
  import opened ManyToOne
  import opened EagerQuery
  import MembershipQuery

  /** Group i is the first one that was handed back without being named by a row. */
  ghost predicate Stray(rows: seq<JoinRow>, groups: seq<Group>, i: nat) {
    && i < |groups| && (forall k :: 0 <= k < |rows| ==> rows[k].group.id != groups[i].id)
    && forall j :: 0 <= j < i ==> exists k :: 0 <= k < |rows| && rows[k].group.id == groups[j].id
  }

  ghost predicate GroupsStop(
    rows: Result<seq<JoinRow>, string>, intercept: seq<Group> -> seq<Group>, e: LoadError)
  {
    match rows
    case Err(m) => e == QueryFailed(m)
    case Ok(joined) =>
      var groups := intercept(FirstRows(joined));
      exists i: nat :: Stray(joined, groups, i) && e == Unexpected("groups", groups[i].id)
  }

  lemma GroupsStopIs(rows: Result<seq<JoinRow>, string>, intercept: seq<Group> -> seq<Group>, e: LoadError)
    ensures GroupsError(rows, intercept) == Some(e) <==> GroupsStop(rows, intercept, e)
  {
    if rows.Ok? {
      var joined, groups := rows.value, intercept(FirstRows(rows.value));
      var known := Known(joined, groups);
      forall i: nat | Stray(joined, groups, i) ensures i == |known| {
        assert !Seen(joined, groups[i].id) && forall j :: 0 <= j < i ==> Seen(joined, groups[j].id);
        AcceptedIs(groups, (g: Group) => Seen(joined, g.id), i);
      }
      if |known| < |groups| {
        assert Stray(joined, groups, |known|);
      }
    }
  }

  /** Child i is the first one whose owner was not asked for. */
  ghost predicate Orphan<N>(ids: seq<int>, children: seq<N>, owner: N -> int, i: nat) {
    i < |children| && owner(children[i]) !in ids && forall j :: 0 <= j < i ==> owner(children[j]) in ids
  }

  ghost predicate ChildrenStop<N>(ids: seq<int>, fetched: Result<seq<N>, string>, owner: N -> int, e: LoadError) {
    match fetched
    case Err(m) => e == QueryFailed(m)
    case Ok(children) =>
      exists i: nat :: Orphan(ids, children, owner, i) && e == Unexpected("account_id", owner(children[i]))
  }

  lemma ChildrenStopIs<N>(ids: seq<int>, fetched: Result<seq<N>, string>, owner: N -> int, e: LoadError)
    ensures ChildrenError("account_id", ids, fetched, owner) == Some(e) <==> ChildrenStop(ids, fetched, owner, e)
  {
    if fetched.Ok? {
      var children := fetched.value;
      var known := Owned(ids, children, owner);
      forall i: nat | Orphan(ids, children, owner, i) ensures i == |known| {
        OwnedIs(ids, children, owner, i);
      }
      if |known| < |children| {
        assert Orphan(ids, children, owner, |known|);
      }
    }
  }

  /** Target i is the first one that no foreign key names. */
  ghost predicate Unasked<N>(fks: seq<Option<int>>, targets: seq<N>, key: N -> int, i: nat) {
    i < |targets| && Some(key(targets[i])) !in fks && forall j :: 0 <= j < i ==> Some(key(targets[j])) in fks
  }

  lemma AnyQueried(fks: seq<Option<int>>)
    ensures Queried(fks) != [] <==> exists k :: 0 <= k < |fks| && fks[k].Some?
  {
    QueriedExact(fks);
    if k :| 0 <= k < |fks| && fks[k].Some? {
      var x := fks[k].value;
      assert fks[k] == Some(x) && Some(x) in fks;
      assert x in Queried(fks);
    }
    if Queried(fks) != [] {
      var x := Queried(fks)[0];
      assert x in Queried(fks) && Some(x) in fks;
      var k :| 0 <= k < |fks| && fks[k] == Some(x);
      assert fks[k].Some?;
    }
  }

  /** Without a foreign key nothing is queried, so nothing fails. */
  ghost predicate TargetsStop<N>(
    edge: string, fks: seq<Option<int>>, query: seq<int> -> Result<seq<N>, string>, key: N -> int, e: LoadError)
  {
    && (exists k :: 0 <= k < |fks| && fks[k].Some?)
    && match query(Queried(fks))
       case Err(m) => e == QueryFailed(m)
       case Ok(targets) => exists i: nat :: Unasked(fks, targets, key, i) && e == Unexpected(edge, key(targets[i]))
  }

  lemma TargetsStopIs<N>(
    edge: string, fks: seq<Option<int>>, query: seq<int> -> Result<seq<N>, string>, key: N -> int, e: LoadError)
    ensures TargetError(edge, fks, query, key) == Some(e) <==> TargetsStop(edge, fks, query, key, e)
  {
    AnyQueried(fks);
    if query(Queried(fks)).Ok? {
      var targets := query(Queried(fks)).value;
      var known := Referenced(fks, targets, key);
      forall i: nat | Unasked(fks, targets, key, i) ensures i == |known| {
        ReferencedIs(fks, targets, key, i);
      }
      if |known| < |targets| {
        assert Unasked(fks, targets, key, |known|);
      }
    }
  }

  // ----- accounts ---------------------------------------------------------------------------

  /** Loader k of the account query, in the order in which they run, is requested and fails with e. */
  ghost predicate LoaderStops(k: nat, want: With, rows: seq<Keys>, q: Children, e: LoadError) {
    match k
    case 0 => want.groups && GroupsStop(q.groups(KeyIds(rows)), q.intercept, e)
    case 1 => want.proxy && TargetsStop("proxy_id", KeyProxies(rows), q.proxies, ProxyKey, e)
    case 2 => want.usageLogs && ChildrenStop(KeyIds(rows), q.usageLogs(KeyIds(rows)), LogOwner, e)
    case 3 => want.accountGroups && ChildrenStop(KeyIds(rows), q.accountGroups(KeyIds(rows)), MembershipOwner, e)
    case _ => false
  }

  /** The error reported is that of the first requested loader that fails. */
  lemma FirstErrorExact(want: With, rows: seq<Keys>, q: Children, e: LoadError)
    ensures EagerQuery.FirstError(want, rows, q) == Some(e) <==>
      exists k: nat :: LoaderStops(k, want, rows, q, e)
          && forall j, d :: 0 <= j < k ==> !LoaderStops(j, want, rows, q, d)
  {
    var ids := KeyIds(rows);
    forall d
      ensures LoaderStops(0, want, rows, q, d) <==> want.groups && GroupsError(q.groups(ids), q.intercept) == Some(d)
      ensures LoaderStops(1, want, rows, q, d) <==>
        want.proxy && ProxyError(KeyProxies(rows), q.proxies) == Some(d)
      ensures LoaderStops(2, want, rows, q, d) <==>
        want.usageLogs && ChildrenError("account_id", ids, q.usageLogs(ids), LogOwner) == Some(d)
      ensures LoaderStops(3, want, rows, q, d) <==>
        want.accountGroups && ChildrenError("account_id", ids, q.accountGroups(ids), MembershipOwner) == Some(d)
    {
      GroupsStopIs(q.groups(ids), q.intercept, d);
      TargetsStopIs("proxy_id", KeyProxies(rows), q.proxies, ProxyKey, d);
      ChildrenStopIs(ids, q.usageLogs(ids), LogOwner, d);
      ChildrenStopIs(ids, q.accountGroups(ids), MembershipOwner, d);
    }
    Leads(want, rows, q, e);
  }

  /** The loaders' errors in order. */
  function Errors(want: With, rows: seq<Keys>, q: Children): seq<Option<LoadError>> {
    var ids := KeyIds(rows);
    [if want.groups then GroupsError(q.groups(ids), q.intercept) else None,
     if want.proxy then ProxyError(KeyProxies(rows), q.proxies) else None,
     if want.usageLogs then ChildrenError("account_id", ids, q.usageLogs(ids), LogOwner) else None,
     if want.accountGroups then ChildrenError("account_id", ids, q.accountGroups(ids), MembershipOwner) else None]
  }

  lemma Leads(want: With, rows: seq<Keys>, q: Children, e: LoadError)
    requires forall d, k: nat :: k < 4 ==> (LoaderStops(k, want, rows, q, d) <==> Errors(want, rows, q)[k] == Some(d))
    ensures EagerQuery.FirstError(want, rows, q) == Some(e) <==>
      exists k: nat :: LoaderStops(k, want, rows, q, e)
          && forall j, d :: 0 <= j < k ==> !LoaderStops(j, want, rows, q, d)
  {
    var errors := Errors(want, rows, q);
    var k: nat := if errors[0].Some? then 0 else if errors[1].Some? then 1 else if errors[2].Some? then 2 else 3;
    assert EagerQuery.FirstError(want, rows, q) == errors[k];
    forall j, d | 0 <= j < k ensures !LoaderStops(j, want, rows, q, d) {
      assert errors[j].None?;
    }
    forall i: nat | LoaderStops(i, want, rows, q, e) && forall j, d :: 0 <= j < i ==> !LoaderStops(j, want, rows, q, d)
      ensures i == k
    {
    }
  }

  // ----- rows of the join table ---------------------------------------------------------------

  /** Both loaders of the membership query, the account's first. */
  ghost predicate SideStops(
    k: nat, want: MembershipQuery.Wanted, rows: seq<MembershipQuery.LinkKeys>, query: MembershipQuery.Fetch,
    e: LoadError)
  {
    match k
    case 0 =>
      && want.account
      && TargetsStop("account_id", MembershipQuery.SideKeys(rows, MembershipQuery.AccountSide),
                     ids => query(MembershipQuery.AccountSide, ids), MembershipQuery.TargetKey, e)
    case 1 =>
      && want.group
      && TargetsStop("group_id", MembershipQuery.SideKeys(rows, MembershipQuery.GroupSide),
                     ids => query(MembershipQuery.GroupSide, ids), MembershipQuery.TargetKey, e)
    case _ => false
  }

  lemma LinkErrorExact(
    want: MembershipQuery.Wanted, rows: seq<MembershipQuery.LinkKeys>, query: MembershipQuery.Fetch, e: LoadError)
    ensures MembershipQuery.FirstError(want, rows, query) == Some(e) <==>
      || SideStops(0, want, rows, query, e)
      || (SideStops(1, want, rows, query, e) && forall d :: !SideStops(0, want, rows, query, d))
  {
    forall d
      ensures SideStops(0, want, rows, query, d) <==>
        MembershipQuery.SideError(want, MembershipQuery.AccountSide, rows, query) == Some(d)
      ensures SideStops(1, want, rows, query, d) <==>
        MembershipQuery.SideError(want, MembershipQuery.GroupSide, rows, query) == Some(d)
    {
      SideStopsIs(want, MembershipQuery.AccountSide, rows, query, d);
      SideStopsIs(want, MembershipQuery.GroupSide, rows, query, d);
    }
  }

  lemma SideStopsIs(
    want: MembershipQuery.Wanted, side: MembershipQuery.Side, rows: seq<MembershipQuery.LinkKeys>,
    query: MembershipQuery.Fetch, e: LoadError)
    ensures SideStops(if side.AccountSide? then 0 else 1, want, rows, query, e) <==>
      MembershipQuery.SideError(want, side, rows, query) == Some(e)
  {
    TargetsStopIs(MembershipQuery.EdgeName(side), MembershipQuery.SideKeys(rows, side), ids => query(side, ids),
                  MembershipQuery.TargetKey, e);
  }
}
