/** Creating an account and loading it back: the edges of the mutation are the edges that are loaded. */
module CreateThenLoad {
  import opened Prelude
  import opened EdgeJoin
  import opened EntityRow
  import opened AccountRow
  import opened AccountCreate
  import EdgeLoading
  import opened EagerQuery
  import opened Projection

  /** The join table relates the account to the groups of the edges that were inserted with it, and to no others. */
  ghost predicate Linked(rows: seq<JoinRow>, edges: seq<Edge>, id: int) {
    forall g :: Joined(rows, id, g) <==> exists edge :: edge in edges && edge.GroupsEdge? && g in edge.nodes
  }

  /** The logs that now belong to the account are those its inserted edges name. */
  ghost predicate Relinked(found: seq<UsageLog>, stored: seq<UsageLog>, edges: seq<Edge>, id: int) {
    forall x :: x in found && x.accountID == id <==>
      exists l, edge :: l in stored && edge in edges && edge.UsageLogsEdge? && l.id in edge.nodes
          && x == l.(accountID := id)
  }

  lemma GroupsCreated(m: Mutation, rows: seq<JoinRow>, id: int, groups: seq<Group>)
    requires Linked(rows, SpecEdges(m), id) && IsJoinOf(rows, id, groups)
    ensures forall g :: (exists x :: x in groups && x.id == g) <==> g in m.groupIDs
  {
    EdgesExact(m);
    forall g ensures (exists x :: x in groups && x.id == g) <==> g in m.groupIDs {
      if g in m.groupIDs {
        assert GroupsEdge(m.groupIDs) in SpecEdges(m);
        assert Joined(rows, id, g);
      }
      if x :| x in groups && x.id == g {
        assert Joined(rows, id, g);
      }
    }
  }

  lemma LogsCreated(m: Mutation, found: seq<UsageLog>, stored: seq<UsageLog>, id: int)
    requires Relinked(found, stored, SpecEdges(m), id)
    ensures forall x :: x in OwnChildren(found, LogOwner, id) <==>
      exists l :: l in stored && l.id in m.usageLogIDs && x == l.(accountID := id)
  {
    EdgesExact(m);
    OwnChildrenMembers(found, LogOwner, id);
    forall x | x in OwnChildren(found, LogOwner, id)
      ensures exists l :: l in stored && l.id in m.usageLogIDs && x == l.(accountID := id)
    {
      assert x in found && x.accountID == id;
      var l, edge :|
        l in stored && edge in SpecEdges(m) && edge.UsageLogsEdge? && l.id in edge.nodes && x == l.(accountID := id);
      assert l.id in m.usageLogIDs;
    }
    forall l | l in stored && l.id in m.usageLogIDs ensures l.(accountID := id) in OwnChildren(found, LogOwner, id) {
      var x, edge := l.(accountID := id), UsageLogsEdge(m.usageLogIDs);
      assert edge in SpecEdges(m) && l.id in edge.nodes;
      assert x in found && LogOwner(x) == id;
    }
  }

  /** What the child queries answer about the created account, if they answer. */
  ghost predicate Stored(
    want: EdgeLoading.With, q: Children, ids: seq<int>, edges: seq<Edge>, id: int, stored: seq<UsageLog>)
  {
    && (want.groups && q.groups(ids).Ok? ==> Linked(q.groups(ids).value, edges, id))
    && (want.usageLogs && q.usageLogs(ids).Ok? ==> Relinked(q.usageLogs(ids).value, stored, edges, id))
  }

  /** The row holds what the specification says, and the identifier the store assigned. */
  ghost predicate RowHolds(row: Row<Column>, spec: CreateSpec, id: int, marshal: GoMap -> string) {
    forall c :: row(c) == StoredRow(spec, id, marshal)(c)
  }

  /**
   * What the query reads for the loaders from the created account's row, whatever fields it selects:
   * the assigned identifier, and the proxy that the mutation named when that edge is requested.
   */
  lemma CreatedKeys(
    m: Mutation, id: int, row: Row<Column>, fields: seq<Column>, withProxy: bool, marshal: GoMap -> string,
    unmarshal: Unmarshaler)
    requires forall doc :: marshal(doc) != "" && unmarshal(marshal(doc)) == Some(doc)
    requires RowHolds(row, SpecOf(m), id, marshal)
    ensures var keys := KeysRead(AccountColumns(fields, withProxy), row, unmarshal);
      keys.id == id && (withProxy ==> keys.proxyID == m.proxyID)
  {
    CopiedIs(ID);
    CopiedIs(ProxyID);
    RowsAre(m, COPIED, id, marshal);
    KeysBack(m, COPIED, id, row, fields, withProxy, marshal, unmarshal);
  }

  /** Before the projection: the full query reads these keys. */
  lemma FullKeys(
    m: Mutation, copied: seq<Column>, id: int, row: Row<Column>, marshal: GoMap -> string, unmarshal: Unmarshaler)
    requires forall doc :: marshal(doc) != "" && unmarshal(marshal(doc)) == Some(doc)
    requires ID !in copied && ProxyID !in copied
    requires forall c :: row(c) == CellFor(m, copied, id, c, marshal)
    ensures Decodable(ACCOUNT, COLUMNS, row, unmarshal)
    ensures FieldRead(ACCOUNT, COLUMNS, row, unmarshal, ID) == Plain(Int(id))
    ensures FieldRead(ACCOUNT, COLUMNS, row, unmarshal, ProxyID) == NodeField(ACCOUNT, m, copied, ProxyID)
  {
    AccountCovers();
    TableAsserted();
    TableReadsBack(ACCOUNT, COLUMNS, m, copied, id, row, marshal, unmarshal);
    AssignDecodes(ACCOUNT, COLUMNS, row, unmarshal, Scanned(ACCOUNT, COLUMNS, row));
  }

  lemma KeysBack(
    m: Mutation, copied: seq<Column>, id: int, row: Row<Column>, fields: seq<Column>, withProxy: bool,
    marshal: GoMap -> string, unmarshal: Unmarshaler)
    requires forall doc :: marshal(doc) != "" && unmarshal(marshal(doc)) == Some(doc)
    requires ID !in copied && ProxyID !in copied
    requires forall c :: row(c) == CellFor(m, copied, id, c, marshal)
    ensures var keys := KeysRead(AccountColumns(fields, withProxy), row, unmarshal);
      keys.id == id && (withProxy ==> keys.proxyID == m.proxyID)
  {
    FullKeys(m, copied, id, row, marshal, unmarshal);
    AccountKeysSurvive(fields, withProxy, row, unmarshal);
  }

  /** The proxy query answers no identifier twice. */
  ghost predicate DistinctProxies(keys: seq<Keys>, q: Children) {
    ProxiesFetched(keys, q).Ok? ==>
      forall a, b :: 0 <= a < b < |ProxiesFetched(keys, q).value| ==>
        ProxiesFetched(keys, q).value[a].id != ProxiesFetched(keys, q).value[b].id
  }

  /** The loaded edges are the ones that the mutation named. */
  ghost predicate NamedEdges(
    m: Mutation, id: int, want: EdgeLoading.With, found: seq<Proxy>, stored: seq<UsageLog>, e: EdgeLoading.AccountEdges)
  {
    && (want.groups ==> e.groups.Some? && forall g :: (exists x :: x in e.groups.value && x.id == g) <==>
          g in m.groupIDs)
    && (want.usageLogs ==> e.usageLogs.Some? && forall x :: x in e.usageLogs.value <==>
          exists l :: l in stored && l.id in m.usageLogIDs && x == l.(accountID := id))
    && (want.proxy ==> forall p :: e.proxy == Some(p) <==> p in found && m.proxyID == Some(p.id))
  }

  lemma EdgesLoad(
    m: Mutation, id: int, want: EdgeLoading.With, keys: seq<Keys>, q: Children, j: nat, stored: seq<UsageLog>)
    requires j < |keys| && Distinct(KeyIds(keys))
    requires keys[j].id == id && (want.proxy ==> keys[j].proxyID == m.proxyID)
    requires FirstError(want, keys, q).None? && forall found :: q.intercept(found) == found
    requires Stored(want, q, KeyIds(keys), SpecEdges(m), id, stored)
    requires want.proxy ==> DistinctProxies(keys, q)
    ensures want.proxy ==> ProxiesFetched(keys, q).Ok?
    ensures NamedEdges(m, id, want, if want.proxy then ProxiesFetched(keys, q).value else [], stored,
                       EdgesOf(want, keys, q, j))
  {
    var ids := KeyIds(keys);
    ListsAccess(want, keys, q, j);
    ProxyAccess(want, keys, q, j);
    if want.groups {
      GroupsCreated(m, q.groups(ids).value, id, EdgesOf(want, keys, q, j).groups.value);
    }
    if want.usageLogs {
      LogsCreated(m, q.usageLogs(ids).value, stored, id);
    }
  }

  /**
   * After an insert of the specification that createSpec made, a successful query, whatever fields it
   * selects, loads exactly the groups, the usage logs and the proxy that the mutation named.
   */
  lemma CreatedEdgesLoad(
    m: Mutation, id: int, row: Row<Column>, fields: seq<Column>, marshal: GoMap -> string, unmarshal: Unmarshaler,
    want: EdgeLoading.With, keys: seq<Keys>, q: Children, j: nat, stored: seq<UsageLog>)
    requires forall doc :: marshal(doc) != "" && unmarshal(marshal(doc)) == Some(doc)
    requires RowHolds(row, SpecOf(m), id, marshal)
    requires j < |keys| && Distinct(KeyIds(keys))
    requires keys[j] == KeysRead(AccountColumns(fields, want.proxy), row, unmarshal)
    requires FirstError(want, keys, q).None? && forall found :: q.intercept(found) == found
    requires Stored(want, q, KeyIds(keys), SpecEdges(m), id, stored)
    requires want.proxy ==> DistinctProxies(keys, q)
    ensures want.proxy ==> ProxiesFetched(keys, q).Ok?
    ensures NamedEdges(m, id, want, if want.proxy then ProxiesFetched(keys, q).value else [], stored,
                       EdgesOf(want, keys, q, j))
  {
    CreatedKeys(m, id, row, fields, want.proxy, marshal, unmarshal);
    EdgesLoad(m, id, want, keys, q, j, stored);
  }
}
