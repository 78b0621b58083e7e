/**
 * Column projection: querySpec turns the selected fields into the columns of the query, and must
 * keep every key that the eager loaders read from the resulting nodes.
 */
module Projection {
  import opened Prelude
  import opened EntityRow
  import opened AccountRow
  import EdgeLoading
  import EagerQuery
  import MembershipQuery

  /** AppendFieldOnce and AddColumnOnce. */
  function AddOnce<C(==)>(columns: seq<C>, c: C): seq<C> {
    if c in columns then columns else columns + [c]
  }

  function AddAll<C(==)>(columns: seq<C>, keys: seq<C>): seq<C> {
    if keys == [] then columns else AddOnce(AddAll(columns, keys[..|keys| - 1]), keys[|keys| - 1])
  }

  function Without<C(==)>(fields: seq<C>, id: C): seq<C> {
    Filter(fields, (f: C) => f != id)
  }

  /** The columns of a query: the identifier leads when the entity has one, then the edge keys follow. */
  function SpecColumns<C(==)>(id: Option<C>, table: seq<C>, fields: seq<C>, keys: seq<C>): seq<C> {
    if fields == [] then table
    else AddAll(if id.Some? then [id.value] + Without(fields, id.value) else fields, keys)
  }

  method QuerySpecColumns<C(==)>(id: Option<C>, table: seq<C>, fields: seq<C>, keys: seq<C>) returns (columns: seq<C>)
    ensures columns == SpecColumns(id, table, fields, keys)
  {
    if |fields| == 0 {
      return table;
    }
    columns := if id.Some? then [id.value] else [];
    for i := 0 to |fields|
      invariant columns == if id.Some? then [id.value] + Without(fields[..i], id.value) else fields[..i]
    {
      assert fields[..i + 1][..i] == fields[..i];
      if id != Some(fields[i]) {
        columns := columns + [fields[i]];
      }
    }
    assert fields[..|fields|] == fields;
    for i := 0 to |keys|
      invariant columns == AddAll(if id.Some? then [id.value] + Without(fields, id.value) else fields, keys[..i])
    {
      assert keys[..i + 1][..i] == keys[..i];
      columns := AddOnce(columns, keys[i]);
    }
    assert keys[..|keys|] == keys;
  }

  lemma {:induction false} AddAllExact<C>(columns: seq<C>, keys: seq<C>)
    ensures columns <= AddAll(columns, keys)
    ensures forall c :: c in AddAll(columns, keys) <==> c in columns || c in keys
    ensures forall i :: |columns| <= i < |AddAll(columns, keys)| ==> AddAll(columns, keys)[i] !in columns
  {
    if keys == [] {
    } else {
      var n := |keys| - 1;
      AddAllExact(columns, keys[..n]);
      assert keys == keys[..n] + [keys[n]];
    }
  }

  /**
   * Exactly the selected fields, the identifier and the keys are queried; the identifier comes first,
   * once.  Without selected fields it is the whole table.
   */
  lemma SpecColumnsExact<C>(id: Option<C>, table: seq<C>, fields: seq<C>, keys: seq<C>)
    ensures var columns := SpecColumns(id, table, fields, keys);
      && (fields == [] ==> columns == table)
      && (fields != [] ==> forall c :: c in columns <==> c in fields || c in keys || id == Some(c))
      && (fields != [] && id.Some? ==> columns != [] && columns[0] == id.value && id.value !in columns[1..])
      && (fields != [] && id.None? ==> fields <= columns)
      && (fields != [] && id.Some? && id.value !in fields ==> [id.value] + fields <= columns)
  {
    if fields == [] {
      return;
    }
    var own := if id.Some? then [id.value] + Without(fields, id.value) else fields;
    AddAllExact(own, keys);
    if id.Some? {
      FilterMembers(fields, (f: C) => f != id.value);
      if id.value !in fields {
        FilterAll(fields, (f: C) => f != id.value);
      }
      var columns := SpecColumns(id, table, fields, keys);
      forall i | 1 <= i < |columns| ensures columns[i] != id.value {
        assert i < |own| ==> own[i] in Without(fields, id.value);
      }
    }
  }

  /** The field of the node made from a row scanned for these columns. */
  function FieldRead<C(==)>(e: Schema<C>, columns: seq<C>, row: Row<C>, unmarshal: Unmarshaler, c: C): Field {
    match AssignAll(e, ZeroRecord(e), columns, Scanned(e, columns, row), unmarshal)
    case Ok(m) => m.fields(c)
    case Err(_) => ZeroField(e, c)
  }

  /** The table has every column that is read into a field. */
  ghost predicate Covers<C(!new)>(e: Schema<C>, table: seq<C>) {
    forall c :: e.asserted(c).Some? ==> c in table
  }

  /** When the full query reads a row, so does every other one, and a queried column is read the same. */
  lemma FieldSurvives<C(!new)>(
    e: Schema<C>, columns: seq<C>, table: seq<C>, row: Row<C>, unmarshal: Unmarshaler, c: C)
    requires Agrees(e) && Covers(e, table) && Decodable(e, table, row, unmarshal)
    requires c in columns && c in table
    ensures Decodable(e, columns, row, unmarshal)
    ensures FieldRead(e, columns, row, unmarshal, c) == FieldRead(e, table, row, unmarshal, c)
  {
    forall d | d in columns ensures DecodableAt(e, row, unmarshal, d) {
      assert e.asserted(d).Some? ==> d in table;
    }
    AssignDecodes(e, columns, row, unmarshal, Scanned(e, columns, row));
    AssignDecodes(e, table, row, unmarshal, Scanned(e, table, row));
  }

  // ----- accounts ---------------------------------------------------------------------------

  function AccountColumns(fields: seq<Column>, withProxy: bool): seq<Column> {
    SpecColumns(Some(ID), COLUMNS, fields, if withProxy then [ProxyID] else [])
  }

  function IntOf(f: Field): Option<int> {
    match f
    case Plain(Int(i)) => Some(i)
    case Pointer(Some(Int(i))) => Some(i)
    case _ => None
  }

  /** What the loaders read from the node of a row: its ID and its ProxyID. */
  function KeysRead(columns: seq<Column>, row: Row<Column>, unmarshal: Unmarshaler): EagerQuery.Keys {
    var id := IntOf(FieldRead(ACCOUNT, columns, row, unmarshal, ID));
    EagerQuery.Keys(if id.Some? then id.value else 0, IntOf(FieldRead(ACCOUNT, columns, row, unmarshal, ProxyID)))
  }

  function AllKeysRead(columns: seq<Column>, rows: seq<Row<Column>>, unmarshal: Unmarshaler): seq<EagerQuery.Keys> {
    seq(|rows|, j requires 0 <= j < |rows| => KeysRead(columns, rows[j], unmarshal))
  }

  lemma AccountCovers()
    ensures Agrees(ACCOUNT) && Covers(ACCOUNT, COLUMNS) && ID in COLUMNS && ProxyID in COLUMNS
  {
    AccountAgrees();
    forall c: Column | ACCOUNT.asserted(c).Some? ensures c in COLUMNS {
      InTable(c);
    }
    InTable(ID);
    InTable(ProxyID);
  }

  /** Whenever the full query reads the row, so does the projected one, and with the same keys. */
  lemma AccountKeysSurvive(fields: seq<Column>, withProxy: bool, row: Row<Column>, unmarshal: Unmarshaler)
    requires Decodable(ACCOUNT, COLUMNS, row, unmarshal)
    ensures var columns := AccountColumns(fields, withProxy);
      && Decodable(ACCOUNT, columns, row, unmarshal)
      && KeysRead(columns, row, unmarshal).id == KeysRead(COLUMNS, row, unmarshal).id
      && (withProxy ==> KeysRead(columns, row, unmarshal) == KeysRead(COLUMNS, row, unmarshal))
  {
    AccountCovers();
    var columns := AccountColumns(fields, withProxy);
    if fields != [] {
      SpecColumnsExact(Some(ID), COLUMNS, fields, if withProxy then [ProxyID] else []);
      FieldSurvives(ACCOUNT, columns, COLUMNS, row, unmarshal, ID);
      if withProxy {
        FieldSurvives(ACCOUNT, columns, COLUMNS, row, unmarshal, ProxyID);
      }
    }
  }

  /** For every selection of fields and every set of requested edges, the edges are those of the full query. */
  lemma EagerLoadingCommutes(fields: seq<Column>, want: EdgeLoading.With, rows: seq<Row<Column>>,
                             unmarshal: Unmarshaler, q: EagerQuery.Children)
    requires forall j :: 0 <= j < |rows| ==> Decodable(ACCOUNT, COLUMNS, rows[j], unmarshal)
    ensures var few, full := AllKeysRead(AccountColumns(fields, want.proxy), rows, unmarshal),
        AllKeysRead(COLUMNS, rows, unmarshal);
      && EagerQuery.FirstError(want, few, q) == EagerQuery.FirstError(want, full, q)
      && forall j :: 0 <= j < |rows| ==> EagerQuery.EdgesOf(want, few, q, j) == EagerQuery.EdgesOf(want, full, q, j)
  {
    var few, full := AllKeysRead(AccountColumns(fields, want.proxy), rows, unmarshal),
        AllKeysRead(COLUMNS, rows, unmarshal);
    forall j | 0 <= j < |rows| ensures few[j].id == full[j].id && (want.proxy ==> few[j] == full[j]) {
      AccountKeysSurvive(fields, want.proxy, rows[j], unmarshal);
    }
    assert EagerQuery.KeyIds(few) == EagerQuery.KeyIds(full);
    if want.proxy {
      assert few == full;
    }
  }

  // ----- account groups: a composite key, no identifier column --------------------------------

  datatype LinkColumn = AccountID | GroupID | LinkPriority | LinkCreatedAt | LinkOther(name: string)

  const LINK_COLUMNS := [AccountID, GroupID, LinkPriority, LinkCreatedAt]

  function LinkScanKind(c: LinkColumn): Kind {
    match c
    case AccountID | GroupID | LinkPriority => NullInt64
    case LinkCreatedAt => NullTime
    case LinkOther(_) => UnknownType
  }

  function LinkAsserted(c: LinkColumn): Option<Kind> {
    match c
    case AccountID => Some(NullInt64)
    case GroupID => Some(NullInt64)
    case LinkPriority => Some(NullInt64)
    case LinkCreatedAt => Some(NullTime)
    case LinkOther(_) => None
  }

  const ACCOUNT_GROUP: Schema<LinkColumn> :=
    Schema(LinkScanKind, LinkAsserted, (c: LinkColumn) => false,
           (c: LinkColumn) => if c.LinkCreatedAt? then Time(0) else Int(0), None)

  /** AccountGroupQuery.querySpec, after loadAccountGroups has asked for the owner of each row. */
  function LinkColumns(fields: seq<LinkColumn>, withAccount: bool, withGroup: bool,
      loadedByAccount: bool): seq<LinkColumn> {
    var selected := if loadedByAccount && fields != [] then AddOnce(fields, AccountID) else fields;
    SpecColumns(None, LINK_COLUMNS, selected,
                (if withAccount then [AccountID] else []) + if withGroup then [GroupID] else [])
  }

  lemma LinkCovers()
    ensures Agrees(ACCOUNT_GROUP) && Covers(ACCOUNT_GROUP, LINK_COLUMNS)
    ensures AccountID in LINK_COLUMNS && GroupID in LINK_COLUMNS
  {
    forall c: LinkColumn
      ensures LinkAsserted(c).Some? ==> LinkAsserted(c) == Some(LinkScanKind(c)) && c in LINK_COLUMNS
    {
      var columns := LINK_COLUMNS;
      assert columns[0] == AccountID && columns[1] == GroupID;
      assert columns[2] == LinkPriority && columns[3] == LinkCreatedAt;
    }
    assert LINK_COLUMNS[0] == AccountID && LINK_COLUMNS[1] == GroupID;
  }

  /** The keys that loadAccount, loadGroup and loadAccountGroups read survive every selection of fields. */
  lemma LinkKeysSurvive(fields: seq<LinkColumn>, withAccount: bool, withGroup: bool, loadedByAccount: bool,
                        row: Row<LinkColumn>, unmarshal: Unmarshaler)
    requires Decodable(ACCOUNT_GROUP, LINK_COLUMNS, row, unmarshal)
    ensures var columns := LinkColumns(fields, withAccount, withGroup, loadedByAccount);
      && (withAccount || loadedByAccount ==>
            FieldRead(ACCOUNT_GROUP, columns, row, unmarshal, AccountID) ==
            FieldRead(ACCOUNT_GROUP, LINK_COLUMNS, row, unmarshal, AccountID))
      && (withGroup ==>
            FieldRead(ACCOUNT_GROUP, columns, row, unmarshal, GroupID) ==
            FieldRead(ACCOUNT_GROUP, LINK_COLUMNS, row, unmarshal, GroupID))
  {
    var columns := LinkColumns(fields, withAccount, withGroup, loadedByAccount);
    LinkCovers();
    if fields != [] {
      var selected := if loadedByAccount then AddOnce(fields, AccountID) else fields;
      SpecColumnsExact(None, LINK_COLUMNS, selected,
                       (if withAccount then [AccountID] else []) + if withGroup then [GroupID] else []);
      if withAccount || loadedByAccount {
        FieldSurvives(ACCOUNT_GROUP, columns, LINK_COLUMNS, row, unmarshal, AccountID);
      }
      if withGroup {
        FieldSurvives(ACCOUNT_GROUP, columns, LINK_COLUMNS, row, unmarshal, GroupID);
      }
    }
  }

  function IntRead(f: Field): int {
    if IntOf(f).Some? then IntOf(f).value else 0
  }

  /** What the loaders read from the node of an account_groups row. */
  function LinkRead(columns: seq<LinkColumn>, row: Row<LinkColumn>, unmarshal: Unmarshaler): MembershipQuery.LinkKeys {
    MembershipQuery.LinkKeys(IntRead(FieldRead(ACCOUNT_GROUP, columns, row, unmarshal, AccountID)),
                             IntRead(FieldRead(ACCOUNT_GROUP, columns, row, unmarshal, GroupID)))
  }

  function AllLinksRead(columns: seq<LinkColumn>, rows: seq<Row<LinkColumn>>,
      unmarshal: Unmarshaler): seq<MembershipQuery.LinkKeys> {
    seq(|rows|, j requires 0 <= j < |rows| => LinkRead(columns, rows[j], unmarshal))
  }

  lemma SideKeysSurvive(fields: seq<LinkColumn>, want: MembershipQuery.Wanted, loadedByAccount: bool,
                        rows: seq<Row<LinkColumn>>, unmarshal: Unmarshaler, side: MembershipQuery.Side)
    requires forall j :: 0 <= j < |rows| ==> Decodable(ACCOUNT_GROUP, LINK_COLUMNS, rows[j], unmarshal)
    requires MembershipQuery.Requested(want, side)
    ensures var columns := LinkColumns(fields, want.account, want.group, loadedByAccount);
      MembershipQuery.SideKeys(AllLinksRead(columns, rows, unmarshal), side) ==
      MembershipQuery.SideKeys(AllLinksRead(LINK_COLUMNS, rows, unmarshal), side)
  {
    var columns := LinkColumns(fields, want.account, want.group, loadedByAccount);
    var few, full := AllLinksRead(columns, rows, unmarshal), AllLinksRead(LINK_COLUMNS, rows, unmarshal);
    forall j | 0 <= j < |rows|
      ensures MembershipQuery.ForeignKey(few[j], side) == MembershipQuery.ForeignKey(full[j], side)
    {
      LinkKeysSurvive(fields, want.account, want.group, loadedByAccount, rows[j], unmarshal);
    }
  }

  /** For every selection of fields, the two edges of every account_groups row are those of the full query. */
  lemma LinkLoadingCommutes(fields: seq<LinkColumn>, want: MembershipQuery.Wanted, loadedByAccount: bool,
                            rows: seq<Row<LinkColumn>>, unmarshal: Unmarshaler, query: MembershipQuery.Fetch)
    requires forall j :: 0 <= j < |rows| ==> Decodable(ACCOUNT_GROUP, LINK_COLUMNS, rows[j], unmarshal)
    ensures var columns := LinkColumns(fields, want.account, want.group, loadedByAccount);
      var few, full := AllLinksRead(columns, rows, unmarshal), AllLinksRead(LINK_COLUMNS, rows, unmarshal);
      && MembershipQuery.FirstError(want, few, query) == MembershipQuery.FirstError(want, full, query)
      && forall j :: 0 <= j < |rows| ==>
          MembershipQuery.EdgesOf(want, few, query, j) == MembershipQuery.EdgesOf(want, full, query, j)
  {
    var columns := LinkColumns(fields, want.account, want.group, loadedByAccount);
    var few, full := AllLinksRead(columns, rows, unmarshal), AllLinksRead(LINK_COLUMNS, rows, unmarshal);
    forall side | MembershipQuery.Requested(want, side)
      ensures MembershipQuery.SideKeys(few, side) == MembershipQuery.SideKeys(full, side)
    {
      SideKeysSurvive(fields, want, loadedByAccount, rows, unmarshal, side);
    }
    forall side ensures MembershipQuery.SideError(want, side, few, query) ==
        MembershipQuery.SideError(want, side, full, query) {
    }
    forall j, side | 0 <= j < |rows|
      ensures MembershipQuery.SideLoaded(want, side, few, query, j) ==
          MembershipQuery.SideLoaded(want, side, full, query, j)
    {
      if MembershipQuery.Requested(want, side) {
        assert MembershipQuery.SideKeys(few, side)[j] == MembershipQuery.SideKeys(full, side)[j];
      }
    }
  }

  // ----- the wrapped row callbacks of loadGroups --------------------------------------------

  /** Scanning positionally: each holder takes the cell in its place. */
  function Fill(holders: seq<Holder>, cells: seq<Cell>): seq<Holder>
    requires |holders| == |cells|
  {
    seq(|holders|, i requires 0 <= i < |holders| => holders[i].(content := cells[i]))
  }

  /** The columns of the joined query: the account_id of the join table, then those of the group. */
  function JoinColumns<C(==)>(accountID: C, id: C, table: seq<C>, fields: seq<C>): seq<C> {
    [accountID] + SpecColumns(Some(id), table, fields, [])
  }

  function WrappedScanValues<C>(e: Schema<C>, columns: seq<C>): seq<Holder>
    requires columns != []
  {
    [Holder(NullInt64, Null)] + ScanValues(e, columns[1..])
  }

  /** The Int64 of a holder; an invalid one reads as 0. */
  function Int64Of(h: Holder): int {
    if h.content.Of? && h.content.value.Int? then h.content.value.i else 0
  }

  /** A failed type assertion panics; otherwise the two keys, and the node the inner callback builds. */
  datatype Assigned<!C(==)> = Panic | Assigned(account: int, group: int, node: Result<Record<C>, AssignError<C>>)

  function WrappedAssign<C(==)>(e: Schema<C>, columns: seq<C>, values: seq<Holder>, unmarshal: Unmarshaler): Assigned<C>
    requires 0 < |columns| <= |values|
  {
    if |values| < 2 || values[0].kind != NullInt64 || values[1].kind != NullInt64 then Panic
    else Assigned(Int64Of(values[0]), Int64Of(values[1]),
        AssignAll(e, ZeroRecord(e), columns[1..], values[1..], unmarshal))
  }

  /** The joined query's row: the foreign key, then the group's cells. */
  function JoinCells<C>(columns: seq<C>, row: Row<C>, a: int): seq<Cell>
    requires columns != []
  {
    [Of(Int(a))] + seq(|columns| - 1, i requires 0 <= i < |columns| - 1 => row(columns[i + 1]))
  }

  /** What the inner callback is handed is what the unwrapped query would scan. */
  lemma InnerAligned<C>(e: Schema<C>, columns: seq<C>, row: Row<C>, a: int)
    requires columns != []
    ensures var values := Fill(WrappedScanValues(e, columns), JoinCells(columns, row, a));
      values == [Holder(NullInt64, Of(Int(a)))] + Scanned(e, columns[1..], row)
  {
  }

  lemma IdentifierLeads<C>(id: C, table: seq<C>, fields: seq<C>)
    requires |table| > 0 && table[0] == id
    ensures var own := SpecColumns(Some(id), table, fields, []); own != [] && own[0] == id
  {
    if fields != [] {
      SpecColumnsExact(Some(id), table, fields, []);
    }
  }

  /**
   * Whatever group fields are selected, the wrapper reads both keys without panicking and hands the
   * inner callback exactly the columns and values of the unwrapped query, so the node carries the ID
   * that the wrapper recorded.
   */
  lemma WrapperAligned<C(!new)>(e: Schema<C>, accountID: C, id: C, table: seq<C>, fields: seq<C>,
                                row: Row<C>, a: int, g: int, unmarshal: Unmarshaler)
    requires Agrees(e) && e.identifier == Some(id) && e.asserted(id) == Some(NullInt64)
    requires |table| > 0 && table[0] == id
    requires row(id) == Of(Int(g))
    ensures var columns := JoinColumns(accountID, id, table, fields);
      var r := WrappedAssign(e, columns, Fill(WrappedScanValues(e, columns), JoinCells(columns, row, a)), unmarshal);
      && r.Assigned? && r.account == a && r.group == g
      && r.node == AssignAll(e, ZeroRecord(e), columns[1..], Scanned(e, columns[1..], row), unmarshal)
      && (r.node.Ok? ==> r.node.value.fields(id) == Plain(Int(g)))
  {
    var own := SpecColumns(Some(id), table, fields, []);
    var columns := JoinColumns(accountID, id, table, fields);
    IdentifierLeads(id, table, fields);
    assert columns[1..] == own;
    InnerAligned(e, columns, row, a);
    var values := [Holder(NullInt64, Of(Int(a)))] + Scanned(e, own, row);
    assert values[1..] == Scanned(e, own, row);
    assert values[1] == Holder(NullInt64, Of(Int(g)));
    AssignDecodes(e, own, row, unmarshal, Scanned(e, own, row));
  }
}
