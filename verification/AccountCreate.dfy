/**
 * Creating an account: the defaults and checks that run on a mutation, and the node and insert
 * specification that createSpec makes from it.
 */
module AccountCreate {
  import opened Prelude
  import opened EntityRow
  import opened AccountRow

  /** What the setters recorded: the fields that were set, and the identifiers of the edges. */
  datatype Mutation = Mutation(fields: map<Column, Value>, groupIDs: seq<int>, proxyID: Option<int>,
      usageLogIDs: seq<int>)

  /** Package variables: default makers that may be nil, plain defaults, and validators. */
  datatype Runtime = Runtime(
    makers: Column -> Option<Value>,
    plain: Column -> Value,
    valid: (Column, Value) -> bool)

  datatype CreateError = Uninitialized(column: Column) | Missing(column: Column) | Invalid(column: Column)

  // ----- defaults and check -----------------------------------------------------------------

  /** The fields that defaults() fills, in order; a nil maker is possible for the first four. */
  const DEFAULTED: seq<Column> := [
    CreatedAt, UpdatedAt, Credentials, Extra, Concurrency, Priority, RateMultiplier, Status,
    AutoPauseOnExpired, Schedulable]

  predicate HasMaker(c: Column) {
    c == CreatedAt || c == UpdatedAt || c == Credentials || c == Extra
  }

  /** defaults(): the mutation it leaves behind, also when it stops at a nil maker. */
  function Defaults(m: Mutation, rt: Runtime, columns: seq<Column>): (Mutation, Option<CreateError>)
    decreases columns
  {
    if columns == [] then (m, None)
    else
      var c := columns[0];
      if c in m.fields then Defaults(m, rt, columns[1..])
      else if HasMaker(c) && rt.makers(c).None? then (m, Some(Uninitialized(c)))
      else
        var v := if HasMaker(c) then rt.makers(c).value else rt.plain(c);
        Defaults(m.(fields := m.fields[c := v]), rt, columns[1..])
  }

  /** One check: the field must be set, or its validator runs on the value that is set, or both. */
  datatype Rule = Rule(column: Column, required: bool, validated: bool)

  const RULES: seq<Rule> := [
    Rule(CreatedAt, true, false), Rule(UpdatedAt, true, false), Rule(Name, true, true),
    Rule(Platform, true, true), Rule(AccountType, true, true), Rule(Credentials, true, false),
    Rule(Extra, true, false), Rule(Concurrency, true, false), Rule(Priority, true, false),
    Rule(RateMultiplier, true, false), Rule(Status, true, true), Rule(AutoPauseOnExpired, true, false),
    Rule(Schedulable, true, false), Rule(SessionWindowStatus, false, true)]

  function Violation(m: Mutation, rt: Runtime, rule: Rule): Option<CreateError> {
    if rule.required && rule.column !in m.fields then Some(Missing(rule.column))
    else if rule.validated && rule.column in m.fields && !rt.valid(rule.column, m.fields[rule.column])
    then Some(Invalid(rule.column))
    else None
  }

  function FirstViolation(m: Mutation, rt: Runtime, rules: seq<Rule>): Option<CreateError> {
    if rules == [] then None
    else if Violation(m, rt, rules[0]).Some? then Violation(m, rt, rules[0])
    else FirstViolation(m, rt, rules[1..])
  }

  /** check() */
  function Check(m: Mutation, rt: Runtime): Option<CreateError> {
    FirstViolation(m, rt, RULES)
  }

  lemma {:induction false} PassesAllRules(m: Mutation, rt: Runtime, rules: seq<Rule>)
    ensures FirstViolation(m, rt, rules).None? <==> forall rule | rule in rules :: Violation(m, rt, rule).None?
  {
    if rules == [] {
    } else {
      PassesAllRules(m, rt, rules[1..]);
      assert rules == [rules[0]] + rules[1..];
    }
  }

  /** Set fields stay, unset ones take their own default, and a default that fails leaves its field unset. */
  lemma {:induction false} DefaultsExact(m: Mutation, rt: Runtime, columns: seq<Column>)
    ensures var (after, err) := Defaults(m, rt, columns);
      && (err.Some? ==> err.value.Uninitialized? && HasMaker(err.value.column) && err.value.column !in after.fields)
      && (err.None? ==> forall c | c in columns :: c in after.fields)
      && after == m.(fields := after.fields)
      && (forall c :: c in m.fields ==> c in after.fields && after.fields[c] == m.fields[c])
      && (forall c :: c in after.fields && c !in m.fields ==>
            c in columns && Some(after.fields[c]) == if HasMaker(c) then rt.makers(c) else Some(rt.plain(c)))
    decreases columns
  {
    if columns == [] {
    } else {
      var c := columns[0];
      var v := if HasMaker(c) && rt.makers(c).Some? then rt.makers(c).value else rt.plain(c);
      DefaultsExact(if c in m.fields then m else m.(fields := m.fields[c := v]), rt, columns[1..]);
    }
  }

  /**
   * Bulk creation drops the error of defaults() and relies on check(): every default that can fail
   * leaves unset a field that check() requires.
   */
  lemma FailedDefaultsFailCheck(m: Mutation, rt: Runtime)
    requires Defaults(m, rt, DEFAULTED).1.Some?
    ensures Check(Defaults(m, rt, DEFAULTED).0, rt).Some?
  {
    DefaultsExact(m, rt, DEFAULTED);
    var (after, err) := Defaults(m, rt, DEFAULTED);
    var rule := Rule(err.value.column, true, false);
    assert rule in RULES by {
      assert RULES[0].column == CreatedAt && RULES[1].column == UpdatedAt;
      assert RULES[5].column == Credentials && RULES[6].column == Extra;
    }
    PassesAllRules(after, rt, RULES);
    assert Violation(after, rt, rule).Some?;
  }

  // ----- createSpec -------------------------------------------------------------------------

  datatype Edge = GroupsEdge(nodes: seq<int>) | ProxyEdge(nodes: seq<int>) | UsageLogsEdge(nodes: seq<int>)

  datatype CreateSpec = CreateSpec(fields: seq<(Column, Value)>, edges: seq<Edge>)

  /** The columns createSpec copies, in order: all but the identifier and the proxy edge. */
  const COPIED: seq<Column> := Filter(COLUMNS, (c: Column) => c != ID && c != ProxyID)

  function SpecFields(m: Mutation, columns: seq<Column>): seq<(Column, Value)> {
    if columns == [] then []
    else
      var c := columns[0];
      (if c in m.fields then [(c, m.fields[c])] else []) + SpecFields(m, columns[1..])
  }

  function NodeField(e: Schema<Column>, m: Mutation, copied: seq<Column>, c: Column): Field {
    if c == ProxyID && m.proxyID.Some? then Pointer(Some(Int(m.proxyID.value)))
    else if c in copied && c in m.fields then FieldOf(e, c, m.fields[c])
    else ZeroField(e, c)
  }

  function CreateNode(m: Mutation): Record<Column> {
    Record((c: Column) => NodeField(ACCOUNT, m, COPIED, c), map[])
  }

  function SpecEdges(m: Mutation): seq<Edge> {
    (if m.groupIDs != [] then [GroupsEdge(m.groupIDs)] else [])
    + (if m.proxyID.Some? then [ProxyEdge([m.proxyID.value])] else [])
    + (if m.usageLogIDs != [] then [UsageLogsEdge(m.usageLogIDs)] else [])
  }

  /** One edge per kind that has identifiers, carrying exactly those. */
  lemma EdgesExact(m: Mutation)
    ensures forall edge :: edge in SpecEdges(m) <==>
      match edge
      case GroupsEdge(nodes) => nodes == m.groupIDs && nodes != []
      case ProxyEdge(nodes) => m.proxyID.Some? && nodes == [m.proxyID.value]
      case UsageLogsEdge(nodes) => nodes == m.usageLogIDs && nodes != []
    ensures Distinct(SpecEdges(m))
  {
  }

  function SpecWith(m: Mutation, copied: seq<Column>): CreateSpec {
    CreateSpec(SpecFields(m, copied), SpecEdges(m))
  }

  function SpecOf(m: Mutation): CreateSpec {
    SpecWith(m, COPIED)
  }

  // ----- write, then read back --------------------------------------------------------------

  function Written(fields: seq<(Column, Value)>, c: Column): Option<Value> {
    if fields == [] then None
    else if fields[0].0 == c then Some(fields[0].1)
    else Written(fields[1..], c)
  }

  /** The foreign key a many-to-one edge writes into the row. */
  function ForeignKey(edges: seq<Edge>): Option<int> {
    if edges == [] then None
    else if edges[0].ProxyEdge? && edges[0].nodes != [] then Some(edges[0].nodes[0])
    else ForeignKey(edges[1..])
  }

  function Store(v: Value, marshal: GoMap -> string): Cell {
    if v.Map? then Json(marshal(v.m)) else Of(v)
  }

  function StoredCell(fields: seq<(Column, Value)>, proxy: Option<int>, id: int, c: Column,
      marshal: GoMap -> string): Cell {
    if c == ID then Of(Int(id))
    else if c == ProxyID then (if proxy.Some? then Of(Int(proxy.value)) else Null)
    else if Written(fields, c).Some? then Store(Written(fields, c).value, marshal)
    else Null
  }

  /** The row the store holds for a specification: what was written, and NULL elsewhere. */
  function StoredRow(spec: CreateSpec, id: int, marshal: GoMap -> string): Row<Column> {
    (c: Column) => StoredCell(spec.fields, ForeignKey(spec.edges), id, c, marshal)
  }

  lemma {:induction false} WrittenIs(m: Mutation, columns: seq<Column>, c: Column)
    ensures Written(SpecFields(m, columns), c) == if c in columns && c in m.fields then Some(m.fields[c]) else None
  {
    if columns == [] {
    } else {
      WrittenIs(m, columns[1..], c);
      assert columns == [columns[0]] + columns[1..];
      var (c0, rest) := (columns[0], SpecFields(m, columns[1..]));
      if c0 in m.fields {
        assert SpecFields(m, columns)[1..] == rest;
      } else {
        assert SpecFields(m, columns) == rest;
      }
    }
  }

  lemma ProxyWritten(m: Mutation)
    ensures ForeignKey(SpecEdges(m)) == m.proxyID
  {
    var edges := SpecEdges(m);
    var logs := if m.usageLogIDs != [] then [UsageLogsEdge(m.usageLogIDs)] else [];
    var rest := (if m.proxyID.Some? then [ProxyEdge([m.proxyID.value])] else []) + logs;
    assert ForeignKey(logs) == None;
    assert m.proxyID.None? ==> rest == logs;
    assert ForeignKey(rest) == m.proxyID;
    assert edges == (if m.groupIDs != [] then [GroupsEdge(m.groupIDs)] else []) + rest;
    assert edges[|edges| - |rest|..] == rest;
  }

  lemma CopiedIs(c: Column)
    ensures c in COPIED <==> !c.Other? && c != ID && c != ProxyID
  {
    FilterMembers(COLUMNS, (c: Column) => c != ID && c != ProxyID);
    if c in COLUMNS {
      OnlyKnown(c);
    } else if !c.Other? {
      InTable(c);
    }
  }

  /** The cell the row holds in column c. */
  function CellFor(m: Mutation, copied: seq<Column>, id: int, c: Column, marshal: GoMap -> string): Cell {
    if c == ID then Of(Int(id))
    else if c == ProxyID then (if m.proxyID.Some? then Of(Int(m.proxyID.value)) else Null)
    else if c in copied && c in m.fields then Store(m.fields[c], marshal)
    else Null
  }

  lemma RowIs(m: Mutation, copied: seq<Column>, id: int, c: Column, marshal: GoMap -> string)
    ensures StoredRow(SpecWith(m, copied), id, marshal)(c) == CellFor(m, copied, id, c, marshal)
  {
    ProxyWritten(m);
    WrittenIs(m, copied, c);
  }

  /** One column, written and read. */
  lemma ReadsBack(e: Schema<Column>, m: Mutation, copied: seq<Column>, id: int, c: Column,
                  marshal: GoMap -> string, unmarshal: Unmarshaler)
    requires forall doc :: marshal(doc) != "" && unmarshal(marshal(doc)) == Some(doc)
    requires !e.pointer(ID) && e.pointer(ProxyID)
    requires ID !in copied && ProxyID !in copied
    ensures Reads(e, c, CellFor(m, copied, id, c, marshal), unmarshal) ==
      if c == ID then Plain(Int(id)) else NodeField(e, m, copied, c)
  {
  }

  /** All columns of any table, written and read. */
  lemma TableReadsBack(e: Schema<Column>, columns: seq<Column>, m: Mutation, copied: seq<Column>, id: int,
      row: Row<Column>,
                       marshal: GoMap -> string, unmarshal: Unmarshaler)
    requires forall doc :: marshal(doc) != "" && unmarshal(marshal(doc)) == Some(doc)
    requires Agrees(e) && !e.pointer(ID) && e.pointer(ProxyID)
    requires ID !in copied && ProxyID !in copied
    requires forall c | c in columns :: e.asserted(c).Some?
    requires forall c :: row(c) == CellFor(m, copied, id, c, marshal)
    ensures var r := AssignAll(e, ZeroRecord(e), columns, Scanned(e, columns, row), unmarshal);
      && r.Ok? && r.value.selectValues == map[]
      && (forall c | c in columns ::
           r.value.fields(c) == if c == ID then Plain(Int(id)) else NodeField(e, m, copied, c))
  {
    assert Decodable(e, columns, row, unmarshal);
    AssignDecodes(e, columns, row, unmarshal, Scanned(e, columns, row));
    var r := AssignAll(e, ZeroRecord(e), columns, Scanned(e, columns, row), unmarshal);
    forall c | c in columns
      ensures r.value.fields(c) == if c == ID then Plain(Int(id)) else NodeField(e, m, copied, c)
    {
      ReadsBack(e, m, copied, id, c, marshal, unmarshal);
    }
  }

  /**
   * Field c of the account that was created from m and read back: the value that was set, as it is, and
   * otherwise nil or the zero value.
   */
  ghost predicate ShowsColumn(m: Mutation, id: int, c: Column, f: Field) {
    if c == ID then f == Plain(Int(id))
    else if c == ProxyID then f == Pointer(if m.proxyID.Some? then Some(Int(m.proxyID.value)) else None)
    else if c in m.fields then f == (if IsPointer(c) then Pointer(Some(m.fields[c])) else Plain(m.fields[c]))
    else f == if IsPointer(c) then Pointer(None) else Plain(ZeroOf(c))
  }

  lemma NodeShows(m: Mutation, copied: seq<Column>, id: int, c: Column)
    requires (c == ID || c == ProxyID || c in copied) && ID !in copied && ProxyID !in copied
    ensures ShowsColumn(m, id, c, if c == ID then Plain(Int(id)) else NodeField(ACCOUNT, m, copied, c))
    ensures ShowsColumn(m, 0, c, NodeField(ACCOUNT, m, copied, c))
  {
  }

  lemma RowsAre(m: Mutation, copied: seq<Column>, id: int, marshal: GoMap -> string)
    ensures forall c :: StoredRow(SpecWith(m, copied), id, marshal)(c) == CellFor(m, copied, id, c, marshal)
  {
    forall c ensures StoredRow(SpecWith(m, copied), id, marshal)(c) == CellFor(m, copied, id, c, marshal) {
      RowIs(m, copied, id, c, marshal);
    }
  }

  /**
   * Round trip: reading back every column of the row that createSpec describes gives the node that
   * createSpec returned, with the assigned identifier.
   */
  lemma WriteThenRead(m: Mutation, id: int, marshal: GoMap -> string, unmarshal: Unmarshaler)
    requires forall doc :: marshal(doc) != "" && unmarshal(marshal(doc)) == Some(doc)
    ensures var row := StoredRow(SpecOf(m), id, marshal);
      var r := AssignAll(ACCOUNT, ZeroRecord(ACCOUNT), COLUMNS, Scanned(ACCOUNT, COLUMNS, row), unmarshal);
      && r.Ok? && (forall c | c in COLUMNS ::
           r.value.fields(c) == if c == ID then Plain(Int(id)) else CreateNode(m).fields(c))
      && r.value.selectValues == CreateNode(m).selectValues
      && (forall c | c in COLUMNS ::
           ShowsColumn(m, id, c, r.value.fields(c)) && ShowsColumn(m, 0, c, CreateNode(m).fields(c)))
  {
    AccountAgrees();
    TableAsserted();
    CopiedIs(ID);
    CopiedIs(ProxyID);
    RowsAre(m, COPIED, id, marshal);
    TableReadsBack(ACCOUNT, COLUMNS, m, COPIED, id, StoredRow(SpecOf(m), id, marshal), marshal, unmarshal);
    NodesShow(m, id);
  }

  lemma NodesShow(m: Mutation, id: int)
    ensures forall c | c in COLUMNS ::
      && ShowsColumn(m, id, c, if c == ID then Plain(Int(id)) else NodeField(ACCOUNT, m, COPIED, c))
      && ShowsColumn(m, 0, c, NodeField(ACCOUNT, m, COPIED, c))
  {
    CopiedIs(ID);
    CopiedIs(ProxyID);
    forall c | c in COLUMNS
      ensures ShowsColumn(m, id, c, if c == ID then Plain(Int(id)) else NodeField(ACCOUNT, m, COPIED, c))
          && ShowsColumn(m, 0, c, NodeField(ACCOUNT, m, COPIED, c))
    {
      OnlyKnown(c);
      CopiedIs(c);
      NodeShows(m, COPIED, id, c);
    }
  }
}
