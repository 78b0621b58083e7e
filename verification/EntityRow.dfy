/**
 * Reading one row: the holders that an entity's scanValues chooses for a column list, and the record
 * that its assignValues builds from the scanned holders.  The two generated functions differ between
 * entities only in their switch statements, which a Schema holds.
 */
module EntityRow {
  import opened Prelude

  /** A Go map field. */
  datatype GoMap = NilMap | GoMap(document: string)

  datatype Value = Int(i: int) | Time(t: int) | Str(s: string) | Float(f: real) | Bool(b: bool) | Map(m: GoMap)

  /** A stored value; JSON columns store text. */
  datatype Cell = Null | Of(value: Value) | Json(text: string)

  /** The sql.Null* types, *[]byte and sql.UnknownType. */
  datatype Kind = NullInt64 | NullTime | NullString | NullFloat64 | NullBool | Bytes | UnknownType

  /** What a column is scanned into; a Null content is an invalid value. */
  datatype Holder = Holder(kind: Kind, content: Cell)

  /** A struct field: a plain value, or a pointer that may be nil. */
  datatype Field = Plain(value: Value) | Pointer(target: Option<Value>)

  /**
   * The generated tables of one entity: the switch of scanValues, the type that each case of
   * assignValues asserts (None for the default case), which fields are pointers, the zero values of
   * the others, and the field that is assigned even from an invalid holder.
   */
  datatype Schema<!C(==)> = Schema(
    scanKind: C -> Kind,
    asserted: C -> Option<Kind>,
    pointer: C -> bool,
    zero: C -> Value,
    identifier: Option<C>)

  /** Both switches agree: a holder made by scanValues passes the assertion in assignValues. */
  ghost predicate Agrees<C(!new)>(e: Schema<C>) {
    && (forall c :: e.asserted(c).Some? ==> e.asserted(c) == Some(e.scanKind(c)))
    && (e.identifier.Some? ==> !e.pointer(e.identifier.value) && e.zero(e.identifier.value) == Int(0))
  }

  /** The struct: what each field holds, and what was scanned for columns without one. */
  datatype Record<!C(==)> = Record(fields: C -> Field, selectValues: map<C, Holder>)

  datatype AssignError<C> = Mismatch(values: nat, columns: nat) | UnexpectedType(column: C) | Unmarshal(column: C)

  type Unmarshaler = string -> Option<GoMap>

  function ScanValues<C>(e: Schema<C>, columns: seq<C>): seq<Holder> {
    seq(|columns|, i requires 0 <= i < |columns| => Holder(e.scanKind(columns[i]), Null))
  }

  function FieldOf<C>(e: Schema<C>, c: C, v: Value): Field {
    if e.pointer(c) then Pointer(Some(v)) else Plain(v)
  }

  function ZeroField<C>(e: Schema<C>, c: C): Field {
    if e.pointer(c) then Pointer(None) else Plain(e.zero(c))
  }

  function Put<C>(m: Record<C>, c: C, f: Field): Record<C> {
    m.(fields := (d: C) => if d == c then f else m.fields(d))
  }

  /** One round of the loop in assignValues. */
  function AssignOne<C>(e: Schema<C>, m: Record<C>, c: C, h: Holder, unmarshal: Unmarshaler): Result<Record<C>,
      AssignError<C>> {
    if e.asserted(c).None? then Ok(m.(selectValues := m.selectValues[c := h]))
    else if e.asserted(c) != Some(h.kind) then Err(UnexpectedType(c))
    else
      match h.content
      case Null => Ok(if e.identifier == Some(c) then Put(m, c, Plain(Int(0))) else m)
      case Of(v) => Ok(Put(m, c, FieldOf(e, c, v)))
      case Json(text) =>
        if |text| == 0 then Ok(m)
        else if unmarshal(text).None? then Err(Unmarshal(c))
        else Ok(Put(m, c, FieldOf(e, c, Map(unmarshal(text).value))))
  }

  /** The record after all columns have been assigned in order. */
  function AssignAll<C>(e: Schema<C>, m: Record<C>, columns: seq<C>, values: seq<Holder>, unmarshal: Unmarshaler)
    : Result<Record<C>, AssignError<C>>
    requires |columns| <= |values|
  {
    if columns == [] then Ok(m)
    else
      var n := |columns| - 1;
      match AssignAll(e, m, columns[..n], values, unmarshal)
      case Err(err) => Err(err)
      case Ok(before) => AssignOne(e, before, columns[n], values[n], unmarshal)
  }

  lemma {:induction false} ErrorStays<C>(e: Schema<C>, m: Record<C>, columns: seq<C>, values: seq<Holder>,
                                         unmarshal: Unmarshaler, i: nat)
    requires i <= |columns| <= |values| && AssignAll(e, m, columns[..i], values, unmarshal).Err?
    ensures AssignAll(e, m, columns, values, unmarshal) == AssignAll(e, m, columns[..i], values, unmarshal)
  {
    var n := |columns| - 1;
    if i <= n {
      assert columns[..n][..i] == columns[..i];
      ErrorStays(e, m, columns[..n], values, unmarshal, i);
    } else {
      assert columns[..i] == columns;
    }
  }

  method AssignValues<C>(e: Schema<C>, m: Record<C>, columns: seq<C>, values: seq<Holder>, unmarshal: Unmarshaler)
    returns (r: Result<Record<C>, AssignError<C>>)
    ensures |values| < |columns| ==> r == Err(Mismatch(|values|, |columns|))
    ensures |columns| <= |values| ==> r == AssignAll(e, m, columns, values, unmarshal)
  {
    if |values| < |columns| {
      return Err(Mismatch(|values|, |columns|));
    }
    var record := m;
    for i := 0 to |columns|
      invariant AssignAll(e, m, columns[..i], values, unmarshal) == Ok(record)
    {
      assert columns[..i + 1][..i] == columns[..i];
      var one := AssignOne(e, record, columns[i], values[i], unmarshal);
      if one.Err? {
        ErrorStays(e, m, columns, values, unmarshal, i + 1);
        return one;
      }
      record := one.value;
    }
    assert columns[..|columns|] == columns;
    return Ok(record);
  }

  // ----- what the two functions promise together --------------------------------------------

  /** A stored row, total over the columns of the query. */
  type Row<!C> = C -> Cell

  /** Rows.Scan: the holders keep their types and take the row's values. */
  function Scanned<C>(e: Schema<C>, columns: seq<C>, row: Row<C>): seq<Holder> {
    var holders := ScanValues(e, columns);
    seq(|columns|, i requires 0 <= i < |columns| => holders[i].(content := row(columns[i])))
  }

  /** The cell's JSON text, if it is read into a field, can be decoded. */
  predicate DecodableAt<C>(e: Schema<C>, row: Row<C>, unmarshal: Unmarshaler, c: C) {
    e.asserted(c).Some? && row(c).Json? ==> row(c).text == "" || unmarshal(row(c).text).Some?
  }

  ghost predicate Decodable<C>(e: Schema<C>, columns: seq<C>, row: Row<C>, unmarshal: Unmarshaler) {
    forall c | c in columns :: DecodableAt(e, row, unmarshal, c)
  }

  /** What a cell holds: nothing when it is NULL, empty JSON, or JSON that does not decode. */
  function Content(cell: Cell, unmarshal: Unmarshaler): Option<Value> {
    match cell
    case Null => None
    case Of(v) => Some(v)
    case Json("") => None
    case Json(text) => if unmarshal(text).Some? then Some(Map(unmarshal(text).value)) else None
  }

  /** The field a cell is read back into: its content, and otherwise nil or the zero value. */
  function Reads<C>(e: Schema<C>, c: C, cell: Cell, unmarshal: Unmarshaler): Field {
    var content := Content(cell, unmarshal);
    if e.pointer(c) then Pointer(content) else Plain(if content.Some? then content.value else e.zero(c))
  }

  function ZeroRecord<C>(e: Schema<C>): Record<C> {
    Record((c: C) => ZeroField(e, c), map[])
  }

  /** The record shows each queried column in its own field, and leaves every other field zero. */
  ghost predicate Decodes<C(!new)>(e: Schema<C>, m: Record<C>, columns: seq<C>, row: Row<C>, unmarshal: Unmarshaler) {
    && (forall c :: m.fields(c) == if c in columns && e.asserted(c).Some? then Reads(e, c, row(c), unmarshal)
        else ZeroField(e, c))
    && m.selectValues == map c | c in columns && e.asserted(c).None? :: Holder(e.scanKind(c), row(c))
  }

  lemma DecodeStep<C(!new)>(e: Schema<C>, m: Record<C>, columns: seq<C>, c: C, row: Row<C>, unmarshal: Unmarshaler)
    requires Agrees(e) && Decodes(e, m, columns, row, unmarshal)
    ensures var r := AssignOne(e, m, c, Holder(e.scanKind(c), row(c)), unmarshal);
      if DecodableAt(e, row, unmarshal, c) then r.Ok? && Decodes(e, r.value, columns + [c], row, unmarshal)
      else r == Err(Unmarshal(c))
  {
  }

  /**
   * For every column list, in any order and with repeats, assigning scanned holders succeeds exactly
   * when the queried JSON texts decode, and then yields the fields of the queried columns.
   */
  lemma {:induction false} AssignDecodes<C(!new)>(
    e: Schema<C>, columns: seq<C>, row: Row<C>, unmarshal: Unmarshaler, values: seq<Holder>)
    requires Agrees(e) && Scanned(e, columns, row) <= values
    ensures var r := AssignAll(e, ZeroRecord(e), columns, values, unmarshal);
      && (r.Ok? <==> Decodable(e, columns, row, unmarshal))
      && (r.Ok? ==> Decodes(e, r.value, columns, row, unmarshal))
  {
    if columns == [] {
    } else {
      var n := |columns| - 1;
      assert Scanned(e, columns[..n], row) <= values;
      AssignDecodes(e, columns[..n], row, unmarshal, values);
      assert values[n] == Scanned(e, columns, row)[n];
      assert columns == columns[..n] + [columns[n]];
      var before := AssignAll(e, ZeroRecord(e), columns[..n], values, unmarshal);
      if before.Ok? {
        DecodeStep(e, before.value, columns[..n], columns[n], row, unmarshal);
      }
    }
  }

  /**
   * Scanned holders that decode: every queried field holds exactly the value stored in its column, or
   * the document that its JSON text encodes, and all others are nil or zero.
   */
  lemma ValuesRead<C(!new)>(e: Schema<C>, columns: seq<C>, row: Row<C>, unmarshal: Unmarshaler)
    requires Agrees(e) && Decodable(e, columns, row, unmarshal)
    ensures var r := AssignAll(e, ZeroRecord(e), columns, Scanned(e, columns, row), unmarshal);
      && r.Ok?
      && (forall c :: c in columns && e.asserted(c).Some? && row(c).Of? ==>
            r.value.fields(c) == if e.pointer(c) then Pointer(Some(row(c).value)) else Plain(row(c).value))
      && (forall c :: c in columns && e.asserted(c).Some? && row(c).Json? && row(c).text != "" ==>
            var document := Map(unmarshal(row(c).text).value);
            r.value.fields(c) == if e.pointer(c) then Pointer(Some(document)) else Plain(document))
      && (forall c :: c in columns ==> row(c) == Null || row(c) == Json("") || e.asserted(c).None? ==>
            r.value.fields(c) == if e.pointer(c) then Pointer(None) else Plain(e.zero(c)))
      && (forall c :: c !in columns ==> r.value.fields(c) == if e.pointer(c) then Pointer(None) else Plain(e.zero(c)))
  {
    AssignDecodes(e, columns, row, unmarshal, Scanned(e, columns, row));
  }

  /** The only error assignValues can report on scanned holders is a queried JSON text that does not decode. */
  lemma {:induction false} OnlyUnmarshalFails<C(!new)>(
    e: Schema<C>, m: Record<C>, columns: seq<C>, row: Row<C>, unmarshal: Unmarshaler, values: seq<Holder>)
    requires Agrees(e) && Scanned(e, columns, row) <= values
    ensures var r := AssignAll(e, m, columns, values, unmarshal);
      r.Err? ==> r.error.Unmarshal? && r.error.column in columns && !DecodableAt(e, row, unmarshal, r.error.column)
  {
    if columns == [] {
    } else {
      var n := |columns| - 1;
      assert Scanned(e, columns[..n], row) <= values;
      OnlyUnmarshalFails(e, m, columns[..n], row, unmarshal, values);
      assert columns == columns[..n] + [columns[n]];
      var before := AssignAll(e, m, columns[..n], values, unmarshal);
      if before.Ok? {
        assert values[n] == Scanned(e, columns, row)[n];
        OneFailure(e, before.value, columns[n], row, unmarshal);
      }
    }
  }

  lemma OneFailure<C(!new)>(e: Schema<C>, m: Record<C>, c: C, row: Row<C>, unmarshal: Unmarshaler)
    requires Agrees(e)
    ensures var r := AssignOne(e, m, c, Holder(e.scanKind(c), row(c)), unmarshal);
      r.Err? ==> r.error == Unmarshal(c) && !DecodableAt(e, row, unmarshal, c)
  {
  }
}
