/**
 * What an account query says: the calls of its builder as changes of a value, and the specification
 * that it compiles to.
 */
module QueryView {
  import opened Prelude
  import opened Projection

  /** The lists of a query; the predicates of the four edge queries follow. */
  const ORDER := 0
  // 1: interceptors, which no builder call appends to
  const PREDICATES := 2
  const MODIFIERS := 3
  const FIELDS := 4
  const EDGES := 5
  const LISTS := 9

  /** What a query says, without its memory. */
  datatype View = View(lists: seq<seq<int>>, limit: Option<int>, offset: Option<int>, unique: Option<bool>,
                       with: seq<bool>,
                       path: bool, sql: Option<int>, table: seq<int>)

  datatype Op =
    | Where(ps: seq<int>) | OrderBy(os: seq<int>) | Select(fs: seq<int>)
    | Limit(n: int) | Offset(n: int) | Unique(b: bool)
    | With(edge: nat, ps: seq<int>) | EdgeWhere(edge: nat, ps: seq<int>)
    | Lock(postgres: bool, m: int)

  predicate Known(op: Op) {
    op.With? || op.EdgeWhere? ==> op.edge < 4
  }

  function Extended(v: View, list: nat, xs: seq<int>): View
    requires list < |v.lists|
  {
    v.(lists := v.lists[list := v.lists[list] + xs])
  }

  predicate Shaped(v: View) {
    |v.lists| == LISTS && |v.with| == 4
  }

  /** What a builder call means. */
  function Apply(v: View, op: Op): (r: View)
    requires Shaped(v) && Known(op)
    ensures Shaped(r)
  {
    match op
    case Where(ps) => Extended(v, PREDICATES, ps)
    case OrderBy(os) => Extended(v, ORDER, os)
    case Select(fs) => Extended(v, FIELDS, fs)
    case Limit(n) => v.(limit := Some(n))
    case Offset(n) => v.(offset := Some(n))
    case Unique(b) => v.(unique := Some(b))
    case With(e, ps) => v.(lists := v.lists[EDGES + e := ps], with := v.with[e := true])
    case EdgeWhere(e, ps) => if v.with[e] then Extended(v, EDGES + e, ps) else v
    case Lock(postgres, m) => Extended(if postgres then v.(unique := Some(false)) else v, MODIFIERS, [m])
  }

  function ApplyAll(v: View, ops: seq<Op>): (r: View)
    requires Shaped(v) && forall k :: 0 <= k < |ops| ==> Known(ops[k])
    ensures Shaped(r)
  {
    if ops == [] then v else Apply(ApplyAll(v, ops[..|ops| - 1]), ops[|ops| - 1])
  }

  const ID_COLUMN := 0
  const PROXY_COLUMN := 10

  datatype Spec = Spec(from: Option<int>, columns: seq<int>, unique: bool, predicates: seq<int>, limit: Option<int>,
                       offset: Option<int>, order: seq<int>, modifiers: seq<int>)

  function Compile(v: View): Spec
    requires Shaped(v)
  {
    Spec(
      v.sql,
      SpecColumns(Some(ID_COLUMN), v.table, v.lists[FIELDS], if v.with[1] then [PROXY_COLUMN] else []),
      if v.unique.Some? then v.unique.value else v.path,
      v.lists[PREDICATES], v.limit, v.offset, v.lists[ORDER], v.lists[MODIFIERS])
  }

  /** Lock modifiers are the one part a clone does not carry. */
  function Cloned(v: View): (r: View)
    requires Shaped(v)
    ensures Shaped(r)
  {
    v.(lists := v.lists[MODIFIERS := []])
  }

  /** a says what b says, with more lock modifiers in front. */
  ghost predicate MoreLocks(a: View, b: View, locks: seq<int>)
    requires Shaped(a) && Shaped(b)
  {
    a == b.(lists := b.lists[MODIFIERS := locks + b.lists[MODIFIERS]])
  }

  lemma MoreLocksStep(a: View, b: View, locks: seq<int>, op: Op)
    requires Shaped(a) && Shaped(b) && Known(op) && MoreLocks(a, b, locks)
    ensures MoreLocks(Apply(a, op), Apply(b, op), locks)
  {
    if op.Lock? {
      assert locks + b.lists[MODIFIERS] + [op.m] == locks + (b.lists[MODIFIERS] + [op.m]);
    }
    assert Apply(a, op).lists == Apply(b, op).lists[MODIFIERS := locks + Apply(b, op).lists[MODIFIERS]];
  }

  /**
   * A clone on which the same calls are made as on the query compiles to the same specification, but
   * for the lock modifiers that the query had when it was cloned.
   */
  lemma {:induction false} CloneLosesLocks(v: View, ops: seq<Op>)
    requires Shaped(v) && forall k :: 0 <= k < |ops| ==> Known(ops[k])
    ensures MoreLocks(ApplyAll(v, ops), ApplyAll(Cloned(v), ops), v.lists[MODIFIERS])
    ensures var theirs := Compile(ApplyAll(Cloned(v), ops));
      Compile(ApplyAll(v, ops)) == theirs.(modifiers := v.lists[MODIFIERS] + theirs.modifiers)
  {
    if ops == [] {
      assert v.lists[MODIFIERS] + [] == v.lists[MODIFIERS];
      assert v.lists == Cloned(v).lists[MODIFIERS := v.lists[MODIFIERS] + []];
    } else {
      var n := |ops| - 1;
      CloneLosesLocks(v, ops[..n]);
      MoreLocksStep(ApplyAll(v, ops[..n]), ApplyAll(Cloned(v), ops[..n]), v.lists[MODIFIERS], ops[n]);
    }
  }

  // ----- what a list of calls compiles to, call by call ----------------------------------------

  function LimitOf(op: Op): Option<int> {
    if op.Limit? then Some(op.n) else None
  }

  function OffsetOf(op: Op): Option<int> {
    if op.Offset? then Some(op.n) else None
  }

  /** PostgreSQL does not lock rows of a distinct selection. */
  function UniqueOf(op: Op): Option<bool> {
    match op
    case Unique(b) => Some(b)
    case Lock(true, _) => Some(false)
    case _ => None
  }

  function WhereOf(op: Op): seq<int> {
    if op.Where? then op.ps else []
  }

  function OrderOf(op: Op): seq<int> {
    if op.OrderBy? then op.os else []
  }

  function SelectOf(op: Op): seq<int> {
    if op.Select? then op.fs else []
  }

  function LockOf(op: Op): seq<int> {
    if op.Lock? then [op.m] else []
  }

  function EdgeWhereOf(e: nat): Op -> seq<int> {
    (op: Op) => if op.EdgeWhere? && op.edge == e then op.ps else []
  }

  predicate Asks(op: Op, e: nat) {
    op.With? && op.edge == e
  }

  /** Call k is the last one that sets it. */
  ghost predicate LastSetter<T>(ops: seq<Op>, sets: Op -> Option<T>, k: nat) {
    k < |ops| && sets(ops[k]).Some? && forall j :: k < j < |ops| ==> sets(ops[j]).None?
  }

  ghost predicate NeverSet<T>(ops: seq<Op>, sets: Op -> Option<T>) {
    forall k :: 0 <= k < |ops| ==> sets(ops[k]).None?
  }

  /** r is what the last call that sets it gave, and the query's own without such a call. */
  ghost predicate LastSet<T>(ops: seq<Op>, sets: Op -> Option<T>, own: Option<T>, r: Option<T>) {
    && (forall k: nat :: LastSetter(ops, sets, k) ==> r == sets(ops[k]))
    && (NeverSet(ops, sets) ==> r == own)
  }

  ghost predicate Requests(v: View, ops: seq<Op>, e: nat)
    requires Shaped(v) && e < 4
  {
    v.with[e] || exists k :: 0 <= k < |ops| && Asks(ops[k], e)
  }

  ghost predicate SettingsBecome(v: View, ops: seq<Op>, w: View) {
    && w.path == v.path && w.sql == v.sql && w.table == v.table
    && LastSet(ops, LimitOf, v.limit, w.limit) && LastSet(ops, OffsetOf, v.offset, w.offset)
    && LastSet(ops, UniqueOf, v.unique, w.unique)
  }

  ghost predicate ListsBecome(v: View, ops: seq<Op>, w: View)
    requires Shaped(v) && Shaped(w)
  {
    && w.lists[PREDICATES] == v.lists[PREDICATES] + Gathered(WhereOf, ops)
    && w.lists[ORDER] == v.lists[ORDER] + Gathered(OrderOf, ops)
    && w.lists[FIELDS] == v.lists[FIELDS] + Gathered(SelectOf, ops)
    && w.lists[MODIFIERS] == v.lists[MODIFIERS] + Gathered(LockOf, ops)
  }

  ghost predicate EdgesBecome(v: View, ops: seq<Op>, w: View)
    requires Shaped(v) && Shaped(w)
  {
    forall e: nat :: e < 4 ==> (w.with[e] <==> Requests(v, ops, e))
  }

  /** The view w that the calls make of v, but for the edge queries. */
  ghost predicate Becomes(v: View, ops: seq<Op>, w: View)
    requires Shaped(v) && Shaped(w)
  {
    SettingsBecome(v, ops, w) && ListsBecome(v, ops, w) && EdgesBecome(v, ops, w)
  }

  lemma SetterStep<T>(ops: seq<Op>, op: Op, sets: Op -> Option<T>, k: nat)
    requires LastSetter(ops + [op], sets, k)
    ensures k == |ops| || (k < |ops| && LastSetter(ops, sets, k) && sets(op).None?)
  {
    var all, n := ops + [op], |ops|;
    assert all[n] == op && forall j :: 0 <= j < n ==> all[j] == ops[j];
  }

  lemma NeverSetStep<T>(ops: seq<Op>, op: Op, sets: Op -> Option<T>)
    requires NeverSet(ops + [op], sets)
    ensures NeverSet(ops, sets) && sets(op).None?
  {
    var all, n := ops + [op], |ops|;
    assert all[n] == op && forall j :: 0 <= j < n ==> all[j] == ops[j];
  }

  lemma LastSetStep<T>(ops: seq<Op>, op: Op, sets: Op -> Option<T>, own: Option<T>, before: Option<T>)
    requires LastSet(ops, sets, own, before)
    ensures LastSet(ops + [op], sets, own, if sets(op).Some? then sets(op) else before)
  {
    forall k: nat | LastSetter(ops + [op], sets, k)
      ensures sets((ops + [op])[k]) == if sets(op).Some? then sets(op) else before
    {
      SetterStep(ops, op, sets, k);
    }
    if NeverSet(ops + [op], sets) {
      NeverSetStep(ops, op, sets);
    }
  }

  lemma RequestsStep(v: View, ops: seq<Op>, op: Op, e: nat)
    requires Shaped(v) && e < 4
    ensures Requests(v, ops + [op], e) <==> Requests(v, ops, e) || Asks(op, e)
  {
    var all, n := ops + [op], |ops|;
    assert all[n] == op && forall k :: 0 <= k < n ==> all[k] == ops[k];
  }

  lemma GatheredMore(f: Op -> seq<int>, own: seq<int>, ops: seq<Op>, op: Op)
    ensures own + Gathered(f, ops + [op]) == own + Gathered(f, ops) + f(op)
  {
    assert (ops + [op])[..|ops|] == ops;
  }

  lemma SettingsStep(v: View, ops: seq<Op>, w: View, op: Op)
    requires Shaped(w) && Known(op) && SettingsBecome(v, ops, w)
    ensures SettingsBecome(v, ops + [op], Apply(w, op))
  {
    LastSetStep(ops, op, LimitOf, v.limit, w.limit);
    LastSetStep(ops, op, OffsetOf, v.offset, w.offset);
    LastSetStep(ops, op, UniqueOf, v.unique, w.unique);
  }

  lemma ListsStep(v: View, ops: seq<Op>, w: View, op: Op)
    requires Shaped(v) && Shaped(w) && Known(op) && ListsBecome(v, ops, w)
    ensures ListsBecome(v, ops + [op], Apply(w, op))
  {
    GatheredMore(WhereOf, v.lists[PREDICATES], ops, op);
    GatheredMore(OrderOf, v.lists[ORDER], ops, op);
    GatheredMore(SelectOf, v.lists[FIELDS], ops, op);
    GatheredMore(LockOf, v.lists[MODIFIERS], ops, op);
  }

  lemma EdgesStep(v: View, ops: seq<Op>, w: View, op: Op)
    requires Shaped(v) && Shaped(w) && Known(op) && EdgesBecome(v, ops, w)
    ensures EdgesBecome(v, ops + [op], Apply(w, op))
  {
    forall e: nat | e < 4 ensures Apply(w, op).with[e] <==> Requests(v, ops + [op], e) {
      RequestsStep(v, ops, op, e);
    }
  }

  lemma BecomesStep(v: View, ops: seq<Op>, w: View, op: Op)
    requires Shaped(v) && Shaped(w) && Known(op) && Becomes(v, ops, w)
    ensures Becomes(v, ops + [op], Apply(w, op))
  {
    SettingsStep(v, ops, w, op);
    ListsStep(v, ops, w, op);
    EdgesStep(v, ops, w, op);
  }

  lemma LastCall(v: View, ops: seq<Op>)
    requires Shaped(v) && ops != [] && forall k :: 0 <= k < |ops| ==> Known(ops[k])
    ensures ApplyAll(v, ops) == Apply(ApplyAll(v, ops[..|ops| - 1]), ops[|ops| - 1])
  {
  }

  lemma {:induction false} CallsBecome(v: View, ops: seq<Op>)
    requires Shaped(v) && forall k :: 0 <= k < |ops| ==> Known(ops[k])
    ensures Becomes(v, ops, ApplyAll(v, ops))
  {
    if ops == [] {
      NothingBecomes(v);
    } else {
      var n := |ops| - 1;
      LastCall(v, ops);
      SplitLast(ops);
      CallsBecome(v, ops[..n]);
      BecomesStep(v, ops[..n], ApplyAll(v, ops[..n]), ops[n]);
    }
  }

  lemma NothingBecomes(v: View)
    requires Shaped(v)
    ensures Becomes(v, [], v)
  {
  }

  /** Call k is the last one that asks for edge e. */
  ghost predicate LastAsk(ops: seq<Op>, e: nat, k: nat) {
    k < |ops| && Asks(ops[k], e) && forall j :: k < j < |ops| ==> !Asks(ops[j], e)
  }

  ghost predicate NeverAsked(ops: seq<Op>, e: nat) {
    forall k :: 0 <= k < |ops| ==> !Asks(ops[k], e)
  }

  /** What the query of edge e holds: the arguments of its last With call and those of the calls since. */
  ghost predicate EdgeHolds(v: View, ops: seq<Op>, e: nat, held: seq<int>)
    requires Shaped(v) && e < 4
  {
    && (forall k: nat :: LastAsk(ops, e, k) ==> held == ops[k].ps + Gathered(EdgeWhereOf(e), ops[k + 1..]))
    && (NeverAsked(ops, e) ==>
          held == v.lists[EDGES + e] + if v.with[e] then Gathered(EdgeWhereOf(e), ops) else [])
  }

  /** The call changes the edge query only by asking for it anew or, once asked for, by narrowing it. */
  function HeldAfter(held: seq<int>, asked: bool, op: Op, e: nat): seq<int> {
    if Asks(op, e) then op.ps else if asked then held + EdgeWhereOf(e)(op) else held
  }

  lemma AskStep(ops: seq<Op>, op: Op, e: nat, k: nat)
    ensures LastAsk(ops + [op], e, k) <==> if k == |ops| then Asks(op, e) else LastAsk(ops, e, k) && !Asks(op, e)
    ensures NeverAsked(ops + [op], e) <==> NeverAsked(ops, e) && !Asks(op, e)
  {
    var all, n := ops + [op], |ops|;
    assert all[n] == op && forall j :: 0 <= j < n ==> all[j] == ops[j];
  }

  lemma HeldSince(ops: seq<Op>, op: Op, e: nat, k: nat, held: seq<int>)
    requires LastAsk(ops + [op], e, k)
    requires k < |ops| ==> held == ops[k].ps + Gathered(EdgeWhereOf(e), ops[k + 1..])
    ensures var all := ops + [op];
      HeldAfter(held, true, op, e) == all[k].ps + Gathered(EdgeWhereOf(e), all[k + 1..])
  {
    var all := ops + [op];
    if k < |ops| {
      assert !Asks(all[|ops|], e);
      assert all[k + 1..] == ops[k + 1..] + [op];
      GatheredMore(EdgeWhereOf(e), ops[k].ps, ops[k + 1..], op);
    }
  }

  lemma EdgeHoldsStep(v: View, ops: seq<Op>, op: Op, e: nat, held: seq<int>)
    requires Shaped(v) && e < 4 && EdgeHolds(v, ops, e, held)
    ensures EdgeHolds(v, ops + [op], e, HeldAfter(held, Requests(v, ops, e), op, e))
  {
    var all := ops + [op];
    forall k: nat | LastAsk(all, e, k)
      ensures HeldAfter(held, Requests(v, ops, e), op, e) == all[k].ps + Gathered(EdgeWhereOf(e), all[k + 1..])
    {
      AskStep(ops, op, e, k);
      HeldSince(ops, op, e, k, held);
      assert k < |ops| ==> Requests(v, ops, e);
    }
    AskStep(ops, op, e, 0);
    GatheredMore(EdgeWhereOf(e), v.lists[EDGES + e], ops, op);
    assert NeverAsked(ops, e) ==> (Requests(v, ops, e) <==> v.with[e]);
  }

  lemma AppliedEdge(w: View, op: Op, e: nat)
    requires Shaped(w) && Known(op) && e < 4
    ensures Apply(w, op).lists[EDGES + e] == HeldAfter(w.lists[EDGES + e], w.with[e], op, e)
  {
  }

  lemma EdgeStep(v: View, ops: seq<Op>, w: View, op: Op, e: nat)
    requires Shaped(v) && Shaped(w) && Known(op) && e < 4
    requires EdgeHolds(v, ops, e, w.lists[EDGES + e]) && EdgesBecome(v, ops, w)
    ensures EdgeHolds(v, ops + [op], e, Apply(w, op).lists[EDGES + e])
  {
    AppliedEdge(w, op, e);
    EdgeHoldsStep(v, ops, op, e, w.lists[EDGES + e]);
  }

  lemma {:induction false} EdgeCalls(v: View, ops: seq<Op>, e: nat)
    requires Shaped(v) && e < 4 && forall k :: 0 <= k < |ops| ==> Known(ops[k])
    ensures EdgeHolds(v, ops, e, ApplyAll(v, ops).lists[EDGES + e])
  {
    if ops == [] {
      EdgeHoldsFirst(v, e);
    } else {
      var n := |ops| - 1;
      LastCall(v, ops);
      SplitLast(ops);
      EdgeCalls(v, ops[..n], e);
      CallsBecome(v, ops[..n]);
      EdgeStep(v, ops[..n], ApplyAll(v, ops[..n]), ops[n], e);
    }
  }

  lemma EdgeHoldsFirst(v: View, e: nat)
    requires Shaped(v) && e < 4
    ensures EdgeHolds(v, [], e, v.lists[EDGES + e])
  {
    assert v.lists[EDGES + e] + [] == v.lists[EDGES + e];
  }

  /** The columns that a query for these fields reads. */
  ghost predicate Reads(table: seq<int>, fields: seq<int>, proxy: bool, columns: seq<int>) {
    if fields == [] then columns == table
    else
      && (forall c :: c in columns <==> c in fields || c == ID_COLUMN || (proxy && c == PROXY_COLUMN))
      && columns != [] && columns[0] == ID_COLUMN && ID_COLUMN !in columns[1..]
      && (ID_COLUMN !in fields ==> [ID_COLUMN] + fields <= columns)
  }

  /**
   * The specification that a query saying v compiles to after these calls: each setting is that of the
   * last call that made it, and each list is the query's own with the arguments of its calls in order.
   */
  ghost predicate Compiles(v: View, ops: seq<Op>, spec: Spec)
    requires Shaped(v)
  {
    && spec.from == v.sql
    && LastSet(ops, LimitOf, v.limit, spec.limit) && LastSet(ops, OffsetOf, v.offset, spec.offset)
    && LastSet(ops, UniqueOf, Some(if v.unique.Some? then v.unique.value else v.path), Some(spec.unique))
    && spec.predicates == v.lists[PREDICATES] + Gathered(WhereOf, ops)
    && spec.order == v.lists[ORDER] + Gathered(OrderOf, ops)
    && spec.modifiers == v.lists[MODIFIERS] + Gathered(LockOf, ops)
    && Reads(v.table, v.lists[FIELDS] + Gathered(SelectOf, ops), Requests(v, ops, 1), spec.columns)
  }

  lemma ColumnsRead(table: seq<int>, fields: seq<int>, proxy: bool)
    ensures Reads(table, fields, proxy,
                  SpecColumns(Some(ID_COLUMN), table, fields, if proxy then [PROXY_COLUMN] else []))
  {
    SpecColumnsExact(Some(ID_COLUMN), table, fields, if proxy then [PROXY_COLUMN] else []);
  }

  lemma UniqueAfter(v: View, ops: seq<Op>, w: View)
    requires Shaped(v) && LastSet(ops, UniqueOf, v.unique, w.unique) && w.path == v.path
    ensures LastSet(ops, UniqueOf, Some(if v.unique.Some? then v.unique.value else v.path),
                    Some(if w.unique.Some? then w.unique.value else w.path))
  {
  }

  lemma CompilesExact(v: View, ops: seq<Op>)
    requires Shaped(v) && forall k :: 0 <= k < |ops| ==> Known(ops[k])
    ensures Compiles(v, ops, Compile(ApplyAll(v, ops)))
  {
    var w := ApplyAll(v, ops);
    CallsBecome(v, ops);
    UniqueAfter(v, ops, w);
    ColumnsRead(w.table, w.lists[FIELDS], w.with[1]);
  }
}
