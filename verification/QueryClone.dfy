/**
 * AccountQuery as an object whose lists are Go slices: append writes into the shared backing array
 * while capacity lasts.  Clone copies the lists, so a query and its clone never write to each other.
 */
module QueryClone {
  import opened Prelude
  import opened Projection
  import opened QueryView

  /** A slice starting at its backing array's first element; the array's length is the capacity. */
  datatype Slice = Slice(data: array<int>, len: nat)

  ghost predicate Fits(s: Slice) {
    s.len <= s.data.Length
  }

  ghost function Items(s: Slice): seq<int>
    requires Fits(s)
    reads s.data
  {
    s.data[..s.len]
  }

  /** append: in place when the capacity allows, otherwise into a new array of some larger capacity. */
  method Append(s: Slice, xs: seq<int>) returns (r: Slice)
    requires Fits(s)
    modifies s.data
    ensures Fits(r) && Items(r) == old(Items(s)) + xs && Items(s) == old(Items(s))
    ensures s.len + |xs| <= s.data.Length ==> r.data == s.data
    ensures s.len + |xs| > s.data.Length ==> fresh(r.data)
  {
    var data, n := s.data, s.len + |xs|;
    if data.Length < n {
      var capacity :| n <= capacity;
      data := new int[capacity];
      for k := 0 to s.len
        invariant data[..k] == s.data[..k]
        invariant s.data[..] == old(s.data[..])
      {
        data[k] := s.data[k];
      }
    }
    for k := 0 to |xs|
      invariant data[..s.len + k] == old(s.data[..s.len]) + xs[..k]
      invariant data != s.data ==> s.data[..] == old(s.data[..])
    {
      data[s.len + k] := xs[k];
    }
    r := Slice(data, n);
  }

  /** append([]T{}, xs...) */
  method Fresh(xs: seq<int>) returns (r: Slice)
    ensures Fits(r) && fresh(r.data) && Items(r) == xs
  {
    var empty := new int[0];
    r := Append(Slice(empty, 0), xs);
  }

  /** Two appends to one slice with spare capacity overwrite each other: copying the header is not cloning. */
  method SharedAppend(s: Slice, x: int, y: int) returns (a: Slice, b: Slice)
    requires Fits(s) && s.len < s.data.Length
    modifies s.data
    ensures Fits(a) && Items(a) == old(Items(s)) + [y]
  {
    a := Append(s, [x]);
    b := Append(s, [y]);
  }

  // ----- the builder ------------------------------------------------------------------------

  class QueryContext {
    var limit: Option<int>
    var offset: Option<int>
    var unique: Option<bool>

    constructor (limit: Option<int>, offset: Option<int>, unique: Option<bool>)
      ensures this.limit == limit && this.offset == offset && this.unique == unique
    {
      this.limit, this.offset, this.unique := limit, offset, unique;
    }
  }

  /** The lists of a query, no two of which share memory. */
  ghost predicate Separate(slices: seq<Slice>) {
    && |slices| == LISTS && (forall k :: 0 <= k < LISTS ==> Fits(slices[k]))
    && forall j, k :: 0 <= j < k < LISTS ==> slices[j].data != slices[k].data
  }

  ghost function Arrays(slices: seq<Slice>): set<object> {
    set k | 0 <= k < |slices| :: slices[k].data
  }

  ghost function AllItems(slices: seq<Slice>): (r: seq<seq<int>>)
    requires forall k :: 0 <= k < |slices| ==> Fits(slices[k])
    reads Arrays(slices)
    ensures |r| == |slices| && forall k :: 0 <= k < |slices| ==> r[k] == Items(slices[k])
  {
    if |slices| == 0 then []
    else
      var n := |slices| - 1;
      assert forall k :: 0 <= k < n ==> slices[..n][k] == slices[k];
      AllItems(slices[..n]) + [Items(slices[n])]
  }

  lemma ItemsCopied(slices: seq<Slice>, copies: seq<Slice>)
    requires |slices| == |copies| == LISTS
    requires forall k :: 0 <= k < LISTS ==> Fits(slices[k]) && Fits(copies[k])
    requires forall k :: 0 <= k < LISTS ==> Items(copies[k]) == if k == MODIFIERS then [] else Items(slices[k])
    ensures AllItems(copies) == AllItems(slices)[MODIFIERS := []]
  {
  }

  class AccountQuery {
    var ctx: QueryContext
    var slices: seq<Slice>
    var with: seq<bool>
    const path: bool
    /** The intermediate selector, which a clone copies. */
    const sql: Option<int>
    const table: seq<int>
    /** Everything a call on this query may write. */
    ghost var Repr: set<object>

    ghost predicate Valid()
      reads this, Repr
      ensures Valid() ==> this in Repr
    {
      && this in Repr && ctx in Repr
      && Separate(slices) && |with| == 4
      && (forall k :: 0 <= k < LISTS ==> slices[k].data in Repr)
    }

    ghost function Now(): (v: View)
      requires Valid()
      reads this, Repr
      ensures Shaped(v)
    {
      View(AllItems(slices), ctx.limit, ctx.offset, ctx.unique, with, path, sql, table)
    }

    constructor (ctx: QueryContext, slices: seq<Slice>, with: seq<bool>, path: bool, sql: Option<int>, table: seq<int>)
      requires Separate(slices) && |with| == 4
      ensures Valid() && fresh(Repr - {ctx} - Arrays(slices))
      ensures Now() == old(View(AllItems(slices), ctx.limit, ctx.offset, ctx.unique, with, path, sql, table))
    {
      this.ctx, this.slices, this.with, this.path, this.sql, this.table := ctx, slices, with, path, sql, table;
      Repr := {this, ctx} + Arrays(slices);
    }

    method Extend(list: nat, xs: seq<int>)
      requires Valid() && list < LISTS
      modifies this`slices, this`Repr, slices[list].data
      ensures Valid() && fresh(Repr - old(Repr))
      ensures Now() == Extended(old(Now()), list, xs)
    {
      var r := Append(slices[list], xs);
      slices := slices[list := r];
      Repr := Repr + {r.data};
    }

    /** With*: a new edge query, configured by the options. */
    method Load(edge: nat, ps: seq<int>)
      requires Valid() && edge < 4
      modifies this
      ensures Valid() && fresh(Repr - old(Repr))
      ensures Now() == Apply(old(Now()), With(edge, ps))
    {
      var configured := Fresh(ps);
      assert forall k :: 0 <= k < LISTS ==> slices[k].data != configured.data;
      slices := slices[EDGES + edge := configured];
      with := with[edge := true];
      Repr := Repr + {configured.data};
      assert AllItems(slices) == old(AllItems(slices))[EDGES + edge := ps];
    }

    method SetContext(op: Op)
      requires Valid() && (op.Limit? || op.Offset? || op.Unique?)
      modifies ctx
      ensures Valid() && Now() == Apply(old(Now()), op)
    {
      match op
      case Limit(n) => ctx.limit := Some(n);
      case Offset(n) => ctx.offset := Some(n);
      case Unique(b) => ctx.unique := Some(b);
    }

    /** Where on the edge query that With* installed. */
    method NarrowEdge(edge: nat, ps: seq<int>)
      requires Valid() && edge < 4
      modifies this`slices, this`Repr, slices[EDGES + edge].data
      ensures Valid() && fresh(Repr - old(Repr))
      ensures Now() == Apply(old(Now()), EdgeWhere(edge, ps))
    {
      if with[edge] {
        Extend(EDGES + edge, ps);
      }
    }

    /** ForUpdate and ForShare */
    method LockRows(postgres: bool, m: int)
      requires Valid()
      modifies this`slices, this`Repr, ctx, slices[MODIFIERS].data
      ensures Valid() && fresh(Repr - old(Repr))
      ensures Now() == Apply(old(Now()), Lock(postgres, m))
    {
      if postgres {
        ctx.unique := Some(false);
      }
      Extend(MODIFIERS, [m]);
    }

    /** A builder call. */
    method Do(op: Op)
      requires Valid() && Known(op)
      modifies Repr
      ensures Valid() && fresh(Repr - old(Repr))
      ensures Now() == Apply(old(Now()), op)
    {
      match op
      case Where(ps) => Extend(PREDICATES, ps);
      case OrderBy(os) => Extend(ORDER, os);
      case Select(fs) => Extend(FIELDS, fs);
      case Limit(n) => SetContext(op);
      case Offset(n) => SetContext(op);
      case Unique(b) => SetContext(op);
      case With(e, ps) => Load(e, ps);
      case EdgeWhere(e, ps) => NarrowEdge(e, ps);
      case Lock(postgres, m) => LockRows(postgres, m);
    }

    /** A copy of every list but the lock modifiers. */
    method CopyLists() returns (copies: seq<Slice>)
      requires Valid()
      ensures Separate(copies) && fresh(Arrays(copies))
      ensures AllItems(copies) == AllItems(slices)[MODIFIERS := []]
    {
      copies := [];
      for k := 0 to LISTS
        invariant |copies| == k
        invariant forall j :: 0 <= j < k ==> Fits(copies[j]) && fresh(copies[j].data)
        invariant forall i, j :: 0 <= i < j < k ==> copies[i].data != copies[j].data
        invariant forall j :: 0 <= j < k ==> Items(copies[j]) == if j == MODIFIERS then [] else Items(slices[j])
      {
        var copy := Fresh(if k == MODIFIERS then [] else slices[k].data[..slices[k].len]);
        copies := copies + [copy];
      }
      ItemsCopied(slices, copies);
    }

    /** What the parts of a query say together. */
    ghost function Together(ctx: QueryContext, slices: seq<Slice>): (v: View)
      requires Separate(slices)
      reads this, ctx, Arrays(slices)
    {
      View(AllItems(slices), ctx.limit, ctx.offset, ctx.unique, with, path, sql, table)
    }

    method CopyParts() returns (context: QueryContext, copies: seq<Slice>)
      requires Valid()
      ensures Separate(copies) && fresh(context) && fresh(Arrays(copies))
      ensures Together(context, copies) == Cloned(Now())
    {
      context := new QueryContext(ctx.limit, ctx.offset, ctx.unique);
      copies := CopyLists();
    }

    /** Clone */
    method Clone() returns (c: AccountQuery)
      requires Valid()
      ensures c.Valid() && fresh(c.Repr)
      ensures c.Now() == Cloned(Now())
    {
      var context, copies := CopyParts();
      c := new AccountQuery(context, copies, with, path, sql, table);
    }

    /** querySpec and the modifiers that sqlAll adds to it. */
    method QuerySpec() returns (spec: Spec)
      requires Valid()
      ensures spec == Compile(Now()) && Compiles(Now(), [], spec)
    {
      CompilesExact(Now(), []);
      var fields := slices[FIELDS].data[..slices[FIELDS].len];
      var columns := QuerySpecColumns(Some(ID_COLUMN), table, fields, if with[1] then [PROXY_COLUMN] else []);
      spec := Spec(
        sql,
        columns,
        if ctx.unique.Some? then ctx.unique.value else path,
        slices[PREDICATES].data[..slices[PREDICATES].len],
        ctx.limit,
        ctx.offset,
        slices[ORDER].data[..slices[ORDER].len],
        slices[MODIFIERS].data[..slices[MODIFIERS].len]);
    }
  }

  // ----- a query and its clone --------------------------------------------------------------

  /** A builder call on the original query or on its clone. */
  datatype Call = Call(original: bool, op: Op)

  ghost predicate AllKnown(calls: seq<Call>) {
    forall k :: 0 <= k < |calls| ==> Known(calls[k].op)
  }

  /** The calls made on one side. */
  function Picked(calls: seq<Call>, original: bool): (r: seq<Op>)
    ensures AllKnown(calls) ==> forall k :: 0 <= k < |r| ==> Known(r[k])
  {
    if calls == [] then []
    else
      var n := |calls| - 1;
      Picked(calls[..n], original) + if calls[n].original == original then [calls[n].op] else []
  }

  /** What a view becomes through the calls of its own side. */
  function Evolve(v: View, calls: seq<Call>, original: bool): (r: View)
    requires Shaped(v) && AllKnown(calls)
    ensures Shaped(r)
  {
    if calls == [] then v
    else
      var n := |calls| - 1;
      var before := Evolve(v, calls[..n], original);
      if calls[n].original == original then Apply(before, calls[n].op) else before
  }

  lemma {:induction false} EvolveIsApply(v: View, calls: seq<Call>, original: bool)
    requires Shaped(v) && AllKnown(calls)
    ensures Evolve(v, calls, original) == ApplyAll(v, Picked(calls, original))
  {
    if calls == [] {
    } else {
      var n := |calls| - 1;
      EvolveIsApply(v, calls[..n], original);
      var before := Picked(calls[..n], original);
      if calls[n].original == original {
        assert Picked(calls, original) == before + [calls[n].op];
        assert Picked(calls, original)[..|before|] == before;
      } else {
        assert Picked(calls, original) == before;
      }
    }
  }

  /** One call on one of the two: the other does not notice. */
  method Step(q: AccountQuery, c: AccountQuery, call: Call)
    requires q.Valid() && c.Valid() && q.Repr !! c.Repr && Known(call.op)
    modifies q.Repr, c.Repr
    ensures q.Valid() && c.Valid() && q.Repr !! c.Repr
    ensures fresh(q.Repr - old(q.Repr)) && fresh(c.Repr - old(c.Repr))
    ensures q.Now() == if call.original then Apply(old(q.Now()), call.op) else old(q.Now())
    ensures c.Now() == if !call.original then Apply(old(c.Now()), call.op) else old(c.Now())
  {
    if call.original {
      q.Do(call.op);
    } else {
      c.Do(call.op);
    }
  }

  /** Calls interleaved on two queries that share no memory. */
  method Interleave(q: AccountQuery, c: AccountQuery, calls: seq<Call>)
    requires q.Valid() && c.Valid() && q.Repr !! c.Repr && AllKnown(calls)
    modifies q.Repr, c.Repr
    ensures q.Valid() && c.Valid() && q.Repr !! c.Repr
    ensures q.Now() == Evolve(old(q.Now()), calls, true)
    ensures c.Now() == Evolve(old(c.Now()), calls, false)
  {
    for k := 0 to |calls|
      invariant q.Valid() && c.Valid() && q.Repr !! c.Repr
      invariant fresh(q.Repr - old(q.Repr)) && fresh(c.Repr - old(c.Repr))
      invariant q.Now() == Evolve(old(q.Now()), calls[..k], true)
      invariant c.Now() == Evolve(old(c.Now()), calls[..k], false)
    {
      assert calls[..k + 1][..k] == calls[..k];
      Step(q, c, calls[k]);
    }
    assert calls[..|calls|] == calls;
  }

  /** A query and its clone after any interleaving of later calls: each is what its own calls make of it. */
  method CloneAndUse(q: AccountQuery, calls: seq<Call>) returns (c: AccountQuery)
    requires q.Valid() && AllKnown(calls)
    modifies q.Repr
    ensures q.Valid() && c.Valid()
    ensures q.Now() == ApplyAll(old(q.Now()), Picked(calls, true))
    ensures c.Now() == ApplyAll(Cloned(old(q.Now())), Picked(calls, false))
  {
    EvolveIsApply(q.Now(), calls, true);
    EvolveIsApply(Cloned(q.Now()), calls, false);
    c := q.Clone();
    Interleave(q, c, calls);
  }

  method CompileTwo(q: AccountQuery, c: AccountQuery) returns (mine: Spec, theirs: Spec)
    requires q.Valid() && c.Valid()
    ensures mine == Compile(q.Now()) && theirs == Compile(c.Now())
  {
    mine := q.QuerySpec();
    theirs := c.QuerySpec();
  }

  /**
   * Each of the two compiles to the specification that it would have produced alone; after the same
   * calls on both, the clone lacks the earlier lock modifiers and nothing else.
   */
  method CompileBoth(q: AccountQuery, calls: seq<Call>) returns (mine: Spec, theirs: Spec)
    requires q.Valid() && AllKnown(calls)
    modifies q.Repr
    ensures mine == Compile(ApplyAll(old(q.Now()), Picked(calls, true)))
    ensures theirs == Compile(ApplyAll(Cloned(old(q.Now())), Picked(calls, false)))
    ensures Compiles(old(q.Now()), Picked(calls, true), mine)
    ensures Compiles(Cloned(old(q.Now())), Picked(calls, false), theirs)
    ensures Picked(calls, true) == Picked(calls, false) ==>
      mine == theirs.(modifiers := old(q.Now()).lists[MODIFIERS] + theirs.modifiers)
  {
    CloneLosesLocks(q.Now(), Picked(calls, true));
    CompilesExact(q.Now(), Picked(calls, true));
    CompilesExact(Cloned(q.Now()), Picked(calls, false));
    var c := CloneAndUse(q, calls);
    mine, theirs := CompileTwo(q, c);
  }
}
