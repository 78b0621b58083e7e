/**
 * Mutators wrapped in hooks, as account_create.go and withHooks build them.  A chain is the list of
 * wrappers still to be entered: user hooks, the links of a bulk creation, or the exec step of a single
 * one.  Running past the last link performs the batch insert.
 */
module HookChain {
  import opened Prelude

  /** A mutation object: its contents, the builder it was made for, and what a finished save records. */
  datatype Mut<F> = Mut(fields: F, owner: nat, done: bool, id: Option<int>)

  datatype Node<S> = Node(spec: S, id: int)

  /** A CreateSpec; the store fills in the identifier, which stays nil when it assigned none. */
  datatype Spec<S> = Spec(content: S, id: Option<int>)

  datatype Failure<E> =
    | FromHook(error: E) | FromCheck(error: E) | Refused(error: E) | Constraint(error: E)
    | GaveUp | NoIdentifier | WrongValue | NilHook | Preset(error: E)

  /** What Mutate returns: a node, or a value of another type that a hook made up. */
  datatype Value<S> = ANode(node: Node<S>) | Other

  type Outcome<S, E> = Result<Value<S>, Failure<E>>

  /** A hook's next step: return, or call its successor with the given object or a new one. */
  datatype Move<F, S, E> = Return(outcome: Outcome<S, E>) | Call(renew: bool, fields: F)

  /**
   * A hook decides from the mutation it was given and from what its calls returned so far.  It makes
   * at most `calls` calls.
   */
  datatype Hook<!F, !S, !E> = Hook(calls: nat, decide: (F, seq<Outcome<S, E>>) -> Move<F, S, E>)

  datatype Frame<!F, !S, !E> = HookFrame(k: nat, hook: Hook<F, S, E>) | LinkFrame(i: nat) | ExecFrame

  datatype Reply<!E> = Inserted(ids: nat -> Option<int>) | Rejected(constraint: bool, error: E)

  /** Validation, createSpec, and the store, whose answer may depend on every insert so far. */
  datatype Env<!F, !S, !E> = Env(check: F -> Option<E>, spec: F -> S, store: seq<seq<Option<Spec<S>>>> -> Reply<E>)

  datatype Event = Enter(k: nat) | Leave(k: nat) | Exec

  /**
   * What a creation has built: builder[i] is the mutation object of builder i; inserts lists the arguments of
   * every insert.
   */
  datatype Saved<S> = Saved(
    builder: seq<nat>,
    nodes: seq<Option<Node<S>>>,
    specs: seq<Option<Spec<S>>>,
    inserts: seq<seq<Option<Spec<S>>>>)
  {
    predicate Valid(n: nat) {
      |builder| == |nodes| == |specs| == n
    }
  }

  datatype State<F, S> = State(objs: seq<Mut<F>>, saved: Saved<S>, log: seq<Event>)
  {
    predicate Valid(n: nat) {
      saved.Valid(n) && Owns(objs, saved.builder)
    }
  }

  predicate Owns<F>(objs: seq<Mut<F>>, builder: seq<nat>) {
    forall i :: 0 <= i < |builder| ==> builder[i] < |objs| && objs[builder[i]].owner == i
  }

  /** The chain passes links i, i + 1, ..., n - 1 in order, and then inserts. */
  predicate Ordered<F, S, E>(frames: seq<Frame<F, S, E>>, i: nat, n: nat) {
    if |frames| == 0 then i == n
    else if frames[0].HookFrame? then i < n && Ordered(frames[1..], i, n)
    else frames[0].LinkFrame? && frames[0].i == i < n && Ordered(frames[1..], i + 1, n)
  }

  /** Hooks around the exec step of a single save. */
  predicate Single<F, S, E>(frames: seq<Frame<F, S, E>>) {
    |frames| > 0 && if frames[0].HookFrame? then Single(frames[1..]) else frames[0].ExecFrame? && |frames| == 1
  }

  /** The builder whose mutation a chain takes. */
  predicate Takes<F, S, E>(frames: seq<Frame<F, S, E>>, i: nat, n: nat) {
    Ordered(frames, i, n) || (Single(frames) && i == 0 && n == 1)
  }

  function SetIds<S>(specs: seq<Option<Spec<S>>>, ids: nat -> Option<int>): seq<Option<Spec<S>>> {
    seq(|specs|, j requires 0 <= j < |specs| =>
      if specs[j].Some? then Some(specs[j].value.(id := ids(j))) else None)
  }

  /** BatchCreate, or CreateNode for a single specification. */
  function Insert<F, S, E>(saved: Saved<S>, env: Env<F, S, E>): (Outcome<S, E>, Saved<S>) {
    var sent := saved.(inserts := saved.inserts + [saved.specs]);
    match env.store(sent.inserts)
    case Inserted(ids) => (Ok(Other), sent.(specs := SetIds(saved.specs, ids)))
    case Rejected(constraint, e) => (Err(if constraint then Constraint(e) else Refused(e)), sent)
  }

  /** builder.mutation = mutation; nodes[i], specs[i] = builder.createSpec() */
  function Build<S>(i: nat, m: nat, s: S, saved: Saved<S>): Saved<S>
    requires saved.Valid(|saved.nodes|) && i < |saved.nodes|
  {
    saved.(builder := saved.builder[i := m], nodes := saved.nodes[i := Some(Node(s, 0))],
        specs := saved.specs[i := Some(Spec(s, None))])
  }

  /** The node once the successor returned: it takes the identifier the store put in its specification. */
  function Filled<S>(i: nat, saved: Saved<S>): Node<S>
    requires saved.Valid(|saved.nodes|) && i < |saved.nodes| && saved.nodes[i].Some?
  {
    var node := saved.nodes[i].value;
    if saved.specs[i].Some? && saved.specs[i].value.id.Some? then node.(id := saved.specs[i].value.id.value) else node
  }

  /** The back-fill: the node's identifier, and the mutation's id and done. */
  function Finish<F, S>(i: nat, m: nat, st: State<F, S>): State<F, S>
    requires st.saved.Valid(|st.saved.nodes|) && i < |st.saved.nodes| && st.saved.nodes[i].Some? && m < |st.objs|
  {
    var node := Filled(i, st.saved);
    st.(saved := st.saved.(nodes := st.saved.nodes[i := Some(node)]),
        objs := st.objs[m := st.objs[m].(done := true, id := Some(node.id))])
  }

  function Hand<F>(m: nat, renew: bool, fields: F, objs: seq<Mut<F>>): (nat, seq<Mut<F>>)
    requires m < |objs|
  {
    if renew then (|objs|, objs + [Mut(fields, objs[m].owner, false, None)])
    else (m, objs[m := objs[m].(fields := fields)])
  }

  /** Objects are only added, and keep their builder. */
  ghost predicate Extends<F>(objs: seq<Mut<F>>, after: seq<Mut<F>>) {
    |objs| <= |after| && forall j :: 0 <= j < |objs| ==> after[j].owner == objs[j].owner
  }

  /** Nodes and inserts are never taken back. */
  ghost predicate Grows<S>(saved: Saved<S>, after: Saved<S>) {
    && |saved.nodes| == |after.nodes| && saved.inserts <= after.inserts
    && (forall j :: 0 <= j < |saved.nodes| && saved.nodes[j].Some? ==> after.nodes[j].Some?)
  }

  /** Mutate on the chain, given mutation object m. */
  function Run<F, S, E>(frames: seq<Frame<F, S, E>>, m: nat, st: State<F, S>, env: Env<F, S, E>, i: nat, n: nat)
    : (r: (Outcome<S, E>, State<F, S>))
    requires st.Valid(n) && Takes(frames, i, n)
    requires i < n ==> m < |st.objs| && st.objs[m].owner == i
    ensures r.1.Valid(n) && Extends(st.objs, r.1.objs) && Grows(st.saved, r.1.saved)
    decreases |frames|, 0
  {
    if |frames| == 0 then
      var (r, saved) := Insert(st.saved, env);
      (r, st.(saved := saved))
    else
      match frames[0]
      case HookFrame(k, h) => RunHook(h, k, frames[1..], m, st.(log := st.log + [Enter(k)]), env, [], h.calls, i, n)
      case ExecFrame => RunExec(m, st, env)
      case LinkFrame(_) => RunLink(frames[1..], m, st, env, i, n)
  }

  /** Link i of a bulk creation: check its own mutation, take over the handed one, call the next mutator. */
  function RunLink<F, S, E>(rest: seq<Frame<F, S, E>>, m: nat, st: State<F, S>, env: Env<F, S, E>, i: nat, n: nat)
    : (r: (Outcome<S, E>, State<F, S>))
    requires st.Valid(n) && i < n && Ordered(rest, i + 1, n)
    requires m < |st.objs| && st.objs[m].owner == i
    ensures r.1.Valid(n) && Extends(st.objs, r.1.objs) && Grows(st.saved, r.1.saved)
    decreases |rest|, 1
  {
    var checked := env.check(st.objs[st.saved.builder[i]].fields);
    if checked.Some? then (Err(FromCheck(checked.value)), st)
    else
      var built := st.(saved := Build(i, m, env.spec(st.objs[m].fields), st.saved));
      var (r, after) := Run(rest, if i + 1 < n then st.saved.builder[i + 1] else 0, built, env, i + 1, n);
      if r.Err? then (r, after)
      else (Ok(ANode(Filled(i, after.saved))), Finish(i, m, after))
  }

  /** The exec step: the handed mutation is copied into the builder's own, checked and inserted. */
  function RunExec<F, S, E>(m: nat, st: State<F, S>, env: Env<F, S, E>): (r: (Outcome<S, E>, State<F, S>))
    requires st.Valid(1) && m < |st.objs| && st.objs[m].owner == 0
    ensures r.1.Valid(1) && Extends(st.objs, r.1.objs) && Grows(st.saved, r.1.saved)
  {
    var own := st.saved.builder[0];
    var copied := st.(objs := st.objs[own := st.objs[m]], log := st.log + [Exec]);
    var checked := env.check(copied.objs[own].fields);
    if checked.Some? then (Err(FromCheck(checked.value)), copied)
    else
      var (r, saved) := Insert(Build(0, own, env.spec(copied.objs[own].fields), copied.saved), env);
      var after := copied.(saved := saved);
      if r.Err? then (r, after)
      else if saved.specs[0].value.id.None? then (Err(NoIdentifier), after)
      else (Ok(ANode(Filled(0, saved))), Finish(0, own, after))
  }

  /** The rest of a hook's run, after its calls returned `seen`. */
  function RunHook<F, S, E>(
    h: Hook<F, S, E>, k: nat, rest: seq<Frame<F, S, E>>, m: nat, st: State<F, S>, env: Env<F, S, E>,
    seen: seq<Outcome<S, E>>, left: nat, i: nat, n: nat)
    : (r: (Outcome<S, E>, State<F, S>))
    requires st.Valid(n) && Takes(rest, i, n)
    requires i < n && m < |st.objs| && st.objs[m].owner == i
    ensures r.1.Valid(n) && Extends(st.objs, r.1.objs) && Grows(st.saved, r.1.saved)
    decreases |rest|, 1 + left
  {
    var leaving := st.(log := st.log + [Leave(k)]);
    match h.decide(st.objs[m].fields, seen)
    case Return(r) => (r, leaving)
    case Call(renew, fields) =>
      if left == 0 then (Err(GaveUp), leaving)
      else
        var (handed, objs) := Hand(m, renew, fields, st.objs);
        var (r, after) := Run(rest, handed, st.(objs := objs), env, i, n);
        RunHook(h, k, rest, m, after, env, seen + [r], left - 1, i, n)
  }

  /** After one more call the hook's run goes on from where that call left the state. */
  lemma HookGoesOn<F, S, E>(
    h: Hook<F, S, E>, k: nat, rest: seq<Frame<F, S, E>>, m: nat, st: State<F, S>, env: Env<F, S, E>,
    seen: seq<Outcome<S, E>>, left: nat, i: nat, n: nat)
    requires st.Valid(n) && Takes(rest, i, n) && i < n && m < |st.objs| && st.objs[m].owner == i
    requires h.decide(st.objs[m].fields, seen).Call? && left > 0
    ensures var move := h.decide(st.objs[m].fields, seen);
      var (handed, objs) := Hand(m, move.renew, move.fields, st.objs);
      var (r, after) := Run(rest, handed, st.(objs := objs), env, i, n);
      RunHook(h, k, rest, m, st, env, seen, left, i, n) ==
      RunHook(h, k, rest, m, after, env, seen + [r], left - 1, i, n)
  {
  }
}
