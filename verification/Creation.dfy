/**
 * AccountCreateBulk.Save and AccountCreate.Save: the loops that wrap mutators in hooks, and the
 * mutators themselves updating the creation's state in place.
 */
module Creation {
  import opened Prelude
  import opened HookChain
  import opened HookLaws
  import opened SaveLaws
  import opened SingleLaws

  datatype Builder<!F, !S, !E> = Builder(fields: F, hooks: seq<Hook<F, S, E>>)

  function HookFrames<F, S, E>(hooks: seq<Hook<F, S, E>>): seq<Frame<F, S, E>> {
    LabelledFrames(hooks, 0)
  }

  /** The mutators from builder i on: each builder's hooks around its link. */
  function Chain<F, S, E>(builders: seq<Builder<F, S, E>>, i: nat): seq<Frame<F, S, E>>
    requires i <= |builders|
    decreases |builders| - i
  {
    if i == |builders| then []
    else HookFrames(builders[i].hooks) + [LinkFrame(i)] + Chain(builders, i + 1)
  }

  /** One fresh mutation per builder, nothing built yet. */
  function Start<F, S, E>(builders: seq<Builder<F, S, E>>): (st: State<F, S>)
    ensures st.Valid(|builders|)
  {
    State(
      seq(|builders|, j requires 0 <= j < |builders| => Mut(builders[j].fields, j, false, None)),
      Saved(seq(|builders|, j => j), seq(|builders|, j => None), seq(|builders|, j => None), []),
      [])
  }

  lemma {:induction false} HooksBefore<F, S, E>(hooks: seq<Frame<F, S, E>>, rest: seq<Frame<F, S, E>>, i: nat, n: nat)
    requires forall k :: 0 <= k < |hooks| ==> hooks[k].HookFrame?
    requires i < n
    ensures Ordered(hooks + rest, i, n) == Ordered(rest, i, n)
  {
    if |hooks| > 0 {
      HooksBefore(hooks[1..], rest, i, n);
      assert (hooks + rest)[1..] == hooks[1..] + rest;
    } else {
      assert hooks + rest == rest;
    }
  }

  lemma {:induction false} ChainOrdered<F, S, E>(builders: seq<Builder<F, S, E>>, i: nat)
    requires i <= |builders|
    ensures Ordered(Chain(builders, i), i, |builders|)
    decreases |builders| - i
  {
    if i == |builders| {
    } else {
      ChainOrdered(builders, i + 1);
      var link := [LinkFrame(i)] + Chain(builders, i + 1);
      assert link[1..] == Chain(builders, i + 1);
      HooksBefore(HookFrames(builders[i].hooks), link, i, |builders|);
      assert Chain(builders, i) == HookFrames(builders[i].hooks) + link;
    }
  }

  /** A hook of a single save may be nil. */
  type Hooks<!F, !S, !E> = seq<Option<Hook<F, S, E>>>

  ghost predicate NoneNil<F, S, E>(hooks: Hooks<F, S, E>) {
    forall k :: 0 <= k < |hooks| ==> hooks[k].Some?
  }

  function Values<F, S, E>(hooks: Hooks<F, S, E>): (values: seq<Hook<F, S, E>>)
    requires NoneNil(hooks)
    ensures |values| == |hooks| && forall k :: 0 <= k < |hooks| ==> Some(values[k]) == hooks[k]
  {
    seq(|hooks|, k requires 0 <= k < |hooks| => hooks[k].value)
  }

  /** The state one creation updates; env holds the code it calls. */
  class Creator<F(!new), S(!new), E(!new)> {
    const env: Env<F, S, E>
    var objs: seq<Mut<F>>
    var saved: Saved<S>
    var log: seq<Event>

    ghost function Now(): State<F, S>
      reads this
    {
      State(objs, saved, log)
    }

    constructor (builders: seq<Builder<F, S, E>>, env: Env<F, S, E>)
      ensures Now() == Start(builders) && this.env == env
    {
      var st := Start(builders);
      this.env := env;
      objs, saved, log := st.objs, st.saved, st.log;
    }

    method Insert() returns (r: Outcome<S, E>)
      modifies this`saved
      ensures (r, saved) == HookChain.Insert(old(saved), env)
    {
      saved := saved.(inserts := saved.inserts + [saved.specs]);
      match env.store(saved.inserts)
      case Inserted(ids) =>
        saved := saved.(specs := SetIds(saved.specs, ids));
        r := Ok(Other);
      case Rejected(constraint, e) =>
        r := Err(if constraint then Constraint(e) else Refused(e));
    }

    method Finish(i: nat, m: nat)
      requires saved.Valid(|saved.nodes|) && i < |saved.nodes| && saved.nodes[i].Some? && m < |objs|
      modifies this
      ensures Now() == HookChain.Finish(i, m, old(Now()))
    {
      var node := Filled(i, saved);
      saved := saved.(nodes := saved.nodes[i := Some(node)]);
      objs := objs[m := objs[m].(id := Some(node.id), done := true)];
    }

    /** Mutate on a chain of wrappers. */
    method Mutate(frames: seq<Frame<F, S, E>>, m: nat, i: nat, n: nat) returns (r: Outcome<S, E>)
      requires Now().Valid(n) && Takes(frames, i, n)
      requires i < n ==> m < |objs| && objs[m].owner == i
      modifies this
      ensures (r, Now()) == Run(frames, m, old(Now()), env, i, n)
      decreases |frames|, 0
    {
      if |frames| == 0 {
        r := Insert();
        return;
      }
      match frames[0]
      case HookFrame(k, h) =>
        log := log + [Enter(k)];
        r := MutateHook(h, k, frames[1..], m, i, n);
      case ExecFrame =>
        r := Exec(m);
      case LinkFrame(_) =>
        r := MutateLink(frames[1..], m, i, n);
    }

    method MutateLink(rest: seq<Frame<F, S, E>>, m: nat, i: nat, n: nat) returns (r: Outcome<S, E>)
      requires Now().Valid(n) && i < n && Ordered(rest, i + 1, n)
      requires m < |objs| && objs[m].owner == i
      modifies this
      ensures (r, Now()) == RunLink(rest, m, old(Now()), env, i, n)
      decreases |rest|, 1
    {
      var checked := env.check(objs[saved.builder[i]].fields);
      if checked.Some? {
        return Err(FromCheck(checked.value));
      }
      var next := if i + 1 < n then saved.builder[i + 1] else 0;
      saved := Build(i, m, env.spec(objs[m].fields), saved);
      r := Mutate(rest, next, i + 1, n);
      if r.Err? {
        return;
      }
      Finish(i, m);
      r := Ok(ANode(saved.nodes[i].value));
    }

    method Exec(m: nat) returns (r: Outcome<S, E>)
      requires Now().Valid(1) && m < |objs| && objs[m].owner == 0
      modifies this
      ensures (r, Now()) == RunExec(m, old(Now()), env)
    {
      var own := saved.builder[0];
      objs := objs[own := objs[m]];
      log := log + [Event.Exec];
      var checked := env.check(objs[own].fields);
      if checked.Some? {
        return Err(FromCheck(checked.value));
      }
      saved := Build(0, own, env.spec(objs[own].fields), saved);
      r := Insert();
      if r.Err? {
        return;
      }
      if saved.specs[0].value.id.None? {
        return Err(NoIdentifier);
      }
      Finish(0, own);
      r := Ok(ANode(saved.nodes[0].value));
    }

    method MutateHook(h: Hook<F, S, E>, k: nat, rest: seq<Frame<F, S, E>>, m: nat, i: nat, n: nat)
        returns (r: Outcome<S, E>)
      requires Now().Valid(n) && Takes(rest, i, n)
      requires i < n && m < |objs| && objs[m].owner == i
      modifies this
      ensures (r, Now()) == RunHook(h, k, rest, m, old(Now()), env, [], h.calls, i, n)
      decreases |rest|, 1
    {
      var seen: seq<Outcome<S, E>>, left := [], h.calls;
      while h.decide(objs[m].fields, seen).Call? && left > 0
        invariant Now().Valid(n) && m < |objs| && objs[m].owner == i
        invariant RunHook(h, k, rest, m, Now(), env, seen, left, i, n) ==
          RunHook(h, k, rest, m, old(Now()), env, [], h.calls, i, n)
        decreases left
      {
        HookGoesOn(h, k, rest, m, Now(), env, seen, left, i, n);
        var step := h.decide(objs[m].fields, seen);
        var (handed, handedObjs) := Hand(m, step.renew, step.fields, objs);
        objs := handedObjs;
        var outcome := Mutate(rest, handed, i, n);
        seen, left := seen + [outcome], left - 1;
      }
      log := log + [Leave(k)];
      var last := h.decide(objs[m].fields, seen);
      r := if last.Return? then last.outcome else Err(GaveUp);
    }

    /** AccountCreateBulk.Save */
    method SaveBulk(builders: seq<Builder<F, S, E>>, preset: Option<E>)
        returns (r: Result<seq<Option<Node<S>>>, Failure<E>>)
      requires Now() == Start(builders)
      modifies this
      ensures preset.Some? ==> r == Err(Preset(preset.value)) && Now() == old(Now())
      ensures preset.None? && builders == [] ==> r == Ok([]) && Now() == old(Now())
      ensures ChainOk(builders)
      ensures preset.None? && builders != [] ==>
        var (outcome, after) := Run(Chain(builders, 0), 0, old(Now()), env, 0, |builders|);
        Now() == after && r == if outcome.Err? then Err(outcome.error) else Ok(after.saved.nodes)
    {
      ChainOrdered(builders, 0);
      if preset.Some? {
        return Err(Preset(preset.value));
      }
      var mutators: seq<Frame<F, S, E>> := [];
      for i := 0 to |builders|
        invariant Now() == old(Now()) && mutators + Chain(builders, i) == Chain(builders, 0)
      {
        var mut := WrapLink(i, builders[i].hooks);
        mutators := mutators + mut;
      }
      if |builders| > 0 {
        assert mutators == Chain(builders, 0);
        var outcome := Mutate(mutators, saved.builder[0], 0, |builders|);
        if outcome.Err? {
          return Err(outcome.error);
        }
      }
      return Ok(saved.nodes);
    }

    /**
     * withHooks around sqlSave.  A nil hook ends it before anything happens; otherwise the hooks run
     * around the exec step, the first of them outermost.
     */
    method SaveOne(hooks: Hooks<F, S, E>) returns (r: Result<Node<S>, Failure<E>>)
      requires Now().Valid(1)
      modifies this
      ensures (exists k :: 0 <= k < |hooks| && hooks[k].None?) ==> r == Err(NilHook) && Now() == old(Now())
      ensures NoneNil(hooks) ==>
        var (outcome, after) := Run(Around(Values(hooks)), old(saved).builder[0], old(Now()), env, 0, 1);
        Now() == after && r == NodeOf(outcome)
      ensures NoneNil(hooks) && (forall k :: 0 <= k < |hooks| ==> CallsOnce(hooks[k].value)) ==>
        SavedOne(env, Values(hooks), old(Now()), r, Now())
      ensures NoneNil(hooks) && (forall k :: 0 <= k < |hooks| ==> LastCounts(hooks[k].value)) && r.Ok? ==>
        Completed(Now(), env, 0, 1)
    {
      ghost var st := Now();
      if |hooks| == 0 {
        var outcome := Exec(saved.builder[0]);
        SaveOneExact(hooks, st, env);
        return NodeOf(outcome);
      }
      var mut := WrapExec(hooks);
      if mut.None? {
        return Err(NilHook);
      }
      var outcome := Mutate(mut.value, saved.builder[0], 0, 1);
      SaveOneExact(hooks, st, env);
      return NodeOf(outcome);
    }
  }

  /** The loop that wraps the link of a builder in its hooks, the last of them first. */
  method WrapLink<F, S, E>(i: nat, hooks: seq<Hook<F, S, E>>) returns (mut: seq<Frame<F, S, E>>)
    ensures mut == HookFrames(hooks) + [LinkFrame(i)]
  {
    mut := [LinkFrame(i)];
    for k := |hooks| downto 0
      invariant mut == HookFrames(hooks)[k..] + [LinkFrame(i)]
    {
      mut := [HookFrame(k, hooks[k])] + mut;
    }
  }

  /** The loop of withHooks, which stops at a nil hook. */
  method WrapExec<F, S, E>(hooks: Hooks<F, S, E>) returns (mut: Option<seq<Frame<F, S, E>>>)
    ensures mut.None? <==> exists k :: 0 <= k < |hooks| && hooks[k].None?
    ensures mut.Some? ==> NoneNil(hooks) && mut.value == Around(Values(hooks))
  {
    var frames: seq<Frame<F, S, E>> := [ExecFrame];
    for k := |hooks| downto 0
      invariant forall j :: k <= j < |hooks| ==> hooks[j].Some?
      invariant frames == LabelledFrames(Values(hooks[k..]), k) + [ExecFrame]
    {
      if hooks[k].None? {
        return None;
      }
      assert Values(hooks[k..])[1..] == Values(hooks[k + 1..]);
      frames := [HookFrame(k, hooks[k].value)] + frames;
    }
    assert hooks[0..] == hooks;
    return Some(frames);
  }

  /** A single save with hooks that call once: their order, what is inserted, and what comes back. */
  ghost predicate SavedOne<F, S, E>(
    env: Env<F, S, E>, hooks: seq<Hook<F, S, E>>, st: State<F, S>, r: Result<Node<S>, Failure<E>>,
    after: State<F, S>)
    requires st.Valid(1) && after.Valid(1)
  {
    && after.log == st.log + Enters(0, |hooks|) + [Exec] + Leaves(0, |hooks|)
    && Saves(env, Edited(hooks, st.objs[st.saved.builder[0]].fields), st, r, after)
  }

  /** What the chain of a single save does. */
  lemma SaveOneExact<F(!new), S(!new), E(!new)>(hooks: Hooks<F, S, E>, st: State<F, S>, env: Env<F, S, E>)
    requires st.Valid(1) && NoneNil(hooks)
    ensures var (outcome, after) := Run(Around(Values(hooks)), st.saved.builder[0], st, env, 0, 1);
      && ((forall k :: 0 <= k < |hooks| ==> CallsOnce(hooks[k].value)) ==>
            SavedOne(env, Values(hooks), st, NodeOf(outcome), after))
      && ((forall k :: 0 <= k < |hooks| ==> LastCounts(hooks[k].value)) && outcome.Ok? ==> Completed(after, env, 0, 1))
  {
    if forall k :: 0 <= k < |hooks| ==> CallsOnce(hooks[k].value) {
      SingleExact(Values(hooks), st, env);
    }
    if forall k :: 0 <= k < |hooks| ==> LastCounts(hooks[k].value) {
      SingleCompletes(Around(Values(hooks)), st.saved.builder[0], st, env);
    }
  }

  ghost predicate ChainOk<F, S, E>(builders: seq<Builder<F, S, E>>) {
    Ordered(Chain(builders, 0), 0, |builders|)
  }
}
