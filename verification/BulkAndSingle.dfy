/** How a bulk creation differs from the single ones, and a hook under which identifiers are lost. */
module BulkAndSingle {
  import opened Prelude
  import opened HookChain
  import opened HookLaws
  import opened SaveLaws
  import opened SingleLaws
  import opened Creation
  import opened CreationLaws

  // ----- where bulk and single creation differ -----------------------------------------------

  /** What one builder's save inserts. */
  function SingleInserts<F, S, E>(builder: Builder<F, S, E>, env: Env<F, S, E>): seq<seq<Option<Spec<S>>>> {
    Run(Around(builder.hooks), 0, Start([builder]), env, 0, 1).1.saved.inserts
  }

  /**
   * A bulk link checks its builder's own mutation before it takes the handed one, a single save checks
   * what it was handed.  UncheckedWrites tells when the difference shows.
   */
  lemma ReplacedMutation<F(!new), S(!new), E(!new)>(builders: seq<Builder<F, S, E>>, env: Env<F, S, E>)
    requires builders != [] && EveryHook(builders, h => CallsOnce(h))
    ensures forall j :: 0 <= j < |builders| ==>
      SingleInserts(builders[j], env) ==
        if env.check(Contents(builders)[j]).None? then [Specs(env, [Contents(builders)[j]])] else []
    ensures RunBulk(builders, env).1.saved.inserts ==
      if AllPass(env.check, KeptContents(builders)) then [Specs(env, Contents(builders))] else []
  {
    BulkExact(builders, env);
    forall j | 0 <= j < |builders|
      ensures SingleInserts(builders[j], env) ==
        if env.check(Contents(builders)[j]).None? then [Specs(env, [Contents(builders)[j]])] else []
    {
      OneSingle(builders[j], env);
    }
  }

  lemma OneSingle<F(!new), S(!new), E(!new)>(builder: Builder<F, S, E>, env: Env<F, S, E>)
    requires forall k :: 0 <= k < |builder.hooks| ==> CallsOnce(builder.hooks[k])
    ensures var handed := Edited(builder.hooks, builder.fields);
      SingleInserts(builder, env) == if env.check(handed).None? then [Specs(env, [handed])] else []
  {
    var st := Start([builder]);
    assert st.objs[0].fields == builder.fields;
    SingleExact(builder.hooks, st, env);
    assert Specs(env, [Edited(builder.hooks, builder.fields)]) ==
           [Some(Spec(env.spec(Edited(builder.hooks, builder.fields)), None))];
  }

  // ----- a success that is not the last call --------------------------------------------------

  /** A hook that calls its successor twice and hands the first outcome back. */
  ghost predicate Repeats<F(!new), S(!new), E(!new)>(h: Hook<F, S, E>) {
    && h.calls == 2
    && (forall g :: h.decide(g, []) == Call(false, g))
    && (forall g, r :: h.decide(g, [r]) == Call(false, g))
    && (forall g, r, q :: h.decide(g, [r, q]) == Return(r))
  }

  function OneLink<F, S, E>(): (link: seq<Frame<F, S, E>>)
    ensures Ordered(link, 0, 1) && link[1..] == []
  {
    [LinkFrame(0)]
  }

  predicate OneBuilder<F, S>(st: State<F, S>) {
    st.Valid(1) && |st.objs| > 0 && st.objs[0].owner == 0 && st.saved.builder == [0]
  }

  lemma OneCall<F, S, E>(st: State<F, S>, env: Env<F, S, E>)
    requires OneBuilder(st) && env.check(st.objs[0].fields).None?
    ensures var sent := st.saved.inserts + [Specs(env, [st.objs[0].fields])];
      var (r, after) := Run(OneLink(), 0, st, env, 0, 1);
      && after.saved.inserts == sent && OneBuilder(after) && after.objs[0].fields == st.objs[0].fields
      && match env.store(sent)
         case Inserted(ids) => r.Ok?
         case Rejected(_, _) => after.saved.nodes == [Some(Node(env.spec(st.objs[0].fields), 0))]
  {
    var f := st.objs[0].fields;
    assert Build(0, 0, env.spec(f), st.saved).specs == Specs(env, [f]);
    assert Build(0, 0, env.spec(f), st.saved).builder == [0];
  }

  /** A hook that hands its mutation on unchanged. */
  lemma HandsOn<F, S, E>(
    h: Hook<F, S, E>, rest: seq<Frame<F, S, E>>, st: State<F, S>, env: Env<F, S, E>, seen: seq<Outcome<S, E>>,
        left: nat)
    requires OneBuilder(st) && Ordered(rest, 0, 1) && left > 0
    requires h.decide(st.objs[0].fields, seen) == Call(false, st.objs[0].fields)
    ensures var (r, after) := Run(rest, 0, st, env, 0, 1);
      RunHook(h, 0, rest, 0, st, env, seen, left, 0, 1) ==
      RunHook(h, 0, rest, 0, after, env, seen + [r], left - 1, 0, 1)
  {
    assert st.objs[0 := st.objs[0].(fields := st.objs[0].fields)] == st.objs;
  }

  /**
   * Identifiers need hooks whose success is that of their last call: after an insert that went well
   * and one that was refused, this hook reports success, and the node has lost its identifier.
   */
  lemma RepeatedInsert<F(!new), S(!new), E(!new)>(h: Hook<F, S, E>, f: F, env: Env<F, S, E>)
    requires Repeats(h) && env.check(f).None?
    requires env.store([Specs(env, [f])]).Inserted? && env.store([Specs(env, [f]), Specs(env, [f])]).Rejected?
    ensures var (r, after) := RunBulk([Builder(f, [h])], env);
      r.Ok? && after.saved.nodes == [Some(Node(env.spec(f), 0))]
  {
    var builders := [Builder(f, [h])];
    var st := Start(builders);
    ChainOrdered(builders, 0);
    assert Chain(builders, 1) == [] && HookFrames([h]) == [HookFrame(0, h)];
    assert Chain(builders, 0) == [HookFrame(0, h)] + OneLink();
    assert Chain(builders, 0)[1..] == OneLink();
    var entered := st.(log := st.log + [Enter(0)]);
    assert entered.objs[0].fields == f && entered.saved.builder == [0] && entered.saved.inserts == [];
    assert RunBulk(builders, env) == RunHook(h, 0, OneLink(), 0, entered, env, [], 2, 0, 1);
    TwoCalls(h, f, entered, env);
  }

  lemma TwoCalls<F(!new), S(!new), E(!new)>(h: Hook<F, S, E>, f: F, st: State<F, S>, env: Env<F, S, E>)
    requires Repeats(h) && env.check(f).None? && OneBuilder(st) && st.objs[0].fields == f && st.saved.inserts == []
    requires env.store([Specs(env, [f])]).Inserted? && env.store([Specs(env, [f]), Specs(env, [f])]).Rejected?
    ensures var (r, after) := RunHook(h, 0, OneLink(), 0, st, env, [], 2, 0, 1);
      r.Ok? && after.saved.nodes == [Some(Node(env.spec(f), 0))]
  {
    var one := [Specs<F, S, E>(env, [f])];
    assert [] + one == one && one + one == [Specs(env, [f]), Specs(env, [f])];
    OneCall(st, env);
    HandsOn(h, OneLink(), st, env, [], 2);
    var (r, after) := Run(OneLink(), 0, st, env, 0, 1);
    assert [] + [r] == [r];
    OneCall(after, env);
    HandsOn(h, OneLink(), after, env, [r], 1);
    var (q, last) := Run(OneLink(), 0, after, env, 0, 1);
    assert [r] + [q] == [r, q];
    assert h.decide(last.objs[0].fields, [r, q]) == Return(r);
  }
}
