/**
 * When exactly two laws of bulk creation hold for a hook on one of any number of builders: the done
 * mutations form a suffix, and a success leaves every node with the identifier the store gave it.
 */
module ExactLaws {
  import opened Prelude
  import opened HookChain
  import opened HookLaws
  import opened SaveLaws
  import opened Creation
  import opened CreationLaws
  import opened HookPlay

  // ----- any number of builders, a hook on one of them ----------------------------------------

  function Hooked<F, S, E>(contents: seq<F>, j: nat, h: Hook<F, S, E>): seq<Builder<F, S, E>> {
    seq(|contents|, k requires 0 <= k < |contents| => Builder(contents[k], if k == j then [h] else []))
  }

  lemma {:induction false} ChainAfter<F, S, E>(contents: seq<F>, j: nat, h: Hook<F, S, E>, i: nat)
    requires j < i <= |contents|
    ensures Chain(Hooked(contents, j, h), i) == Links(i, |contents|)
    decreases |contents| - i
  {
    if i == |contents| {
    } else {
      ChainAfter(contents, j, h, i + 1);
      assert HookFrames(Hooked(contents, j, h)[i].hooks) == [];
    }
  }

  lemma ChainAt<F, S, E>(contents: seq<F>, j: nat, h: Hook<F, S, E>)
    requires j < |contents|
    ensures Chain(Hooked(contents, j, h), j) == [HookFrame(0, h)] + Links(j, |contents|)
  {
    ChainAfter(contents, j, h, j + 1);
    assert HookFrames(Hooked(contents, j, h)[j].hooks) == [HookFrame(0, h)];
  }

  /** Links i, ..., j - 1 in front of a chain that goes on at link j. */
  function Before<F, S, E>(i: nat, j: nat, n: nat, tail: seq<Frame<F, S, E>>): (frames: seq<Frame<F, S, E>>)
    requires i <= j <= n && Ordered(tail, j, n)
    ensures Ordered(frames, i, n)
    decreases j - i
  {
    if i == j then tail else [LinkFrame(i)] + Before(i + 1, j, n, tail)
  }

  function HookTail<F, S, E>(j: nat, n: nat, h: Hook<F, S, E>): (tail: seq<Frame<F, S, E>>)
    requires j < n
    ensures Ordered(tail, j, n)
  {
    assert ([HookFrame(0, h)] + Links(j, n))[1..] == Links(j, n);
    [HookFrame(0, h)] + Links(j, n)
  }

  lemma {:induction false} ChainBefore<F, S, E>(contents: seq<F>, j: nat, h: Hook<F, S, E>, i: nat)
    requires i <= j < |contents|
    ensures Chain(Hooked(contents, j, h), i) == Before(i, j, |contents|, HookTail(j, |contents|, h))
    decreases j - i
  {
    if i == j {
      ChainAt(contents, j, h);
    } else {
      ChainBefore(contents, j, h, i + 1);
      assert HookFrames(Hooked(contents, j, h)[i].hooks) == [];
    }
  }

  /** Nothing is marked or inserted, and every builder still has the mutation it began with. */
  ghost predicate Untouched<F, S>(st: State<F, S>, contents: seq<F>) {
    && st.Valid(|contents|) && |st.objs| == |contents| && st.saved.inserts == []
    && forall k :: 0 <= k < |contents| ==> st.objs[k] == Mut(contents[k], k, false, None) && st.saved.builder[k] == k
  }

  /** The state in which link j is reached, when the checks before it pass. */
  function Reached<F, S, E>(st: State<F, S>, env: Env<F, S, E>, contents: seq<F>, i: nat, j: nat): (r: State<F, S>)
    requires i <= j < |contents| && Untouched(st, contents)
    ensures Untouched(r, contents) && r.objs == st.objs
    decreases j - i
  {
    if i == j then st else Reached(Built(i, i, st, env), env, contents, i + 1, j)
  }

  /** Earlier links stop the chain, or pass its outcome on and mark themselves on success. */
  ghost predicate PrefixDoes<F>(
    objs: seq<Mut<F>>, stopped: bool, i: nat, j: nat, ok: bool, after: seq<Mut<F>>, innerOk: bool, reached: seq<Mut<F>>)
  {
    if stopped then !ok && after == objs
    else ok == innerOk && forall k: nat :: Marked(after, k) <==> Marked(reached, k) || (innerOk && i <= k < j)
  }

  lemma PrefixStep<F>(
    objs: seq<Mut<F>>, stopped: bool, i: nat, j: nat, ok: bool, after: seq<Mut<F>>, linkedOk: bool, done: seq<Mut<F>>,
    innerOk: bool, reached: seq<Mut<F>>)
    requires i < j && PrefixDoes(objs, stopped, i + 1, j, ok, after, innerOk, reached)
    requires linkedOk == ok && (!ok ==> done == after)
    requires ok ==> forall k: nat :: Marked(done, k) <==> Marked(after, k) || k == i
    ensures PrefixDoes(objs, stopped, i, j, linkedOk, done, innerOk, reached)
  {
  }

  /** What a chain does from link i on, in terms of what its tail does from link j on. */
  ghost predicate PrefixOf<F, S, E>(
    contents: seq<F>, j: nat, tail: seq<Frame<F, S, E>>, env: Env<F, S, E>, i: nat, st: State<F, S>,
    r: Outcome<S, E>, after: State<F, S>)
    requires i <= j < |contents| && Untouched(st, contents) && Ordered(tail, j, |contents|)
    requires after.Valid(|contents|)
  {
    var (inner, reached) := Run(tail, j, Reached(st, env, contents, i, j), env, j, |contents|);
    var stopped := FirstBad(env.check, contents[i..j]).Some?;
    && PrefixDoes(st.objs, stopped, i, j, r.Ok?, after.objs, inner.Ok?, reached.objs)
    && (!stopped ==>
          && after.saved.inserts == reached.saved.inserts && after.saved.specs == reached.saved.specs
          && (r.Ok? && Completed(reached, env, j, |contents|) ==> Completed(after, env, i, |contents|)))
  }

  lemma PrefixLink<F, S, E>(
    contents: seq<F>, j: nat, tail: seq<Frame<F, S, E>>, env: Env<F, S, E>, i: nat, st: State<F, S>,
    rest: seq<Frame<F, S, E>>)
    requires i < j < |contents| && Untouched(st, contents) && env.check(contents[i]).None?
    requires Ordered(tail, j, |contents|) && Ordered(rest, i + 1, |contents|)
    requires var built := Built(i, i, st, env);
      var (r, after) := Run(rest, i + 1, built, env, i + 1, |contents|);
      PrefixOf(contents, j, tail, env, i + 1, built, r, after)
    ensures var (r, after) := RunLink(rest, i, st, env, i, |contents|);
      PrefixOf(contents, j, tail, env, i, st, r, after)
  {
    var n, built := |contents|, Built(i, i, st, env);
    var (r, after) := Run(rest, i + 1, built, env, i + 1, n);
    var (linked, done) := RunLink(rest, i, st, env, i, n);
    var (inner, reached) := Run(tail, j, Reached(st, env, contents, i, j), env, j, n);
    LinkReturns(rest, i, st, env, i, n);
    assert contents[i..j][1..] == contents[i + 1..j];
    var stopped := FirstBad(env.check, contents[i + 1..j]).Some?;
    PrefixStep(st.objs, stopped, i, j, r.Ok?, after.objs, linked.Ok?, done.objs, inner.Ok?, reached.objs);
    if !stopped && r.Ok? && Completed(reached, env, j, n) {
      LinkCompletes(rest, i, st, env, i, n);
    }
  }

  lemma {:induction false} PrefixRun<F, S, E>(
    contents: seq<F>, j: nat, tail: seq<Frame<F, S, E>>, env: Env<F, S, E>, i: nat, st: State<F, S>)
    requires i <= j < |contents| && Untouched(st, contents) && Ordered(tail, j, |contents|)
    ensures var (r, after) := Run(Before(i, j, |contents|, tail), i, st, env, i, |contents|);
      PrefixOf(contents, j, tail, env, i, st, r, after)
    decreases j - i
  {
    if i == j {
      PrefixHere(contents, j, tail, env, st);
    } else {
      var rest := Before(i + 1, j, |contents|, tail);
      assert Before(i, j, |contents|, tail) == [LinkFrame(i)] + rest;
      EnterLink(i, rest, st, env, i, |contents|);
      if env.check(contents[i]).None? {
        PrefixRun(contents, j, tail, env, i + 1, Built(i, i, st, env));
        PrefixLink(contents, j, tail, env, i, st, rest);
      } else {
        PrefixStops(contents, j, tail, env, i, st, rest);
      }
    }
  }

  lemma PrefixHere<F, S, E>(contents: seq<F>, j: nat, tail: seq<Frame<F, S, E>>, env: Env<F, S, E>, st: State<F, S>)
    requires j < |contents| && Untouched(st, contents) && Ordered(tail, j, |contents|)
    ensures var (r, after) := Run(tail, j, st, env, j, |contents|);
      PrefixOf(contents, j, tail, env, j, st, r, after)
  {
    assert contents[j..j] == [];
  }

  lemma PrefixStops<F, S, E>(
    contents: seq<F>, j: nat, tail: seq<Frame<F, S, E>>, env: Env<F, S, E>, i: nat, st: State<F, S>,
    rest: seq<Frame<F, S, E>>)
    requires i < j < |contents| && Untouched(st, contents) && env.check(contents[i]).Some?
    requires Ordered(tail, j, |contents|) && Ordered(rest, i + 1, |contents|)
    ensures var (r, after) := RunLink(rest, i, st, env, i, |contents|);
      PrefixOf(contents, j, tail, env, i, st, r, after)
  {
    assert contents[i..j][0] == contents[i];
  }

  // ----- the whole run ------------------------------------------------------------------------

  function SceneOf<F, S, E>(contents: seq<F>, j: nat, h: Hook<F, S, E>, check: F -> Option<E>, spec: F -> S)
    : Scene<F, S, E>
    requires j < |contents|
  {
    Scene(h, check, spec, j, FirstBad(check, contents[j + 1..]))
  }

  /** The hook of builder j from its first call on, when the inserts get these replies. */
  function PlayOf<F, S, E>(
    contents: seq<F>, j: nat, h: Hook<F, S, E>, check: F -> Option<E>, spec: F -> S, answers: Answers<E>)
    : (Outcome<S, E>, Stage<F, S, E>)
    requires j < |contents|
  {
    Play(SceneOf(contents, j, h, check, spec), Opening(contents[j]), answers, h.calls)
  }

  function HookStart<F, S, E>(contents: seq<F>, j: nat, h: Hook<F, S, E>, env: Env<F, S, E>): (st: State<F, S>)
    requires j < |contents|
    ensures Stands(SceneOf(contents, j, h, env.check, env.spec), Opening(contents[j]), env,
                   contents, j, st)
  {
    var start := Start(Hooked(contents, j, h));
    assert Untouched(start, contents);
    var st := Reached(start, env, contents, 0, j);
    st.(log := st.log + [Enter(0)])
  }

  /** A bulk creation whose hook plays as told. */
  ghost predicate BulkPlays<F, S, E>(
    env: Env<F, S, E>, j: nat, n: nat, told: (Outcome<S, E>, Stage<F, S, E>), run: (Outcome<S, E>, State<F, S>))
    requires run.1.Valid(n)
  {
    var (r, after) := run;
    && r.Ok? == told.0.Ok?
    && (forall k :: 0 <= k < j ==> (Marked(after.objs, k) <==> r.Ok?))
    && (forall k :: j <= k < n ==> (Marked(after.objs, k) <==> told.1.some))
    && (r.Ok? ==> (Completed(after, env, 0, n) <==> told.1.last))
  }

  /** Either an earlier check stops the creation, or it plays as its hook does. */
  lemma HookedRun<F(!new), S(!new), E(!new)>(
    contents: seq<F>, j: nat, h: Hook<F, S, E>, env: Env<F, S, E>, answers: Answers<E>)
    requires j < |contents|
    requires AsTold(env.store, answers, 0, RunBulk(Hooked(contents, j, h), env).1.saved.inserts)
    ensures var run := RunBulk(Hooked(contents, j, h), env);
      if FirstBad(env.check, contents[..j]).Some? then run.0.Err? && forall k: nat :: !Marked(run.1.objs, k)
      else BulkPlays(env, j, |contents|, PlayOf(contents, j, h, env.check, env.spec, answers), run)
  {
    var n, start, st := |contents|, Start(Hooked(contents, j, h)), HookStart(contents, j, h, env);
    ChainOrdered(Hooked(contents, j, h), 0);
    ChainBefore(contents, j, h, 0);
    PrefixRun(contents, j, HookTail(j, n, h), env, 0, start);
    assert contents[0..j] == contents[..j];
    if FirstBad(env.check, contents[..j]).None? {
      assert HookTail(j, n, h)[1..] == Links(j, n);
      var (r, after) := HookRun(h, j, st, env, [], h.calls, j, n);
      assert Run(HookTail(j, n, h), j, Reached(start, env, contents, 0, j), env, j, n) == (r, after);
      HookPlays(SceneOf(contents, j, h, env.check, env.spec), Opening(contents[j]), env,
                contents, j, st, answers, h.calls);
    }
  }

  /** The replies a run got. */
  function RepliesTo<S, E>(store: Store<S, E>, inserts: seq<seq<Option<Spec<S>>>>): (answers: Answers<E>)
    ensures AsTold(store, answers, 0, inserts)
  {
    (k: nat) => if k < |inserts| then store(inserts[..k + 1]) else Inserted(_ => None)
  }

  /** The store that gives these replies. */
  function Script<S(!new), E>(answers: Answers<E>): (store: Store<S, E>)
    ensures forall inserts :: AsTold(store, answers, 0, inserts)
  {
    (inserts: seq<seq<Option<Spec<S>>>>) => answers(if |inserts| == 0 then 0 else |inserts| - 1)
  }

  lemma Replayed<F(!new), S(!new), E(!new)>(contents: seq<F>, j: nat, h: Hook<F, S, E>, env: Env<F, S, E>)
    returns (answers: Answers<E>)
    requires j < |contents| && FirstBad(env.check, contents[..j]).None?
    ensures BulkPlays(env, j, |contents|, PlayOf(contents, j, h, env.check, env.spec, answers),
                      RunBulk(Hooked(contents, j, h), env))
  {
    answers := RepliesTo(env.store, RunBulk(Hooked(contents, j, h), env).1.saved.inserts);
    HookedRun(contents, j, h, env, answers);
  }

  // ----- done mutations form a suffix ----------------------------------------------------------

  /** The hook of builder j never reports success after nothing but failed calls. */
  ghost predicate Trustworthy<F, S, E(!new)>(
    h: Hook<F, S, E>, check: F -> Option<E>, spec: F -> S, contents: seq<F>, j: nat)
    requires j < |contents|
  {
    forall answers: Answers<E> ::
      var (r, last) := PlayOf(contents, j, h, check, spec, answers);
      r.Ok? ==> last.some
  }

  ghost predicate SuffixHolds<F, S, E>(builders: seq<Builder<F, S, E>>, env: Env<F, S, E>)
    requires builders != []
  {
    MarkedSuffix(RunBulk(builders, env).1.objs, |builders|)
  }

  /**
   * For any number of builders, any checks and a hook on builder j: whatever the store answers, the
   * done mutations form a suffix, exactly when j is the first builder, an earlier check fails, or the
   * hook never reports success after nothing but failed calls.
   */
  lemma SuffixExact<F(!new), S(!new), E(!new)>(
    contents: seq<F>, j: nat, h: Hook<F, S, E>, check: F -> Option<E>, spec: F -> S)
    requires j < |contents|
    ensures (forall store :: SuffixHolds(Hooked(contents, j, h), Env(check, spec, store)))
      <==> j == 0 || FirstBad(check, contents[..j]).Some? || Trustworthy(h, check, spec, contents, j)
  {
    if j == 0 || FirstBad(check, contents[..j]).Some? || Trustworthy(h, check, spec, contents, j) {
      forall store: Store<S, E> ensures SuffixHolds(Hooked(contents, j, h), Env(check, spec, store)) {
        SuffixKept(contents, j, h, Env(check, spec, store));
      }
    } else {
      var answers: Answers<E> :| PlayOf(contents, j, h, check, spec, answers).0.Ok?
                                 && !PlayOf(contents, j, h, check, spec, answers).1.some;
      SuffixBroken(contents, j, h, check, spec, answers);
    }
  }

  lemma SuffixKept<F(!new), S(!new), E(!new)>(contents: seq<F>, j: nat, h: Hook<F, S, E>, env: Env<F, S, E>)
    requires j < |contents|
    requires j == 0 || FirstBad(env.check, contents[..j]).Some? || Trustworthy(h, env.check, env.spec, contents, j)
    ensures SuffixHolds(Hooked(contents, j, h), env)
  {
    if FirstBad(env.check, contents[..j]).Some? {
      HookedRun(contents, j, h, env, RepliesTo(env.store, RunBulk(Hooked(contents, j, h), env).1.saved.inserts));
    } else {
      var answers := Replayed(contents, j, h, env);
    }
  }

  lemma SuffixBroken<F(!new), S(!new), E(!new)>(
    contents: seq<F>, j: nat, h: Hook<F, S, E>, check: F -> Option<E>, spec: F -> S, answers: Answers<E>)
    requires 0 < j < |contents| && FirstBad(check, contents[..j]).None?
    requires var (r, last) := PlayOf(contents, j, h, check, spec, answers); r.Ok? && !last.some
    ensures !SuffixHolds(Hooked(contents, j, h), Env(check, spec, Script(answers)))
  {
    HookedRun(contents, j, h, Env(check, spec, Script(answers)), answers);
    var objs := RunBulk(Hooked(contents, j, h), Env(check, spec, Script(answers))).1.objs;
    assert Marked(objs, 0) && !Marked(objs, j);
  }

  /** A hook that calls its successor and reports success whatever came back. */
  ghost predicate Swallows<F(!new), S(!new), E(!new)>(h: Hook<F, S, E>) {
    && h.calls == 1
    && (forall g :: h.decide(g, []) == Call(false, g))
    && (forall g, r :: h.decide(g, [r]) == Return(Ok(Other)))
  }

  /** Such a hook breaks the law on every builder but the first, whatever its own checks say. */
  lemma SwallowedError<F(!new), S(!new), E(!new)>(
    contents: seq<F>, j: nat, h: Hook<F, S, E>, check: F -> Option<E>, spec: F -> S, e: E)
    requires 0 < j < |contents| && FirstBad(check, contents[..j]).None? && Swallows(h)
    ensures exists store :: !SuffixHolds(Hooked(contents, j, h), Env(check, spec, store))
  {
    var answers: Answers<E> := _ => Rejected(false, e);
    var s, stage := SceneOf(contents, j, h, check, spec), Opening<F, S, E>(contents[j]);
    var next := AfterCall(s, stage, false, contents[j], answers);
    assert next.seen == [next.seen[0]] && !next.some;
    assert h.decide(next.f, [next.seen[0]]) == Return(Ok(Other));
    assert Play(s, next, answers, 0) == (Ok(Other), next);
    SuffixBroken(contents, j, h, check, spec, answers);
  }

  // ----- on success nodes carry the store's identifiers ----------------------------------------

  /** The hook of builder j reports success only if its last call past link j's own check was accepted. */
  ghost predicate Reliable<F, S, E(!new)>(
    h: Hook<F, S, E>, check: F -> Option<E>, spec: F -> S, contents: seq<F>, j: nat)
    requires j < |contents|
  {
    forall answers: Answers<E> ::
      var (r, last) := PlayOf(contents, j, h, check, spec, answers);
      r.Ok? ==> last.last
  }

  /**
   * On success the last insert was accepted, and every builder's node, mutation and specification hold
   * the identifier it answered.
   */
  ghost predicate IdentifiersHold<F, S, E>(builders: seq<Builder<F, S, E>>, env: Env<F, S, E>)
    requires builders != []
  {
    var (r, after) := RunBulk(builders, env);
    r.Ok? ==> Completed(after, env, 0, |builders|)
  }

  /**
   * For any number of builders, any checks and a hook on builder j: whatever the store answers, a
   * success means that all identifiers are the store's, exactly when an earlier check fails or the hook
   * never reports success unless its last call that got past link j's own check was accepted.
   */
  lemma IdentifiersExact<F(!new), S(!new), E(!new)>(
    contents: seq<F>, j: nat, h: Hook<F, S, E>, check: F -> Option<E>, spec: F -> S)
    requires j < |contents|
    ensures (forall store :: IdentifiersHold(Hooked(contents, j, h), Env(check, spec, store)))
      <==> FirstBad(check, contents[..j]).Some? || Reliable(h, check, spec, contents, j)
  {
    if FirstBad(check, contents[..j]).Some? || Reliable(h, check, spec, contents, j) {
      forall store: Store<S, E> ensures IdentifiersHold(Hooked(contents, j, h), Env(check, spec, store)) {
        IdentifiersKept(contents, j, h, Env(check, spec, store));
      }
    } else {
      var answers: Answers<E> :| PlayOf(contents, j, h, check, spec, answers).0.Ok?
                                 && !PlayOf(contents, j, h, check, spec, answers).1.last;
      HookedRun(contents, j, h, Env(check, spec, Script(answers)), answers);
      assert !IdentifiersHold(Hooked(contents, j, h), Env(check, spec, Script(answers)));
    }
  }

  lemma IdentifiersKept<F(!new), S(!new), E(!new)>(contents: seq<F>, j: nat, h: Hook<F, S, E>, env: Env<F, S, E>)
    requires j < |contents|
    requires FirstBad(env.check, contents[..j]).Some? || Reliable(h, env.check, env.spec, contents, j)
    ensures IdentifiersHold(Hooked(contents, j, h), env)
  {
    if FirstBad(env.check, contents[..j]).Some? {
      HookedRun(contents, j, h, env, RepliesTo(env.store, RunBulk(Hooked(contents, j, h), env).1.saved.inserts));
    } else {
      var answers := Replayed(contents, j, h, env);
    }
  }
}
