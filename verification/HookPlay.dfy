/**
 * One hook around link j of a chain that has no other hooks.  What its run does follows from the
 * hook's decisions, the checks and the answers of the store, which a play goes through.
 */
module HookPlay {
  import opened Prelude
  import opened HookChain
  import opened HookLaws
  import opened SaveLaws

  type Store<!S, !E> = seq<seq<Option<Spec<S>>>> -> Reply<E>

  // ----- links without hooks ------------------------------------------------------------------

  function Links<F, S, E>(i: nat, n: nat): (links: seq<Frame<F, S, E>>)
    requires i <= n
    ensures Ordered(links, i, n) && forall k :: 0 <= k < |links| ==> links[k].LinkFrame?
    decreases n - i
  {
    if i == n then [] else [LinkFrame(i)] + Links(i + 1, n)
  }

  /** The first failing check among the own mutations of builders i, i + 1, ... */
  function BadFrom<F, S, E>(st: State<F, S>, check: F -> Option<E>, i: nat): Option<E>
    requires st.Valid(|st.saved.builder|) && i <= |st.saved.builder|
    decreases |st.saved.builder| - i
  {
    if i == |st.saved.builder| then None
    else
      var e := check(st.objs[st.saved.builder[i]].fields);
      if e.Some? then e else BadFrom(st, check, i + 1)
  }

  ghost predicate SameContents<F>(objs: seq<Mut<F>>, after: seq<Mut<F>>) {
    |after| == |objs| && forall o :: 0 <= o < |objs| ==>
      after[o].fields == objs[o].fields && after[o].owner == objs[o].owner
  }

  /** The answers of the store decide when every check passes. */
  ghost predicate Decided<F, S, E>(
    objs: seq<Mut<F>>, inserts: seq<seq<Option<Spec<S>>>>, env: Env<F, S, E>, i: nat, n: nat,
    r: Outcome<S, E>, after: State<F, S>)
  {
    && |after.saved.inserts| == |inserts| + 1
    && match env.store(after.saved.inserts)
       case Rejected(constraint, e) => r == Err(if constraint then Constraint(e) else Refused(e)) && after.objs == objs
       case Inserted(_) =>
         && r.Ok? && SameContents(objs, after.objs)
         && forall k: nat :: Marked(after.objs, k) <==> Marked(objs, k) || i <= k < n
  }

  ghost predicate BareDoes<F, S, E>(
    st: State<F, S>, m: nat, env: Env<F, S, E>, bad: Option<E>, i: nat, n: nat, r: Outcome<S, E>, after: State<F, S>)
  {
    if bad.Some? then r == Err(FromCheck(bad.value)) && after.objs == st.objs && after.saved.inserts == st.saved.inserts
    else Decided(st.objs, st.saved.inserts, env, i, n, r, after)
  }

  lemma BadAfterBuild<F, S, E>(st: State<F, S>, env: Env<F, S, E>, i: nat, m: nat, n: nat, k: nat)
    requires st.Valid(n) && i < k <= n && m < |st.objs| && st.objs[m].owner == i
    ensures BadFrom(Built(i, m, st, env), env.check, k) == BadFrom(st, env.check, k)
    decreases n - k
  {
    if k == n {
    } else {
      BadAfterBuild(st, env, i, m, n, k + 1);
    }
  }

  lemma EnterLink<F, S, E>(m: nat, rest: seq<Frame<F, S, E>>, st: State<F, S>, env: Env<F, S, E>, i: nat, n: nat)
    requires st.Valid(n) && i < n && Ordered(rest, i + 1, n) && m < |st.objs| && st.objs[m].owner == i
    ensures Ordered([LinkFrame(i)] + rest, i, n)
    ensures Run([LinkFrame(i)] + rest, m, st, env, i, n) == RunLink(rest, m, st, env, i, n)
  {
    assert ([LinkFrame(i)] + rest)[1..] == rest;
  }

  /** A chain of links without hooks, entered with mutation m: all or nothing. */
  lemma {:induction false} BareRun<F, S, E>(m: nat, st: State<F, S>, env: Env<F, S, E>, i: nat, n: nat)
    requires st.Valid(n) && i <= n
    requires i < n ==> m < |st.objs| && st.objs[m].owner == i
    ensures var (r, after) := Run(Links(i, n), m, st, env, i, n);
      && BareDoes(st, m, env, BadFrom(st, env.check, i), i, n, r, after)
      && after.saved.builder ==
           if i < n && env.check(st.objs[st.saved.builder[i]].fields).None? then st.saved.builder[i := m]
               else st.saved.builder
    decreases n - i
  {
    if i == n {
    } else {
      EnterLink(m, Links(i + 1, n), st, env, i, n);
      if env.check(st.objs[st.saved.builder[i]].fields).None? {
        BareLink(m, st, env, i, n);
      }
    }
  }

  lemma FinishedMarks<F, S>(i: nat, m: nat, st: State<F, S>, n: nat)
    requires st.Valid(n) && i < n && m < |st.objs| && st.objs[m].owner == i && st.saved.nodes[i].Some?
    ensures SameContents(st.objs, Finish(i, m, st).objs)
    ensures forall k: nat :: Marked(Finish(i, m, st).objs, k) <==> Marked(st.objs, k) || k == i
  {
    forall k: nat ensures Marked(Finish(i, m, st).objs, k) <==> Marked(st.objs, k) || k == i {
      FinishMarks(m, st.objs, Finish(i, m, st).objs, k);
    }
  }

  /** A link whose check passes returns what the rest of the chain returned, marking its mutation on success. */
  lemma LinkReturns<F, S, E>(rest: seq<Frame<F, S, E>>, m: nat, st: State<F, S>, env: Env<F, S, E>, i: nat, n: nat)
    requires st.Valid(n) && i < n && Ordered(rest, i + 1, n) && m < |st.objs| && st.objs[m].owner == i
    requires env.check(st.objs[st.saved.builder[i]].fields).None?
    ensures var (r, after) := Run(rest, NextRef(st.saved, i), Built(i, m, st, env), env, i + 1, n);
      var (linked, done) := RunLink(rest, m, st, env, i, n);
      && done.saved.builder == after.saved.builder && done.saved.inserts == after.saved.inserts
      && done.saved.specs == after.saved.specs
      && (r.Err? ==> linked == r && done.objs == after.objs)
      && (r.Ok? ==> && linked.Ok? && SameContents(after.objs, done.objs)
                    && forall k: nat :: Marked(done.objs, k) <==> Marked(after.objs, k) || k == i)
  {
    var (r, after) := Run(rest, NextRef(st.saved, i), Built(i, m, st, env), env, i + 1, n);
    assert RunLink(rest, m, st, env, i, n) ==
      if r.Err? then (r, after) else (Ok(ANode(Filled(i, after.saved))), Finish(i, m, after));
    if r.Ok? {
      FinishedMarks(i, m, after, n);
    }
  }

  lemma {:induction false} BareLink<F, S, E>(m: nat, st: State<F, S>, env: Env<F, S, E>, i: nat, n: nat)
    requires st.Valid(n) && i < n && m < |st.objs| && st.objs[m].owner == i
    requires env.check(st.objs[st.saved.builder[i]].fields).None?
    ensures var (r, after) := RunLink(Links(i + 1, n), m, st, env, i, n);
      && BareDoes(st, m, env, BadFrom(st, env.check, i), i, n, r, after)
      && after.saved.builder == st.saved.builder[i := m]
    decreases n - i, 0
  {
    var built, next := Built(i, m, st, env), NextRef(st.saved, i);
    BareRun(next, built, env, i + 1, n);
    BadAfterBuild(st, env, i, m, n, i + 1);
    LinkReturns(Links(i + 1, n), m, st, env, i, n);
    assert i + 1 < n ==> built.saved.builder[i + 1 := next] == built.saved.builder;
  }

  /** The outcome of link i when the insert it leads to gets this reply. */
  function AnswerTo<S, E>(reply: Reply<E>, i: nat, content: S): Outcome<S, E> {
    match reply
    case Inserted(ids) => Ok(ANode(Node(content, if ids(i).Some? then ids(i).value else 0)))
    case Rejected(constraint, e) => Err(if constraint then Constraint(e) else Refused(e))
  }

  /** An accepted insert completes every builder from i on. */
  lemma BareAccepted<F(!new), S(!new), E(!new)>(m: nat, st: State<F, S>, env: Env<F, S, E>, i: nat, n: nat)
    requires st.Valid(n) && i < n && m < |st.objs| && st.objs[m].owner == i
    ensures var (r, after) := Run(Links(i, n), m, st, env, i, n);
      r.Ok? ==> Completed(after, env, i, n) &&
                r == AnswerTo(env.store(after.saved.inserts), i, env.spec(st.objs[m].fields))
  {
    var links := Links<F, S, E>(i + 1, n);
    EnterLink(m, links, st, env, i, n);
    SuccessCompletes([LinkFrame(i)] + links, m, st, env, i, n);
    var (r, after) := RunLink(links, m, st, env, i, n);
    if r.Ok? {
      BelowKept(links, NextRef(st.saved, i), Built(i, m, st, env), env, i + 1, n);
      assert Finished(after, i);
    }
  }

  // ----- the play -----------------------------------------------------------------------------

  /** The reply to each insert in turn. */
  type Answers<!E> = nat -> Reply<E>

  /** The hook of builder j, and the check among the later builders that fails, if any. */
  datatype Scene<!F, !S, !E> = Scene(
    hook: Hook<F, S, E>, check: F -> Option<E>, spec: F -> S, j: nat, later: Option<E>)

  /**
   * Between two calls: f is what the hook's mutation holds, own what the builder's own one does when it
   * is another.  Some insert was accepted; the last call that got past link j's own check was.
   */
  datatype Stage<F, S, E> = Stage(
    own: Option<F>, f: F, seen: seq<Outcome<S, E>>, asked: nat, some: bool, last: bool)

  function Opening<F, S, E>(f: F): Stage<F, S, E> {
    Stage(None, f, [], 0, false, false)
  }

  /** A call: link j's own check stops it, or a later check does, or the store answers. */
  function AfterCall<F, S, E>(
    s: Scene<F, S, E>, stage: Stage<F, S, E>, renew: bool, fields: F, answers: Answers<E>): Stage<F, S, E>
  {
    var f := if renew then stage.f else fields;
    var judged := s.check(OwnOr(stage.own, f));
    if judged.Some? then stage.(f := f, seen := stage.seen + [Err(FromCheck(judged.value))])
    else
      var own := if renew then Some(fields) else None;
      if s.later.Some? then
        stage.(own := own, f := f, seen := stage.seen + [Err(FromCheck(s.later.value))], last := false)
      else
        var (reply, k) := (answers(stage.asked), stage.asked + 1);
        Stage(own, f, stage.seen + [AnswerTo(reply, s.j, s.spec(fields))], k, stage.some || reply.Inserted?,
              reply.Inserted?)
  }

  function Play<F, S, E>(s: Scene<F, S, E>, stage: Stage<F, S, E>, answers: Answers<E>, left: nat)
    : (Outcome<S, E>, Stage<F, S, E>)
    decreases left
  {
    match s.hook.decide(stage.f, stage.seen)
    case Return(r) => (r, stage)
    case Call(renew, fields) =>
      if left == 0 then (Err(GaveUp), stage)
      else Play(s, AfterCall(s, stage, renew, fields, answers), answers, left - 1)
  }

  // ----- the hook's run is the play -----------------------------------------------------------

  function HookRun<F, S, E>(
    h: Hook<F, S, E>, m: nat, st: State<F, S>, env: Env<F, S, E>, seen: seq<Outcome<S, E>>, left: nat, j: nat, n: nat)
    : (r: (Outcome<S, E>, State<F, S>))
    requires st.Valid(n) && j < n && m < |st.objs| && st.objs[m].owner == j
    ensures r.1.Valid(n) && Extends(st.objs, r.1.objs) && Grows(st.saved, r.1.saved)
  {
    RunHook(h, 0, Links(j, n), m, st, env, seen, left, j, n)
  }

  ghost predicate SameMarks<F>(objs: seq<Mut<F>>, after: seq<Mut<F>>) {
    forall k: nat :: Marked(objs, k) <==> Marked(after, k)
  }

  /** Builders j, j + 1, ... are all done or all not. */
  ghost predicate Uniform<F>(objs: seq<Mut<F>>, j: nat, n: nat) {
    forall k :: j <= k < n ==> (Marked(objs, k) <==> Marked(objs, j))
  }

  lemma HandSameMarks<F>(m: nat, renew: bool, fields: F, objs: seq<Mut<F>>)
    requires m < |objs|
    ensures SameMarks(objs, Hand(m, renew, fields, objs).1)
  {
    forall k: nat ensures Marked(objs, k) <==> Marked(Hand(m, renew, fields, objs).1, k) {
      HandMarks(m, renew, fields, objs, k);
    }
  }

  lemma {:induction false} BadFromIs<F, S, E>(st: State<F, S>, check: F -> Option<E>, fields: seq<F>, i: nat)
    requires st.Valid(|fields|) && i <= |fields|
    requires forall k :: i <= k < |fields| ==> st.objs[st.saved.builder[k]].fields == fields[k]
    ensures BadFrom(st, check, i) == FirstBad(check, fields[i..])
    decreases |fields| - i
  {
    if i == |fields| {
    } else {
      BadFromIs(st, check, fields, i + 1);
      assert fields[i..][1..] == fields[i + 1..];
    }
  }

  /** The state of a creation at a stage of the play; m is the hook's mutation. */
  ghost predicate Stands<F, S, E>(
    s: Scene<F, S, E>, stage: Stage<F, S, E>, env: Env<F, S, E>, contents: seq<F>, m: nat, st: State<F, S>)
  {
    var n := |contents|;
    && Tracks(st, m, stage.own, contents, s.j, n) && st.objs[m].fields == stage.f
    && s.later == FirstBad(s.check, contents[s.j + 1..])
    && |st.saved.inserts| == stage.asked && (s.later.Some? ==> stage.asked == 0)
    && (forall k: nat :: k < s.j ==> !Marked(st.objs, k))
    && Uniform(st.objs, s.j, n) && (Marked(st.objs, s.j) <==> stage.some)
    && if stage.last then Completed(st, env, s.j, n) else !Answered(st.saved, env)
  }

  ghost predicate Plays<F, S, E>(s: Scene<F, S, E>, env: Env<F, S, E>) {
    env.check == s.check && env.spec == s.spec
  }

  /** The replies to the inserts after the first `from` ones are as told. */
  ghost predicate AsTold<S, E>(
    store: Store<S, E>, answers: Answers<E>, from: nat, inserts: seq<seq<Option<Spec<S>>>>)
  {
    forall k: nat :: from <= k < |inserts| ==> store(inserts[..k + 1]) == answers(k)
  }

  lemma HandStands<F, S, E>(
    s: Scene<F, S, E>, stage: Stage<F, S, E>, env: Env<F, S, E>, contents: seq<F>, m: nat, st: State<F, S>,
    renew: bool, given: F)
    requires Stands(s, stage, env, contents, m, st)
    ensures var called := st.(objs := Hand(m, renew, given, st.objs).1);
      var f := if renew then stage.f else given;
      && Stands(s, stage.(f := f), env, contents, m, called)
      && env.check(called.objs[called.saved.builder[s.j]].fields) == env.check(OwnOr(stage.own, f))
  {
    var called := st.(objs := Hand(m, renew, given, st.objs).1);
    HandSameMarks(m, renew, given, st.objs);
    if stage.last {
      forall k | s.j <= k < |contents| ensures Finished(called, k) {
        assert Finished(st, k);
      }
    }
  }

  /** The mutation the hook hands on, in the state in which its successor runs. */
  ghost predicate HandedOn<F, S>(m: nat, renew: bool, given: F, j: nat, handed: nat, st: State<F, S>) {
    && handed < |st.objs| && st.objs[handed].owner == j && st.objs[handed].fields == given
    && (if renew then handed != m else handed == m)
  }

  /** The call got past link j's own check, so the link took over what it was handed. */
  lemma TakenOver<F, S>(
    m: nat, own: Option<F>, st: State<F, S>, contents: seq<F>, renew: bool, given: F, handed: nat, j: nat,
    after: State<F, S>)
    requires Tracks(st, m, own, contents, j, |contents|) && HandedOn(m, renew, given, j, handed, st)
    requires after.Valid(|contents|) && SameContents(st.objs, after.objs)
    requires after.saved.builder == st.saved.builder[j := handed]
    ensures Tracks(after, m, if renew then Some(given) else None, contents, j, |contents|)
    ensures after.objs[m].fields == st.objs[m].fields
  {
  }

  lemma AnswerStands<F, S, E>(
    s: Scene<F, S, E>, stage: Stage<F, S, E>, env: Env<F, S, E>, contents: seq<F>, m: nat, st: State<F, S>,
    renew: bool, given: F, answers: Answers<E>, handed: nat, r: Outcome<S, E>, after: State<F, S>)
    requires Stands(s, stage, env, contents, m, st) && Plays(s, env) && HandedOn(m, renew, given, s.j, handed, st)
    requires !renew ==> stage.f == given
    requires s.check(OwnOr(stage.own, stage.f)).None? && after.Valid(|contents|)
    requires after.saved.builder == st.saved.builder[s.j := handed]
    requires BareDoes(st, handed, env, s.later, s.j, |contents|, r, after)
    requires r.Ok? ==> Completed(after, env, s.j, |contents|)
                       && r == AnswerTo(env.store(after.saved.inserts), s.j, env.spec(given))
    requires |after.saved.inserts| == stage.asked + 1 ==> env.store(after.saved.inserts) == answers(stage.asked)
    ensures AfterCall(s, stage, renew, given, answers).seen == stage.seen + [r]
    ensures Stands(s, AfterCall(s, stage, renew, given, answers), env, contents, m, after)
  {
    TakenOver(m, stage.own, st, contents, renew, given, handed, s.j, after);
  }

  lemma CallStands<F(!new), S(!new), E(!new)>(
    s: Scene<F, S, E>, stage: Stage<F, S, E>, env: Env<F, S, E>, contents: seq<F>, m: nat, st: State<F, S>,
    renew: bool, given: F, answers: Answers<E>, handed: nat)
    returns (r: Outcome<S, E>, after: State<F, S>)
    requires Stands(s, stage, env, contents, m, st) && Plays(s, env) && HandedOn(m, renew, given, s.j, handed, st)
    requires !renew ==> stage.f == given
    requires env.check(st.objs[st.saved.builder[s.j]].fields) == s.check(OwnOr(stage.own, stage.f))
    requires var called := Run(Links(s.j, |contents|), handed, st, env, s.j, |contents|).1;
      |called.saved.inserts| == stage.asked + 1 ==> env.store(called.saved.inserts) == answers(stage.asked)
    ensures (r, after) == Run(Links(s.j, |contents|), handed, st, env, s.j, |contents|)
    ensures AfterCall(s, stage, renew, given, answers).seen == stage.seen + [r]
    ensures Stands(s, AfterCall(s, stage, renew, given, answers), env, contents, m, after)
  {
    var n := |contents|;
    var (outcome, reached) := Run(Links(s.j, n), handed, st, env, s.j, n);
    r, after := outcome, reached;
    if s.check(OwnOr(stage.own, stage.f)).Some? {
      EnterLink(handed, Links(s.j + 1, n), st, env, s.j, n);
    } else {
      BareRun(handed, st, env, s.j, n);
      BadFromIs(st, env.check, contents, s.j + 1);
      BareAccepted(handed, st, env, s.j, n);
      AnswerStands(s, stage, env, contents, m, st, renew, given, answers, handed, r, after);
    }
  }

  /** The inserts so far are the first of the final ones. */
  lemma ToldNext<S, E>(
    store: Store<S, E>, answers: Answers<E>, from: nat, inserts: seq<seq<Option<Spec<S>>>>,
    final: seq<seq<Option<Spec<S>>>>)
    requires AsTold(store, answers, from, final) && inserts <= final
    ensures |inserts| == from + 1 ==> store(inserts) == answers(from)
    ensures |inserts| >= from ==> AsTold(store, answers, |inserts|, final)
  {
    assert final[..|inserts|] == inserts;
  }

  /** One call of the hook: its run goes on from the state after the call, at the next stage. */
  lemma NextStage<F(!new), S(!new), E(!new)>(
    s: Scene<F, S, E>, stage: Stage<F, S, E>, env: Env<F, S, E>, contents: seq<F>, m: nat, st: State<F, S>,
    answers: Answers<E>, left: nat, next: Stage<F, S, E>)
    returns (after: State<F, S>)
    requires Stands(s, stage, env, contents, m, st) && Plays(s, env) && left > 0
    requires var move := s.hook.decide(stage.f, stage.seen);
      move.Call? && next == AfterCall(s, stage, move.renew, move.fields, answers)
    requires AsTold(env.store, answers, stage.asked,
                    HookRun(s.hook, m, st, env, stage.seen, left, s.j, |contents|).1.saved.inserts)
    ensures Stands(s, next, env, contents, m, after)
    ensures HookRun(s.hook, m, st, env, stage.seen, left, s.j, |contents|) ==
            HookRun(s.hook, m, after, env, next.seen, left - 1, s.j, |contents|)
    ensures AsTold(env.store, answers, next.asked,
                   HookRun(s.hook, m, st, env, stage.seen, left, s.j, |contents|).1.saved.inserts)
  {
    var n, move := |contents|, s.hook.decide(stage.f, stage.seen);
    var (renew, given) := (move.renew, move.fields);
    var (handed, objs) := Hand(m, renew, given, st.objs);
    var called := st.(objs := objs);
    var final := HookRun(s.hook, m, st, env, stage.seen, left, s.j, n).1.saved.inserts;
    var (outcome, reached) := Run(Links(s.j, n), handed, called, env, s.j, n);
    assert HookRun(s.hook, m, st, env, stage.seen, left, s.j, n) ==
           HookRun(s.hook, m, reached, env, stage.seen + [outcome], left - 1, s.j, n);
    HandStands(s, stage, env, contents, m, st, renew, given);
    ToldNext(env.store, answers, stage.asked, reached.saved.inserts, final);
    var f := if renew then stage.f else given;
    var r, q := CallStands(s, stage.(f := f), env, contents, m, called, renew, given, answers, handed);
    after := reached;
  }

  /** The run ends as the play tells. */
  ghost predicate Foretold<F, S, E>(
    s: Scene<F, S, E>, env: Env<F, S, E>, contents: seq<F>, m: nat, told: (Outcome<S, E>, Stage<F, S, E>),
    run: (Outcome<S, E>, State<F, S>))
  {
    run.0 == told.0 && Stands(s, told.1, env, contents, m, run.1)
  }

  /** When the store answers as told, the hook's whole run is the play. */
  lemma {:induction false} HookPlays<F(!new), S(!new), E(!new)>(
    s: Scene<F, S, E>, stage: Stage<F, S, E>, env: Env<F, S, E>, contents: seq<F>, m: nat, st: State<F, S>,
    answers: Answers<E>, left: nat)
    requires Stands(s, stage, env, contents, m, st) && Plays(s, env)
    requires AsTold(env.store, answers, stage.asked,
                    HookRun(s.hook, m, st, env, stage.seen, left, s.j, |contents|).1.saved.inserts)
    ensures Foretold(s, env, contents, m, Play(s, stage, answers, left),
                     HookRun(s.hook, m, st, env, stage.seen, left, s.j, |contents|))
    decreases left
  {
    var move := s.hook.decide(stage.f, stage.seen);
    if move.Call? && left > 0 {
      var next := AfterCall(s, stage, move.renew, move.fields, answers);
      var after := NextStage(s, stage, env, contents, m, st, answers, left, next);
      HookPlays(s, next, env, contents, m, after, answers, left - 1);
    } else {
      LeaveStands(s, stage, env, contents, m, st);
    }
  }

  lemma LeaveStands<F, S, E>(
    s: Scene<F, S, E>, stage: Stage<F, S, E>, env: Env<F, S, E>, contents: seq<F>, m: nat, st: State<F, S>)
    requires Stands(s, stage, env, contents, m, st)
    ensures Stands(s, stage, env, contents, m, st.(log := st.log + [Leave(0)]))
  {
    if stage.last {
      CompletedLogged(st, env, s.j, |contents|, Leave(0));
    }
  }
}
