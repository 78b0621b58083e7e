/** Single creation: what withHooks adds around the exec step, whatever list of hooks it is given. */
module SingleLaws {
  import opened Prelude
  import opened HookChain
  import opened HookLaws
  import opened SaveLaws

  // ----- whatever hooks do, a single save writes only what passed the checks -------------------

  lemma ExecChecked<F(!new), S(!new), E(!new)>(m: nat, st: State<F, S>, env: Env<F, S, E>)
    requires st.Valid(1) && m < |st.objs| && st.objs[m].owner == 0 && AllChecked(env, st.saved.specs)
    ensures NewChecked(env, st.saved, RunExec(m, st, env).1.saved)
  {
    var own, f := st.saved.builder[0], st.objs[m].fields;
    if env.check(f).None? {
      BuildChecked(0, own, f, st.saved, env);
      InsertChecked(Build(0, own, env.spec(f), st.saved), env);
    }
  }

  lemma {:induction false} SingleWritesChecked<F(!new), S(!new), E(!new)>(
    frames: seq<Frame<F, S, E>>, m: nat, st: State<F, S>, env: Env<F, S, E>)
    requires st.Valid(1) && Single(frames) && m < |st.objs| && st.objs[m].owner == 0
    requires AllChecked(env, st.saved.specs)
    ensures NewChecked(env, st.saved, Run(frames, m, st, env, 0, 1).1.saved)
    decreases |frames|, 0
  {
    if frames[0].HookFrame? {
      var (k, h) := (frames[0].k, frames[0].hook);
      HookSingleWritesChecked(h, k, frames[1..], m, st.(log := st.log + [Enter(k)]), env, [], h.calls);
    } else {
      ExecChecked(m, st, env);
    }
  }

  lemma {:induction false} HookSingleWritesChecked<F(!new), S(!new), E(!new)>(
    h: Hook<F, S, E>, k: nat, rest: seq<Frame<F, S, E>>, m: nat, st: State<F, S>, env: Env<F, S, E>,
    seen: seq<Outcome<S, E>>, left: nat)
    requires st.Valid(1) && Single(rest) && m < |st.objs| && st.objs[m].owner == 0
    requires AllChecked(env, st.saved.specs)
    ensures NewChecked(env, st.saved, RunHook(h, k, rest, m, st, env, seen, left, 0, 1).1.saved)
    decreases |rest|, 1 + left
  {
    match h.decide(st.objs[m].fields, seen)
    case Return(_) =>
    case Call(renew, fields) =>
      if left > 0 {
        var (handed, objs) := Hand(m, renew, fields, st.objs);
        SingleWritesChecked(rest, handed, st.(objs := objs), env);
        var (r, after) := Run(rest, handed, st.(objs := objs), env, 0, 1);
        HookSingleWritesChecked(h, k, rest, m, after, env, seen + [r], left - 1);
      }
  }

  // ----- hooks run in order around exec ------------------------------------------------------

  function Enters(from: nat, n: nat): seq<Event> {
    seq(n, k requires 0 <= k => Enter(from + k))
  }

  function Leaves(from: nat, n: nat): seq<Event> {
    seq(n, k requires 0 <= k < n => Leave(from + n - 1 - k))
  }

  /** The object handed on last, and all objects by then. */
  function HandAll<F, S, E>(hooks: seq<Hook<F, S, E>>, m: nat, objs: seq<Mut<F>>): (r: (nat, seq<Mut<F>>))
    requires m < |objs|
    ensures r.0 < |r.1| && r.1[r.0].owner == objs[m].owner && r.1[r.0].fields == Edited(hooks, objs[m].fields)
    ensures Extends(objs, r.1) && NoNewMarks(objs, r.1) && (r.0 == m || !r.1[r.0].done)
    decreases |hooks|
  {
    if |hooks| == 0 then (m, objs)
    else
      var f := objs[m].fields;
      var (handed, after) := Hand(m, Renews(hooks[0], f), Edit(hooks[0], f), objs);
      HandAll(hooks[1..], handed, after)
  }

  /**
   * Hooks of a single save that call once, editing the mutation or handing a new one on: entered in
   * order, exec once on the mutation handed on by the innermost, left in reverse order.
   */
  lemma {:induction false} HooksInOrder<F(!new), S(!new), E(!new)>(
    hooks: seq<Hook<F, S, E>>, from: nat, m: nat, st: State<F, S>, env: Env<F, S, E>)
    requires st.Valid(1) && m < |st.objs| && st.objs[m].owner == 0
    requires forall k :: 0 <= k < |hooks| ==> CallsOnce(hooks[k])
    ensures Single(LabelledFrames(hooks, from) + [ExecFrame])
    ensures var (last, objs) := HandAll(hooks, m, st.objs);
      var reached := State(objs, st.saved, st.log + Enters(from, |hooks|));
      var (r, after) := RunExec(last, reached, env);
      Run(LabelledFrames(hooks, from) + [ExecFrame], m, st, env, 0, 1) ==
        (r, State(after.objs, after.saved, reached.log + [Exec] + Leaves(from, |hooks|)))
    decreases |hooks|
  {
    var frames := LabelledFrames(hooks, from) + [ExecFrame];
    if |hooks| == 0 {
      assert frames == [ExecFrame];
      assert st.log + Enters(from, 0) == st.log && st.log + [Exec] + Leaves(from, 0) == st.log + [Exec];
      assert RunExec(m, st, env).1.log == st.log + [Exec];
    } else {
      var (handed, entered) := Entered(hooks[0], from, m, st);
      assert frames[1..] == LabelledFrames(hooks[1..], from + 1) + [ExecFrame];
      assert frames[0] == HookFrame(from, hooks[0]);
      HooksInOrder(hooks[1..], from + 1, handed, entered, env);
      CallsOnceHook(frames, m, st, env, 0, 1);
      OrderStep(st.log, st.log + Enters(from, |hooks|) + [Exec], from, |hooks|);
    }
  }

  lemma OrderStep(log: seq<Event>, executed: seq<Event>, from: nat, n: nat)
    requires n > 0
    ensures log + [Enter(from)] + Enters(from + 1, n - 1) == log + Enters(from, n)
    ensures executed + Leaves(from + 1, n - 1) + [Leave(from)] == executed + Leaves(from, n)
  {
  }

  // ----- what a single save does, from hooks, check and store alone ----------------------------

  /** What withHooks makes of the outermost mutator's outcome. */
  function NodeOf<S, E>(r: Outcome<S, E>): Result<Node<S>, Failure<E>> {
    match r
    case Err(e) => Err(e)
    case Ok(ANode(node)) => Ok(node)
    case Ok(Other) => Err(WrongValue)
  }

  /** The result and the state after contents have reached the exec step of a single save. */
  ghost predicate Saves<F, S, E>(
    env: Env<F, S, E>, content: F, st: State<F, S>, r: Result<Node<S>, Failure<E>>, after: State<F, S>)
    requires after.Valid(1)
  {
    if env.check(content).Some?
    then r == Err(FromCheck(env.check(content).value)) && after.saved == st.saved && NoNewMarks(st.objs, after.objs)
    else
      && after.saved.inserts == st.saved.inserts + [[Some(Spec(env.spec(content), None))]]
      && match env.store(after.saved.inserts)
         case Rejected(constraint, e) =>
           r == Err(if constraint then Constraint(e) else Refused(e)) && NoNewMarks(st.objs, after.objs)
         case Inserted(ids) =>
           if ids(0).None? then r == Err(NoIdentifier) && NoNewMarks(st.objs, after.objs)
           else
             && r == Ok(Node(env.spec(content), ids(0).value))
             && after.saved.nodes == [Some(Node(env.spec(content), ids(0).value))] && Completed(after, env, 0, 1)
  }

  lemma ExecSaves<F, S, E>(m: nat, st: State<F, S>, env: Env<F, S, E>)
    requires st.Valid(1) && m < |st.objs| && st.objs[m].owner == 0
    requires m == st.saved.builder[0] || !st.objs[m].done
    ensures var (r, after) := RunExec(m, st, env);
      Saves(env, st.objs[m].fields, st, NodeOf(r), after)
  {
    var own, f := st.saved.builder[0], st.objs[m].fields;
    if env.check(f).None? {
      var built := Build(0, own, env.spec(f), st.saved);
      assert built.specs == [Some(Spec(env.spec(f), None))];
      var (r, after) := RunExec(m, st, env);
      if r.Ok? {
        assert Finished(after, 0);
      }
    }
  }

  /** The whole chain of a single save. */
  function Around<F, S, E>(hooks: seq<Hook<F, S, E>>): (frames: seq<Frame<F, S, E>>)
    ensures Single(frames)
  {
    AroundSingle(hooks, 0);
    LabelledFrames(hooks, 0) + [ExecFrame]
  }

  lemma {:induction false} AroundSingle<F, S, E>(hooks: seq<Hook<F, S, E>>, from: nat)
    ensures Single(LabelledFrames(hooks, from) + [ExecFrame])
  {
    var frames := LabelledFrames(hooks, from) + [ExecFrame];
    if |hooks| > 0 {
      AroundSingle(hooks[1..], from + 1);
      assert frames[1..] == LabelledFrames(hooks[1..], from + 1) + [ExecFrame];
    }
  }

  /**
   * A single save whose hooks call once: they are entered in order and left in reverse around one exec
   * step, which checks and saves what they made of the mutation together, the first hook editing first.
   */
  lemma SingleExact<F(!new), S(!new), E(!new)>(hooks: seq<Hook<F, S, E>>, st: State<F, S>, env: Env<F, S, E>)
    requires st.Valid(1) && forall k :: 0 <= k < |hooks| ==> CallsOnce(hooks[k])
    ensures var own := st.saved.builder[0];
      var (r, after) := Run(Around(hooks), own, st, env, 0, 1);
      && after.log == st.log + Enters(0, |hooks|) + [Exec] + Leaves(0, |hooks|)
      && Saves(env, Edited(hooks, st.objs[own].fields), st, NodeOf(r), after)
  {
    var own := st.saved.builder[0];
    HooksInOrder(hooks, 0, own, st, env);
    var (last, objs) := HandAll(hooks, own, st.objs);
    var reached := State(objs, st.saved, st.log + Enters(0, |hooks|));
    ExecSaves(last, reached, env);
    var (r, after) := RunExec(last, reached, env);
    var whole := State(after.objs, after.saved, reached.log + [Exec] + Leaves(0, |hooks|));
    if r.Ok? {
      assert Finished(after, 0) && Finished(whole, 0);
    }
  }

  /** Hooks whose success is that of their last call: on success the identifier is the store's last answer. */
  lemma {:induction false} SingleCompletes<F(!new), S(!new), E(!new)>(
    frames: seq<Frame<F, S, E>>, m: nat, st: State<F, S>, env: Env<F, S, E>)
    requires st.Valid(1) && Single(frames) && m < |st.objs| && st.objs[m].owner == 0
    requires AllHooks(frames, h => LastCounts(h))
    ensures var (r, after) := Run(frames, m, st, env, 0, 1);
      r.Ok? ==> Completed(after, env, 0, 1)
    decreases |frames|, 0
  {
    if frames[0].HookFrame? {
      var (k, h) := (frames[0].k, frames[0].hook);
      HookSingleCompletes(h, k, frames[1..], m, st.(log := st.log + [Enter(k)]), env, [], h.calls);
    } else {
      ExecCompletes(m, st, env);
    }
  }

  lemma ExecCompletes<F, S, E>(m: nat, st: State<F, S>, env: Env<F, S, E>)
    requires st.Valid(1) && m < |st.objs| && st.objs[m].owner == 0
    ensures var (r, after) := RunExec(m, st, env);
      r.Ok? ==> Completed(after, env, 0, 1)
  {
    var (r, after) := RunExec(m, st, env);
    if r.Ok? {
      assert Finished(after, 0);
    }
  }

  lemma LastSeen<S, E>(seen: seq<Outcome<S, E>>, r: Outcome<S, E>)
    ensures LastSucceeded(seen + [r]) <==> r.Ok?
  {
  }

  /** The last call decides what a hook has to show when it reports success. */
  lemma LeavesCompleted<F(!new), S(!new), E(!new)>(
    h: Hook<F, S, E>, k: nat, rest: seq<Frame<F, S, E>>, m: nat, st: State<F, S>, env: Env<F, S, E>,
    seen: seq<Outcome<S, E>>, left: nat)
    requires st.Valid(1) && Single(rest) && m < |st.objs| && st.objs[m].owner == 0 && |seen| <= h.calls
    requires LastCounts(h) && (LastSucceeded(seen) ==> Completed(st, env, 0, 1))
    requires h.decide(st.objs[m].fields, seen).Return? || left == 0
    ensures var (r, after) := RunHook(h, k, rest, m, st, env, seen, left, 0, 1);
      r.Ok? ==> Completed(after, env, 0, 1)
  {
    if LastSucceeded(seen) {
      CompletedLogged(st, env, 0, 1, Leave(k));
    }
  }

  lemma {:induction false} HookSingleCompletes<F(!new), S(!new), E(!new)>(
    h: Hook<F, S, E>, k: nat, rest: seq<Frame<F, S, E>>, m: nat, st: State<F, S>, env: Env<F, S, E>,
    seen: seq<Outcome<S, E>>, left: nat)
    requires st.Valid(1) && Single(rest) && m < |st.objs| && st.objs[m].owner == 0 && |seen| + left == h.calls
    requires AllHooks(rest, h => LastCounts(h)) && LastCounts(h)
    requires LastSucceeded(seen) ==> Completed(st, env, 0, 1)
    ensures var (r, after) := RunHook(h, k, rest, m, st, env, seen, left, 0, 1);
      r.Ok? ==> Completed(after, env, 0, 1)
    decreases |rest|, 1 + left
  {
    var move := h.decide(st.objs[m].fields, seen);
    if move.Call? && left > 0 {
      var (handed, objs) := Hand(m, move.renew, move.fields, st.objs);
      var called := st.(objs := objs);
      SingleCompletes(rest, handed, called, env);
      var (r, after) := Run(rest, handed, called, env, 0, 1);
      HookGoesOn(h, k, rest, m, st, env, seen, left, 0, 1);
      LastSeen(seen, r);
      HookSingleCompletes(h, k, rest, m, after, env, seen + [r], left - 1);
    } else {
      LeavesCompleted(h, k, rest, m, st, env, seen, left);
    }
  }
}
