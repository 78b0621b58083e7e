/**
 * What a creation does exactly when every hook calls its successor once and hands the outcome back,
 * whether it edits the mutation in place or hands a new one on.
 */
module SaveLaws {
  import opened Prelude
  import opened HookChain
  import opened HookLaws

  // ----- hooks that call once ----------------------------------------------------------------

  /** Calls its successor once, on its own object or on a new one, and hands the outcome back. */
  ghost predicate CallsOnce<F(!new), S(!new), E(!new)>(h: Hook<F, S, E>) {
    && h.calls >= 1
    && (forall f :: h.decide(f, []).Call?)
    && (forall f, r :: h.decide(f, [r]) == Return(r))
  }

  /** The contents a hook hands on. */
  function Edit<F, S, E>(h: Hook<F, S, E>, f: F): F {
    if h.decide(f, []).Call? then h.decide(f, []).fields else f
  }

  /** The contents handed on after all hooks of a builder, outermost first. */
  function Edited<F, S, E>(hooks: seq<Hook<F, S, E>>, f: F): F {
    if |hooks| == 0 then f else Edited(hooks[1..], Edit(hooks[0], f))
  }

  /** The wrappers of a list of hooks, the first of which is outermost and numbered from. */
  function LabelledFrames<F, S, E>(hooks: seq<Hook<F, S, E>>, from: nat): seq<Frame<F, S, E>> {
    seq(|hooks|, k requires 0 <= k < |hooks| => HookFrame(from + k, hooks[k]))
  }

  predicate Renews<F, S, E>(h: Hook<F, S, E>, f: F) {
    h.decide(f, []).Call? && h.decide(f, []).renew
  }

  /**
   * What the builder's own mutation holds: None while it is the mutation being handed on, and fixed
   * once a hook has replaced it.
   */
  function OwnAfter<F, S, E>(h: Hook<F, S, E>, own: Option<F>, f: F): Option<F> {
    if own.None? && Renews(h, f) then Some(f) else own
  }

  function OwnOr<F>(own: Option<F>, f: F): F {
    if own.Some? then own.value else f
  }

  function NextFields<F>(fields: seq<F>, f: F, i: nat): F {
    if i + 1 < |fields| then fields[i + 1] else f
  }

  /** The contents each link from i on is handed. */
  function Handed<F, S, E>(frames: seq<Frame<F, S, E>>, f: F, fields: seq<F>, i: nat): seq<F> {
    if |frames| == 0 then []
    else if frames[0].HookFrame? then Handed(frames[1..], Edit(frames[0].hook, f), fields, i)
    else [f] + Handed(frames[1..], NextFields(fields, f, i), fields, i + 1)
  }

  /** The contents each link from i on checks. */
  function Judged<F, S, E>(frames: seq<Frame<F, S, E>>, own: Option<F>, f: F, fields: seq<F>, i: nat): seq<F> {
    if |frames| == 0 then []
    else if frames[0].HookFrame? then
      Judged(frames[1..], OwnAfter(frames[0].hook, own, f), Edit(frames[0].hook, f), fields, i)
    else [OwnOr(own, f)] + Judged(frames[1..], None, NextFields(fields, f, i), fields, i + 1)
  }

  /** The first check that fails. */
  function FirstBad<F, E>(check: F -> Option<E>, contents: seq<F>): Option<E> {
    if |contents| == 0 then None
    else if check(contents[0]).Some? then check(contents[0])
    else FirstBad(check, contents[1..])
  }

  function Specs<F, S, E>(env: Env<F, S, E>, contents: seq<F>): seq<Option<Spec<S>>> {
    seq(|contents|, j requires 0 <= j < |contents| => Some(Spec(env.spec(contents[j]), None)))
  }

  // ----- the outcome of a run ----------------------------------------------------------------

  ghost predicate NoNewMarks<F>(objs: seq<Mut<F>>, after: seq<Mut<F>>) {
    forall o :: 0 <= o < |after| && after[o].done ==> o < |objs| && objs[o].done
  }

  /** What a run does when its links check `judged` and write `handed`. */
  ghost predicate Exact<F, S, E>(
    st: State<F, S>, env: Env<F, S, E>, judged: seq<F>, handed: seq<F>, i: nat, n: nat,
    r: Outcome<S, E>, after: State<F, S>)
    requires st.Valid(n) && after.Valid(n) && i <= n
  {
    && after.saved.builder[..i] == st.saved.builder[..i]
    && match FirstBad(env.check, judged)
       case Some(e) =>
         r == Err(FromCheck(e)) && after.saved.inserts == st.saved.inserts && NoNewMarks(st.objs, after.objs)
       case None =>
         && after.saved.inserts == st.saved.inserts + [st.saved.specs[..i] + Specs(env, handed)]
         && match env.store(after.saved.inserts)
            case Rejected(constraint, e) =>
              r == Err(if constraint then Constraint(e) else Refused(e)) && NoNewMarks(st.objs, after.objs)
            case Inserted(_) =>
              r.Ok? && Completed(after, env, i, n)
  }

  /** m is the mutation being handed on to link i, own is what the builder's own one holds. */
  ghost predicate Tracks<F, S>(st: State<F, S>, m: nat, own: Option<F>, fields: seq<F>, i: nat, n: nat) {
    && st.Valid(n) && |fields| == n && i < n && m < |st.objs| && st.objs[m].owner == i
    && (if own.None? then st.saved.builder[i] == m
        else st.saved.builder[i] != m && st.objs[st.saved.builder[i]].fields == own.value)
    && forall j :: i < j < n ==> st.objs[st.saved.builder[j]].fields == fields[j]
  }

  /** The state in which the successor of hook k runs. */
  function Entered<F, S, E>(h: Hook<F, S, E>, k: nat, m: nat, st: State<F, S>): (nat, State<F, S>)
    requires m < |st.objs|
  {
    var f := st.objs[m].fields;
    var (handed, objs) := Hand(m, Renews(h, f), Edit(h, f), st.objs);
    (handed, State(objs, st.saved, st.log + [Enter(k)]))
  }

  /** A hook that calls once adds nothing but its edit and its two log entries. */
  lemma CallsOnceHook<F(!new), S(!new), E(!new)>(
    frames: seq<Frame<F, S, E>>, m: nat, st: State<F, S>, env: Env<F, S, E>, i: nat, n: nat)
    requires st.Valid(n) && Takes(frames, i, n) && i < n && m < |st.objs| && st.objs[m].owner == i
    requires |frames| > 0 && frames[0].HookFrame? && CallsOnce(frames[0].hook)
    ensures var k := frames[0].k;
      var (handed, entered) := Entered(frames[0].hook, k, m, st);
      var (r, after) := Run(frames[1..], handed, entered, env, i, n);
      Run(frames, m, st, env, i, n) == (r, after.(log := after.log + [Leave(k)]))
  {
    var (k, h, rest) := (frames[0].k, frames[0].hook, frames[1..]);
    var (handed, entered) := Entered(h, k, m, st);
    var (r, after) := Run(rest, handed, entered, env, i, n);
    assert h.decide(after.objs[m].fields, [r]) == Return(r);
    assert RunHook(h, k, rest, m, after, env, [r], h.calls - 1, i, n) == (r, after.(log := after.log + [Leave(k)]));
    assert [] + [r] == [r];
  }

  lemma EnteredTracks<F, S, E>(
    h: Hook<F, S, E>, k: nat, m: nat, own: Option<F>, st: State<F, S>, fields: seq<F>, i: nat, n: nat)
    requires Tracks(st, m, own, fields, i, n)
    ensures var (handed, entered) := Entered(h, k, m, st);
      && Tracks(entered, handed, OwnAfter(h, own, st.objs[m].fields), fields, i, n)
      && entered.objs[handed].fields == Edit(h, st.objs[m].fields)
      && NoNewMarks(st.objs, entered.objs)
  {
  }

  /** The state in which the successor of link i runs. */
  function Built<F, S, E>(i: nat, m: nat, st: State<F, S>, env: Env<F, S, E>): State<F, S>
    requires st.Valid(|st.saved.nodes|) && i < |st.saved.nodes| && m < |st.objs|
  {
    st.(saved := Build(i, m, env.spec(st.objs[m].fields), st.saved))
  }

  /** When its check passes, link i adds its specification, and on success its mark. */
  lemma LinkExact<F, S, E>(
    st: State<F, S>, env: Env<F, S, E>, m: nat, judged: seq<F>, handed: seq<F>, i: nat, n: nat,
    r: Outcome<S, E>, after: State<F, S>)
    requires st.Valid(n) && after.Valid(n) && i < n && m < |st.objs| && st.objs[m].owner == i
    requires |handed| > 0 && handed[0] == st.objs[m].fields && |judged| > 0 && env.check(judged[0]).None?
    requires Extends(st.objs, after.objs) && Below(Built(i, m, st, env).saved, after.saved, i + 1)
    requires Exact(Built(i, m, st, env), env, judged[1..], handed[1..], i + 1, n, r, after)
    ensures r.Err? ==> Exact(st, env, judged, handed, i, n, r, after)
    ensures r.Ok? ==> Exact(st, env, judged, handed, i, n, Ok(ANode(Filled(i, after.saved))), Finish(i, m, after))
  {
    var built := Built(i, m, st, env);
    if r.Ok? {
      FinishCompletes(i, m, after, env, n);
    }
    assert built.saved.specs[..i + 1] + Specs(env, handed[1..]) == st.saved.specs[..i] + Specs(env, handed);
    assert built.saved.builder[..i + 1][i] == m;
    assert after.saved.builder[..i] == after.saved.builder[..i + 1][..i];
    assert built.saved.builder[..i] == built.saved.builder[..i + 1][..i];
    assert built.saved.builder[..i] == st.saved.builder[..i];
  }

  /** With hooks that call once: links check `judged`, write `handed`, and nothing else happens. */
  lemma {:induction false} ExactRun<F(!new), S(!new), E(!new)>(
    frames: seq<Frame<F, S, E>>, m: nat, own: Option<F>, st: State<F, S>, env: Env<F, S, E>, fields: seq<F>, i: nat,
        n: nat)
    requires Tracks(st, m, own, fields, i, n) && Ordered(frames, i, n) && AllHooks(frames, h => CallsOnce(h))
    ensures var (r, after) := Run(frames, m, st, env, i, n);
      var f := st.objs[m].fields;
      Exact(st, env, Judged(frames, own, f, fields, i), Handed(frames, f, fields, i), i, n, r, after)
    decreases |frames|, 2
  {
    if frames[0].HookFrame? {
      var f, h := st.objs[m].fields, frames[0].hook;
      var (handed, entered) := Entered(h, frames[0].k, m, st);
      CallsOnceHook(frames, m, st, env, i, n);
      EnteredTracks(h, frames[0].k, m, own, st, fields, i, n);
      ExactRun(frames[1..], handed, OwnAfter(h, own, f), entered, env, fields, i, n);
      var (r, after) := Run(frames[1..], handed, entered, env, i, n);
      if r.Ok? {
        CompletedLogged(after, env, i, n, Leave(frames[0].k));
      }
    } else {
      ExactLink(frames, m, own, st, env, fields, i, n);
    }
  }

  lemma {:induction false} ExactLink<F(!new), S(!new), E(!new)>(
    frames: seq<Frame<F, S, E>>, m: nat, own: Option<F>, st: State<F, S>, env: Env<F, S, E>, fields: seq<F>, i: nat,
        n: nat)
    requires Tracks(st, m, own, fields, i, n) && Ordered(frames, i, n) && AllHooks(frames, h => CallsOnce(h))
    requires !frames[0].HookFrame?
    ensures var (r, after) := RunLink(frames[1..], m, st, env, i, n);
      var f := st.objs[m].fields;
      Exact(st, env, Judged(frames, own, f, fields, i), Handed(frames, f, fields, i), i, n, r, after)
    decreases |frames|, 1
  {
    var f := st.objs[m].fields;
    if env.check(OwnOr(own, f)).None? {
      var next, built := NextRef(st.saved, i), Built(i, m, st, env);
      var (r, after) := Run(frames[1..], next, built, env, i + 1, n);
      ExactTail(frames, m, own, st, env, fields, i, n);
      BelowKept(frames[1..], next, built, env, i + 1, n);
      LinkExact(st, env, m, Judged(frames, own, f, fields, i), Handed(frames, f, fields, i), i, n, r, after);
    }
  }

  lemma {:induction false} ExactTail<F(!new), S(!new), E(!new)>(
    frames: seq<Frame<F, S, E>>, m: nat, own: Option<F>, st: State<F, S>, env: Env<F, S, E>, fields: seq<F>, i: nat,
        n: nat)
    requires Tracks(st, m, own, fields, i, n) && Ordered(frames, i, n) && AllHooks(frames, h => CallsOnce(h))
    requires !frames[0].HookFrame?
    ensures var next := NextFields(fields, st.objs[m].fields, i);
      var (r, after) := Run(frames[1..], NextRef(st.saved, i), Built(i, m, st, env), env, i + 1, n);
      Exact(Built(i, m, st, env), env, Judged(frames[1..], None, next, fields, i + 1),
            Handed(frames[1..], next, fields, i + 1), i + 1, n, r, after)
    decreases |frames|, 0
  {
    var built := Built(i, m, st, env);
    if i + 1 < n {
      ExactRun(frames[1..], NextRef(st.saved, i), None, built, env, fields, i + 1, n);
    } else {
      assert built.saved.specs[..n] + Specs(env, []) == built.saved.specs;
    }
  }
}
