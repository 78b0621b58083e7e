/** What a run of a mutator chain keeps, for every list of hooks and every store. */
module HookLaws {
  import opened Prelude
  import opened HookChain

  ghost predicate AllHooks<F(!new), S(!new), E(!new)>(frames: seq<Frame<F, S, E>>, p: Hook<F, S, E> -> bool) {
    forall k :: 0 <= k < |frames| && frames[k].HookFrame? ==> p(frames[k].hook)
  }

  /** The mutation that link i + 1 is called with. */
  function NextRef<S>(saved: Saved<S>, i: nat): nat {
    if i + 1 < |saved.builder| then saved.builder[i + 1] else 0
  }

  // ----- a chain entered at link i leaves the builders before i alone -------------------------

  ghost predicate Below<S>(saved: Saved<S>, after: Saved<S>, i: nat) {
    && |saved.builder| == |saved.nodes| == |saved.specs| == |after.builder| == |after.nodes| == |after.specs|
    && forall j :: 0 <= j < i && j < |saved.nodes| ==>
         && after.nodes[j] == saved.nodes[j] && after.builder[j] == saved.builder[j]
         && (saved.specs[j].Some? ==>
               after.specs[j].Some? && after.specs[j].value.content == saved.specs[j].value.content)
  }

  lemma {:induction false} BelowKept<F, S, E>(
    frames: seq<Frame<F, S, E>>, m: nat, st: State<F, S>, env: Env<F, S, E>, i: nat, n: nat)
    requires st.Valid(n) && Ordered(frames, i, n)
    requires i < n ==> m < |st.objs| && st.objs[m].owner == i
    ensures Below(st.saved, Run(frames, m, st, env, i, n).1.saved, i)
    decreases |frames|, 0
  {
    if |frames| == 0 {
    } else {
      match frames[0]
      case HookFrame(k, h) =>
        HookBelowKept(h, k, frames[1..], m, st.(log := st.log + [Enter(k)]), env, [], h.calls, i, n);
      case LinkFrame(_) =>
        if env.check(st.objs[st.saved.builder[i]].fields).None? {
          var built := st.(saved := Build(i, m, env.spec(st.objs[m].fields), st.saved));
          BelowKept(frames[1..], NextRef(st.saved, i), built, env, i + 1, n);
        }
    }
  }

  lemma {:induction false} HookBelowKept<F, S, E>(
    h: Hook<F, S, E>, k: nat, rest: seq<Frame<F, S, E>>, m: nat, st: State<F, S>, env: Env<F, S, E>,
    seen: seq<Outcome<S, E>>, left: nat, i: nat, n: nat)
    requires st.Valid(n) && Ordered(rest, i, n) && i < n && m < |st.objs| && st.objs[m].owner == i
    ensures Below(st.saved, RunHook(h, k, rest, m, st, env, seen, left, i, n).1.saved, i)
    decreases |rest|, 1 + left
  {
    match h.decide(st.objs[m].fields, seen)
    case Return(_) =>
    case Call(renew, fields) =>
      if left > 0 {
        var (handed, objs) := Hand(m, renew, fields, st.objs);
        BelowKept(rest, handed, st.(objs := objs), env, i, n);
        var (r, after) := Run(rest, handed, st.(objs := objs), env, i, n);
        HookBelowKept(h, k, rest, m, after, env, seen + [r], left - 1, i, n);
      }
  }

  // ----- every insert carries one specification per builder, in builder order ----------------

  ghost predicate Full<S>(specs: seq<Option<Spec<S>>>) {
    forall j :: 0 <= j < |specs| ==> specs[j].Some?
  }

  ghost predicate NewFull<S>(saved: Saved<S>, after: Saved<S>) {
    forall k :: |saved.inserts| <= k < |after.inserts| ==>
      |after.inserts[k]| == |after.specs| && Full(after.inserts[k])
  }

  lemma {:induction false} InsertsAreFull<F, S, E>(
    frames: seq<Frame<F, S, E>>, m: nat, st: State<F, S>, env: Env<F, S, E>, i: nat, n: nat)
    requires st.Valid(n) && Ordered(frames, i, n)
    requires i < n ==> m < |st.objs| && st.objs[m].owner == i
    requires forall j :: 0 <= j < i ==> st.saved.specs[j].Some?
    ensures NewFull(st.saved, Run(frames, m, st, env, i, n).1.saved)
    decreases |frames|, 0
  {
    if |frames| == 0 {
    } else {
      match frames[0]
      case HookFrame(k, h) =>
        HookInsertsAreFull(h, k, frames[1..], m, st.(log := st.log + [Enter(k)]), env, [], h.calls, i, n);
      case LinkFrame(_) =>
        if env.check(st.objs[st.saved.builder[i]].fields).None? {
          var built := st.(saved := Build(i, m, env.spec(st.objs[m].fields), st.saved));
          InsertsAreFull(frames[1..], NextRef(st.saved, i), built, env, i + 1, n);
        }
    }
  }

  lemma {:induction false} HookInsertsAreFull<F, S, E>(
    h: Hook<F, S, E>, k: nat, rest: seq<Frame<F, S, E>>, m: nat, st: State<F, S>, env: Env<F, S, E>,
    seen: seq<Outcome<S, E>>, left: nat, i: nat, n: nat)
    requires st.Valid(n) && Ordered(rest, i, n) && i < n && m < |st.objs| && st.objs[m].owner == i
    requires forall j :: 0 <= j < i ==> st.saved.specs[j].Some?
    ensures NewFull(st.saved, RunHook(h, k, rest, m, st, env, seen, left, i, n).1.saved)
    decreases |rest|, 1 + left
  {
    match h.decide(st.objs[m].fields, seen)
    case Return(_) =>
    case Call(renew, fields) =>
      if left > 0 {
        var (handed, objs) := Hand(m, renew, fields, st.objs);
        InsertsAreFull(rest, handed, st.(objs := objs), env, i, n);
        BelowKept(rest, handed, st.(objs := objs), env, i, n);
        var (r, after) := Run(rest, handed, st.(objs := objs), env, i, n);
        HookInsertsAreFull(h, k, rest, m, after, env, seen + [r], left - 1, i, n);
      }
  }

  // ----- the specification at position j was made from a mutation of builder j ----------------

  /** A property of builder j's contents that its own hooks keep, for j = i, i + 1, ... */
  ghost predicate KeepsOwn<F(!new), S(!new), E(!new)>(frames: seq<Frame<F, S, E>>, i: nat, p: (nat, F) -> bool) {
    if |frames| == 0 then true
    else if frames[0].HookFrame? then HookKeeps(frames[0].hook, i, p) && KeepsOwn(frames[1..], i, p)
    else KeepsOwn(frames[1..], i + 1, p)
  }

  ghost predicate HookKeeps<F(!new), S(!new), E(!new)>(h: Hook<F, S, E>, i: nat, p: (nat, F) -> bool) {
    forall f, seen :: p(i, f) && h.decide(f, seen).Call? ==> p(i, h.decide(f, seen).fields)
  }

  ghost predicate ObjectsKeep<F>(objs: seq<Mut<F>>, p: (nat, F) -> bool) {
    forall o :: 0 <= o < |objs| ==> p(objs[o].owner, objs[o].fields)
  }

  ghost predicate MadeFrom<F(!new), S, E>(env: Env<F, S, E>, p: (nat, F) -> bool, j: nat, s: Spec<S>) {
    exists f :: p(j, f) && env.spec(f) == s.content
  }

  ghost predicate AllMade<F(!new), S, E>(env: Env<F, S, E>, p: (nat, F) -> bool, specs: seq<Option<Spec<S>>>) {
    forall j :: 0 <= j < |specs| && specs[j].Some? ==> MadeFrom(env, p, j, specs[j].value)
  }

  ghost predicate Keeps<F(!new), S, E>(st: State<F, S>, env: Env<F, S, E>, p: (nat, F) -> bool, from: nat) {
    && ObjectsKeep(st.objs, p) && AllMade(env, p, st.saved.specs)
    && forall k :: from <= k < |st.saved.inserts| ==> AllMade(env, p, st.saved.inserts[k])
  }

  lemma InsertKeeps<F(!new), S, E>(st: State<F, S>, env: Env<F, S, E>, p: (nat, F) -> bool, from: nat)
    requires Keeps(st, env, p, from)
    ensures Keeps(st.(saved := Insert(st.saved, env).1), env, p, from)
  {
    var after := Insert(st.saved, env).1;
    forall j | 0 <= j < |after.specs| && after.specs[j].Some? ensures MadeFrom(env, p, j, after.specs[j].value) {
      assert MadeFrom(env, p, j, st.saved.specs[j].value);
    }
  }

  lemma BuildKeeps<F(!new), S, E>(i: nat, m: nat, st: State<F, S>, env: Env<F, S, E>, p: (nat, F) -> bool, from: nat)
    requires st.Valid(|st.saved.nodes|) && i < |st.saved.nodes| && m < |st.objs| && st.objs[m].owner == i
    requires Keeps(st, env, p, from)
    ensures Keeps(st.(saved := Build(i, m, env.spec(st.objs[m].fields), st.saved)), env, p, from)
  {
    assert MadeFrom(env, p, i, Spec(env.spec(st.objs[m].fields), None));
  }

  lemma {:induction false} RunKeeps<F(!new), S(!new), E(!new)>(
    frames: seq<Frame<F, S, E>>, m: nat, st: State<F, S>, env: Env<F, S, E>, i: nat, n: nat, p: (nat, F) -> bool,
        from: nat)
    requires st.Valid(n) && Ordered(frames, i, n) && KeepsOwn(frames, i, p) && Keeps(st, env, p, from)
    requires i < n ==> m < |st.objs| && st.objs[m].owner == i
    ensures Keeps(Run(frames, m, st, env, i, n).1, env, p, from)
    decreases |frames|, 0
  {
    if |frames| == 0 {
      InsertKeeps(st, env, p, from);
    } else {
      match frames[0]
      case HookFrame(k, h) =>
        HookRunKeeps(h, k, frames[1..], m, st.(log := st.log + [Enter(k)]), env, [], h.calls, i, n, p, from);
      case LinkFrame(_) =>
        if env.check(st.objs[st.saved.builder[i]].fields).None? {
          BuildKeeps(i, m, st, env, p, from);
          var built := st.(saved := Build(i, m, env.spec(st.objs[m].fields), st.saved));
          RunKeeps(frames[1..], NextRef(st.saved, i), built, env, i + 1, n, p, from);
        }
    }
  }

  lemma {:induction false} HookRunKeeps<F(!new), S(!new), E(!new)>(
    h: Hook<F, S, E>, k: nat, rest: seq<Frame<F, S, E>>, m: nat, st: State<F, S>, env: Env<F, S, E>,
    seen: seq<Outcome<S, E>>, left: nat, i: nat, n: nat, p: (nat, F) -> bool, from: nat)
    requires st.Valid(n) && Ordered(rest, i, n) && KeepsOwn(rest, i, p) && HookKeeps(h, i, p) && Keeps(st, env, p, from)
    requires i < n && m < |st.objs| && st.objs[m].owner == i
    ensures Keeps(RunHook(h, k, rest, m, st, env, seen, left, i, n).1, env, p, from)
    decreases |rest|, 1 + left
  {
    match h.decide(st.objs[m].fields, seen)
    case Return(_) =>
    case Call(renew, fields) =>
      if left > 0 {
        var (handed, objs) := Hand(m, renew, fields, st.objs);
        RunKeeps(rest, handed, st.(objs := objs), env, i, n, p, from);
        var (r, after) := Run(rest, handed, st.(objs := objs), env, i, n);
        HookRunKeeps(h, k, rest, m, after, env, seen + [r], left - 1, i, n, p, from);
      }
  }

  // ----- only checked mutations are written, when hooks edit the mutation in place ------------

  ghost predicate InPlace<F(!new), S(!new), E(!new)>(h: Hook<F, S, E>) {
    forall f, seen :: h.decide(f, seen).Call? ==> !h.decide(f, seen).renew
  }

  /** The specification was made from a mutation that passes the checks. */
  ghost predicate Checked<F(!new), S, E>(env: Env<F, S, E>, s: Spec<S>) {
    exists f :: env.check(f).None? && env.spec(f) == s.content
  }

  ghost predicate AllChecked<F(!new), S, E>(env: Env<F, S, E>, specs: seq<Option<Spec<S>>>) {
    forall j :: 0 <= j < |specs| && specs[j].Some? ==> Checked(env, specs[j].value)
  }

  ghost predicate NewChecked<F(!new), S, E>(env: Env<F, S, E>, saved: Saved<S>, after: Saved<S>) {
    && AllChecked(env, after.specs)
    && forall k :: |saved.inserts| <= k < |after.inserts| ==> AllChecked(env, after.inserts[k])
  }

  lemma InsertChecked<F(!new), S, E>(saved: Saved<S>, env: Env<F, S, E>)
    requires AllChecked(env, saved.specs)
    ensures NewChecked(env, saved, Insert(saved, env).1)
  {
    var after := Insert(saved, env).1;
    forall j | 0 <= j < |after.specs| && after.specs[j].Some? ensures Checked(env, after.specs[j].value) {
      assert Checked(env, saved.specs[j].value);
    }
  }

  lemma BuildChecked<F(!new), S, E>(i: nat, m: nat, f: F, saved: Saved<S>, env: Env<F, S, E>)
    requires saved.Valid(|saved.nodes|) && i < |saved.nodes|
    requires AllChecked(env, saved.specs) && env.check(f).None?
    ensures AllChecked(env, Build(i, m, env.spec(f), saved).specs)
  {
    assert Checked(env, Spec(env.spec(f), None));
  }

  /** In-place hooks replace no mutation: the checked one is the written one, however often they retry. */
  lemma {:induction false} InPlaceWritesChecked<F(!new), S(!new), E(!new)>(
    frames: seq<Frame<F, S, E>>, m: nat, st: State<F, S>, env: Env<F, S, E>, i: nat, n: nat)
    requires st.Valid(n) && Ordered(frames, i, n) && AllHooks(frames, h => InPlace(h))
    requires i < n ==> m == st.saved.builder[i]
    requires AllChecked(env, st.saved.specs)
    ensures var after := Run(frames, m, st, env, i, n).1;
      && NewChecked(env, st.saved, after.saved)
      && after.saved.builder == st.saved.builder && |after.objs| == |st.objs|
    decreases |frames|, 0
  {
    if |frames| == 0 {
      InsertChecked(st.saved, env);
    } else {
      match frames[0]
      case HookFrame(k, h) =>
        HookInPlaceWritesChecked(h, k, frames[1..], m, st.(log := st.log + [Enter(k)]), env, [], h.calls, i, n);
      case LinkFrame(_) =>
        if env.check(st.objs[m].fields).None? {
          BuildChecked(i, m, st.objs[m].fields, st.saved, env);
          var built := st.(saved := Build(i, m, env.spec(st.objs[m].fields), st.saved));
          assert built.saved.builder == st.saved.builder;
          InPlaceWritesChecked(frames[1..], NextRef(st.saved, i), built, env, i + 1, n);
        }
    }
  }

  lemma {:induction false} HookInPlaceWritesChecked<F(!new), S(!new), E(!new)>(
    h: Hook<F, S, E>, k: nat, rest: seq<Frame<F, S, E>>, m: nat, st: State<F, S>, env: Env<F, S, E>,
    seen: seq<Outcome<S, E>>, left: nat, i: nat, n: nat)
    requires st.Valid(n) && Ordered(rest, i, n) && AllHooks(rest, h => InPlace(h)) && InPlace(h)
    requires i < n && m == st.saved.builder[i]
    requires AllChecked(env, st.saved.specs)
    ensures var after := RunHook(h, k, rest, m, st, env, seen, left, i, n).1;
      && NewChecked(env, st.saved, after.saved)
      && after.saved.builder == st.saved.builder && |after.objs| == |st.objs|
    decreases |rest|, 1 + left
  {
    match h.decide(st.objs[m].fields, seen)
    case Return(_) =>
    case Call(renew, fields) =>
      if left > 0 {
        var (handed, objs) := Hand(m, renew, fields, st.objs);
        InPlaceWritesChecked(rest, handed, st.(objs := objs), env, i, n);
        var (r, after) := Run(rest, handed, st.(objs := objs), env, i, n);
        HookInPlaceWritesChecked(h, k, rest, m, after, env, seen + [r], left - 1, i, n);
      }
  }

  // ----- done mutations form a suffix of the builders -----------------------------------------

  ghost predicate SawSuccess<S, E>(seen: seq<Outcome<S, E>>) {
    exists k :: 0 <= k < |seen| && seen[k].Ok?
  }

  lemma SawOneMore<S, E>(seen: seq<Outcome<S, E>>, r: Outcome<S, E>)
    ensures SawSuccess(seen + [r]) <==> SawSuccess(seen) || r.Ok?
  {
    if SawSuccess(seen) {
      var k :| 0 <= k < |seen| && seen[k].Ok?;
      assert (seen + [r])[k].Ok?;
    }
    if r.Ok? {
      assert (seen + [r])[|seen|].Ok?;
    }
  }

  /** A hook that reports success only when one of its calls did; it may fail at any time. */
  ghost predicate Honest<F(!new), S(!new), E(!new)>(h: Hook<F, S, E>) {
    forall f, seen :: |seen| <= h.calls && h.decide(f, seen).Return? && h.decide(f, seen).outcome.Ok? ==>
      SawSuccess(seen)
  }

  /** Some mutation that builder i has or had is marked done. */
  ghost predicate Marked<F>(objs: seq<Mut<F>>, i: nat) {
    exists o :: 0 <= o < |objs| && objs[o].owner == i && objs[o].done
  }

  ghost predicate MarkedSuffix<F>(objs: seq<Mut<F>>, n: nat) {
    forall i: nat, j: nat :: i < j < n && Marked(objs, i) ==> Marked(objs, j)
  }

  /** Marks are never taken back. */
  ghost predicate MarksKept<F>(objs: seq<Mut<F>>, after: seq<Mut<F>>) {
    forall i: nat :: Marked(objs, i) ==> Marked(after, i)
  }

  lemma HandMarks<F>(m: nat, renew: bool, fields: F, objs: seq<Mut<F>>, i: nat)
    requires m < |objs|
    ensures Marked(objs, i) <==> Marked(Hand(m, renew, fields, objs).1, i)
  {
    var after := Hand(m, renew, fields, objs).1;
    if Marked(objs, i) {
      var o :| 0 <= o < |objs| && objs[o].owner == i && objs[o].done;
      assert after[o].done && after[o].owner == i;
    }
    if Marked(after, i) {
      var o :| 0 <= o < |after| && after[o].owner == i && after[o].done;
      assert objs[o].done && objs[o].owner == i;
    }
  }

  lemma HandKeepsMarks<F>(m: nat, renew: bool, fields: F, objs: seq<Mut<F>>, n: nat)
    requires m < |objs| && MarkedSuffix(objs, n)
    ensures var after := Hand(m, renew, fields, objs).1;
      MarkedSuffix(after, n) && MarksKept(objs, after)
  {
    forall j: nat ensures Marked(objs, j) <==> Marked(Hand(m, renew, fields, objs).1, j) {
      HandMarks(m, renew, fields, objs, j);
    }
  }

  lemma FinishMarks<F>(m: nat, objs: seq<Mut<F>>, after: seq<Mut<F>>, j: nat)
    requires m < |objs| && |after| == |objs| && after[m].done && after[m].owner == objs[m].owner
    requires forall o :: 0 <= o < |objs| && o != m ==> after[o] == objs[o]
    ensures Marked(after, j) <==> Marked(objs, j) || j == objs[m].owner
  {
    if Marked(objs, j) {
      var o :| 0 <= o < |objs| && objs[o].owner == j && objs[o].done;
      assert after[o].done && after[o].owner == j;
    }
  }

  lemma FinishKeepsMarks<F, S>(i: nat, m: nat, st: State<F, S>, n: nat)
    requires st.Valid(n) && i < n && m < |st.objs| && st.objs[m].owner == i && st.saved.nodes[i].Some?
    requires MarkedSuffix(st.objs, n) && (i + 1 < n ==> Marked(st.objs, i + 1))
    ensures var after := Finish(i, m, st);
      MarkedSuffix(after.objs, n) && MarksKept(st.objs, after.objs) && Marked(after.objs, i)
  {
    var after := Finish(i, m, st);
    forall j: nat ensures Marked(after.objs, j) <==> Marked(st.objs, j) || j == i {
      FinishMarks(m, st.objs, after.objs, j);
    }
  }

  /** What a link adds, when its check passes. */
  lemma LinkDone<F, S, E>(rest: seq<Frame<F, S, E>>, m: nat, st: State<F, S>, env: Env<F, S, E>, i: nat, n: nat)
    requires st.Valid(n) && i < n && Ordered(rest, i + 1, n) && m < |st.objs| && st.objs[m].owner == i
    requires env.check(st.objs[st.saved.builder[i]].fields).None?
    requires var built := st.(saved := Build(i, m, env.spec(st.objs[m].fields), st.saved));
      var (r, after) := Run(rest, NextRef(st.saved, i), built, env, i + 1, n);
      SuffixKept(st.objs, after.objs, r.Ok? && i + 1 < n, i + 1, n)
    ensures var (r, after) := RunLink(rest, m, st, env, i, n);
      SuffixKept(st.objs, after.objs, r.Ok?, i, n)
  {
    var built := st.(saved := Build(i, m, env.spec(st.objs[m].fields), st.saved));
    var (r, after) := Run(rest, NextRef(st.saved, i), built, env, i + 1, n);
    if r.Ok? {
      FinishKeepsMarks(i, m, after, n);
    }
  }

  /** The done builders stay done and a suffix, and builder i is done on success. */
  ghost predicate SuffixKept<F>(objs: seq<Mut<F>>, after: seq<Mut<F>>, success: bool, i: nat, n: nat) {
    MarkedSuffix(after, n) && MarksKept(objs, after) && (success ==> Marked(after, i))
  }

  /** A call after those seen. */
  lemma CallKeepsSuffix<F, S, E>(
    objs: seq<Mut<F>>, handed: seq<Mut<F>>, after: seq<Mut<F>>, seen: seq<Outcome<S, E>>, r: Outcome<S, E>, i: nat,
    n: nat)
    requires MarksKept(objs, handed) && SuffixKept(handed, after, r.Ok?, i, n)
    requires SawSuccess(seen) ==> Marked(objs, i)
    ensures SuffixKept(objs, after, SawSuccess(seen + [r]), i, n)
  {
    SawOneMore(seen, r);
  }

  lemma SuffixKeptTwice<F>(
    objs: seq<Mut<F>>, mid: seq<Mut<F>>, after: seq<Mut<F>>, success: bool, saw: bool, i: nat, n: nat)
    requires SuffixKept(objs, mid, saw, i, n) && SuffixKept(mid, after, success, i, n)
    ensures SuffixKept(objs, after, success, i, n)
  {
  }

  lemma {:induction false} DoneIsSuffix<F(!new), S(!new), E(!new)>(
    frames: seq<Frame<F, S, E>>, m: nat, st: State<F, S>, env: Env<F, S, E>, i: nat, n: nat)
    requires st.Valid(n) && Ordered(frames, i, n) && AllHooks(frames, h => Honest(h))
    requires i < n ==> m < |st.objs| && st.objs[m].owner == i
    requires MarkedSuffix(st.objs, n)
    ensures var (r, after) := Run(frames, m, st, env, i, n);
      SuffixKept(st.objs, after.objs, r.Ok? && i < n, i, n)
    decreases |frames|, 0
  {
    if |frames| == 0 {
    } else {
      match frames[0]
      case HookFrame(k, h) =>
        HookDoneIsSuffix(h, k, frames[1..], m, st.(log := st.log + [Enter(k)]), env, [], h.calls, i, n);
      case LinkFrame(_) =>
        if env.check(st.objs[st.saved.builder[i]].fields).None? {
          var built := st.(saved := Build(i, m, env.spec(st.objs[m].fields), st.saved));
          DoneIsSuffix(frames[1..], NextRef(st.saved, i), built, env, i + 1, n);
          LinkDone(frames[1..], m, st, env, i, n);
        }
    }
  }

  lemma {:induction false} HookDoneIsSuffix<F(!new), S(!new), E(!new)>(
    h: Hook<F, S, E>, k: nat, rest: seq<Frame<F, S, E>>, m: nat, st: State<F, S>, env: Env<F, S, E>,
    seen: seq<Outcome<S, E>>, left: nat, i: nat, n: nat)
    requires st.Valid(n) && Ordered(rest, i, n) && AllHooks(rest, h => Honest(h)) && Honest(h)
    requires i < n && m < |st.objs| && st.objs[m].owner == i && |seen| + left == h.calls
    requires MarkedSuffix(st.objs, n) && (SawSuccess(seen) ==> Marked(st.objs, i))
    ensures var (r, after) := RunHook(h, k, rest, m, st, env, seen, left, i, n);
      SuffixKept(st.objs, after.objs, r.Ok?, i, n)
    decreases |rest|, 1 + left
  {
    match h.decide(st.objs[m].fields, seen)
    case Return(_) =>
    case Call(renew, fields) =>
      if left > 0 {
        var (handed, objs) := Hand(m, renew, fields, st.objs);
        HandKeepsMarks(m, renew, fields, st.objs, n);
        DoneIsSuffix(rest, handed, st.(objs := objs), env, i, n);
        var (r, after) := Run(rest, handed, st.(objs := objs), env, i, n);
        CallKeepsSuffix(st.objs, objs, after.objs, seen, r, i, n);
        HookDoneIsSuffix(h, k, rest, m, after, env, seen + [r], left - 1, i, n);
        var (q, last) := RunHook(h, k, rest, m, after, env, seen + [r], left - 1, i, n);
        SuffixKeptTwice(st.objs, after.objs, last.objs, q.Ok?, SawSuccess(seen + [r]), i, n);
      }
  }

  // ----- on success every node carries the identifier the store assigned ----------------------

  ghost predicate LastSucceeded<S, E>(seen: seq<Outcome<S, E>>) {
    |seen| > 0 && seen[|seen| - 1].Ok?
  }

  /** A hook that reports success only right after a successful call. */
  ghost predicate LastCounts<F(!new), S(!new), E(!new)>(h: Hook<F, S, E>) {
    forall f, seen :: |seen| <= h.calls && h.decide(f, seen).Return? && h.decide(f, seen).outcome.Ok? ==>
      LastSucceeded(seen)
  }

  /**
   * Builder j is finished: its node shows its specification's identifier, and its mutation is done and points
   * at it.
   */
  ghost predicate Finished<F, S>(st: State<F, S>, j: nat)
    requires st.Valid(|st.saved.nodes|) && j < |st.saved.nodes|
  {
    var (node, spec, mut) := (st.saved.nodes[j], st.saved.specs[j], st.objs[st.saved.builder[j]]);
    && node.Some? && spec.Some?
    && node.value == Node(spec.value.content, if spec.value.id.Some? then spec.value.id.value else 0)
    && mut.done && mut.id == Some(node.value.id)
  }

  /** The specifications hold what the store answered to the last insert. */
  ghost predicate Answered<F, S, E>(saved: Saved<S>, env: Env<F, S, E>) {
    && |saved.inserts| > 0 && env.store(saved.inserts).Inserted?
    && (forall j: nat :: j < |saved.specs| && saved.specs[j].Some? ==>
          saved.specs[j].value.id == env.store(saved.inserts).ids(j))
  }

  ghost predicate Completed<F, S, E>(st: State<F, S>, env: Env<F, S, E>, i: nat, n: nat)
    requires st.Valid(n)
  {
    Answered(st.saved, env) && forall j :: i <= j < n ==> Finished(st, j)
  }

  /** What a link adds, when its check passes. */
  lemma LinkCompletes<F, S, E>(rest: seq<Frame<F, S, E>>, m: nat, st: State<F, S>, env: Env<F, S, E>, i: nat, n: nat)
    requires st.Valid(n) && i < n && Ordered(rest, i + 1, n) && m < |st.objs| && st.objs[m].owner == i
    requires env.check(st.objs[st.saved.builder[i]].fields).None?
    requires var built := st.(saved := Build(i, m, env.spec(st.objs[m].fields), st.saved));
      var (r, after) := Run(rest, NextRef(st.saved, i), built, env, i + 1, n);
      r.Ok? ==> Completed(after, env, i + 1, n)
    ensures var (r, after) := RunLink(rest, m, st, env, i, n);
      r.Ok? ==> Completed(after, env, i, n)
  {
    var built := st.(saved := Build(i, m, env.spec(st.objs[m].fields), st.saved));
    var (r, after) := Run(rest, NextRef(st.saved, i), built, env, i + 1, n);
    BelowKept(rest, NextRef(st.saved, i), built, env, i + 1, n);
    if r.Ok? {
      FinishCompletes(i, m, after, env, n);
    }
  }

  lemma {:induction false} SuccessCompletes<F(!new), S(!new), E(!new)>(
    frames: seq<Frame<F, S, E>>, m: nat, st: State<F, S>, env: Env<F, S, E>, i: nat, n: nat)
    requires st.Valid(n) && Ordered(frames, i, n) && AllHooks(frames, h => LastCounts(h))
    requires i < n ==> m < |st.objs| && st.objs[m].owner == i
    ensures var (r, after) := Run(frames, m, st, env, i, n);
      r.Ok? ==> Completed(after, env, i, n)
    decreases |frames|, 0
  {
    if |frames| == 0 {
    } else {
      match frames[0]
      case HookFrame(k, h) =>
        HookSuccessCompletes(h, k, frames[1..], m, st.(log := st.log + [Enter(k)]), env, [], h.calls, i, n);
      case LinkFrame(_) =>
        if env.check(st.objs[st.saved.builder[i]].fields).None? {
          var built := st.(saved := Build(i, m, env.spec(st.objs[m].fields), st.saved));
          SuccessCompletes(frames[1..], NextRef(st.saved, i), built, env, i + 1, n);
          LinkCompletes(frames[1..], m, st, env, i, n);
        }
    }
  }

  lemma CompletedLogged<F, S, E>(st: State<F, S>, env: Env<F, S, E>, i: nat, n: nat, e: Event)
    requires st.Valid(n) && Completed(st, env, i, n)
    ensures Completed(st.(log := st.log + [e]), env, i, n)
  {
    forall j | i <= j < n ensures Finished(st.(log := st.log + [e]), j) {
      assert Finished(st, j);
    }
  }

  lemma FinishCompletes<F, S, E>(i: nat, m: nat, st: State<F, S>, env: Env<F, S, E>, n: nat)
    requires st.Valid(n) && i < n && m == st.saved.builder[i] && Completed(st, env, i + 1, n)
    requires st.saved.specs[i].Some? && st.saved.nodes[i] == Some(Node(st.saved.specs[i].value.content, 0))
    ensures Completed(Finish(i, m, st), env, i, n)
  {
    var after := Finish(i, m, st);
    forall j | i <= j < n ensures Finished(after, j) {
      if j > i {
        assert Finished(st, j);
        assert st.objs[st.saved.builder[j]].owner == j;
      }
    }
  }

  lemma {:induction false} HookSuccessCompletes<F(!new), S(!new), E(!new)>(
    h: Hook<F, S, E>, k: nat, rest: seq<Frame<F, S, E>>, m: nat, st: State<F, S>, env: Env<F, S, E>,
    seen: seq<Outcome<S, E>>, left: nat, i: nat, n: nat)
    requires st.Valid(n) && Ordered(rest, i, n) && AllHooks(rest, h => LastCounts(h)) && LastCounts(h)
    requires i < n && m < |st.objs| && st.objs[m].owner == i && |seen| + left == h.calls
    requires LastSucceeded(seen) ==> Completed(st, env, i, n)
    ensures var (r, after) := RunHook(h, k, rest, m, st, env, seen, left, i, n);
      r.Ok? ==> Completed(after, env, i, n)
    decreases |rest|, 1 + left
  {
    match h.decide(st.objs[m].fields, seen)
    case Return(r) =>
      if r.Ok? {
        CompletedLogged(st, env, i, n, Leave(k));
      }
    case Call(renew, fields) =>
      if left > 0 {
        var (handed, objs) := Hand(m, renew, fields, st.objs);
        SuccessCompletes(rest, handed, st.(objs := objs), env, i, n);
        var (r, after) := Run(rest, handed, st.(objs := objs), env, i, n);
        HookSuccessCompletes(h, k, rest, m, after, env, seen + [r], left - 1, i, n);
      }
  }
}
