/** The laws of mutator chains, stated for a whole bulk creation and for a whole single one. */
module CreationLaws {
  import opened Prelude
  import opened HookChain
  import opened HookLaws
  import opened SaveLaws
  import opened Creation

  ghost predicate EveryHook<F(!new), S(!new), E(!new)>(builders: seq<Builder<F, S, E>>, p: Hook<F, S, E> -> bool) {
    forall b, k :: 0 <= b < |builders| && 0 <= k < |builders[b].hooks| ==> p(builders[b].hooks[k])
  }

  lemma {:induction false} ChainHooks<F(!new), S(!new),
      E(!new)>(builders: seq<Builder<F, S, E>>, p: Hook<F, S, E> -> bool, i: nat)
    requires i <= |builders| && EveryHook(builders, p)
    ensures AllHooks(Chain(builders, i), p)
    decreases |builders| - i
  {
    if i == |builders| {
    } else {
      ChainHooks(builders, p, i + 1);
    }
  }

  function RunBulk<F, S, E>(builders: seq<Builder<F, S, E>>, env: Env<F, S, E>): (r: (Outcome<S, E>, State<F, S>))
    requires builders != []
    ensures r.1.Valid(|builders|)
  {
    ChainOrdered(builders, 0);
    Run(Chain(builders, 0), 0, Start(builders), env, 0, |builders|)
  }

  /** A property of each builder's contents that it starts with and that its own hooks keep. */
  ghost predicate OwnProperty<F(!new), S(!new), E(!new)>(builders: seq<Builder<F, S, E>>, p: (nat, F) -> bool) {
    forall b :: 0 <= b < |builders| ==>
      p(b, builders[b].fields) && forall k :: 0 <= k < |builders[b].hooks| ==> HookKeeps(builders[b].hooks[k], b, p)
  }

  lemma {:induction false} HooksKeepOwn<F(!new), S(!new), E(!new)>(
    hooks: seq<Hook<F, S, E>>, rest: seq<Frame<F, S, E>>, i: nat, from: nat, p: (nat, F) -> bool)
    requires forall k :: 0 <= k < |hooks| ==> HookKeeps(hooks[k], i, p)
    requires KeepsOwn(rest, i, p)
    ensures KeepsOwn(LabelledFrames(hooks, from) + rest, i, p)
  {
    var frames := LabelledFrames(hooks, from) + rest;
    if |hooks| == 0 {
      assert frames == rest;
    } else {
      HooksKeepOwn(hooks[1..], rest, i, from + 1, p);
      assert frames[1..] == LabelledFrames(hooks[1..], from + 1) + rest;
    }
  }

  lemma {:induction false} ChainKeepsOwn<F(!new), S(!new), E(!new)>(
    builders: seq<Builder<F, S, E>>, i: nat, p: (nat, F) -> bool)
    requires i <= |builders| && OwnProperty(builders, p)
    ensures KeepsOwn(Chain(builders, i), i, p)
    decreases |builders| - i
  {
    if i == |builders| {
    } else {
      ChainKeepsOwn(builders, i + 1, p);
      var link := [LinkFrame(i)] + Chain(builders, i + 1);
      assert link[1..] == Chain(builders, i + 1);
      HooksKeepOwn(builders[i].hooks, link, i, 0, p);
      assert Chain(builders, i) == LabelledFrames(builders[i].hooks, 0) + link;
    }
  }

  /**
   * Whatever hooks do, BatchCreate is only ever given all specifications, one per builder, and the one
   * at position j is made from contents of builder j: it has every property that builder j's contents
   * had at first and that builder j's hooks keep.
   */
  lemma BulkInsertsAll<F(!new), S(!new), E(!new)>(
    builders: seq<Builder<F, S, E>>, env: Env<F, S, E>, p: (nat, F) -> bool)
    requires builders != [] && OwnProperty(builders, p)
    ensures var inserts := RunBulk(builders, env).1.saved.inserts;
      forall k :: 0 <= k < |inserts| ==>
        |inserts[k]| == |builders| && Full(inserts[k]) && AllMade(env, p, inserts[k])
  {
    ChainOrdered(builders, 0);
    ChainKeepsOwn(builders, 0, p);
    InsertsAreFull(Chain(builders, 0), 0, Start(builders), env, 0, |builders|);
    RunKeeps(Chain(builders, 0), 0, Start(builders), env, 0, |builders|, p, 0);
  }

  /** With in-place hooks every specification inserted was made from a mutation that passed the checks. */
  lemma BulkWritesChecked<F(!new), S(!new), E(!new)>(builders: seq<Builder<F, S, E>>, env: Env<F, S, E>)
    requires builders != [] && EveryHook(builders, h => InPlace(h))
    ensures forall k :: 0 <= k < |RunBulk(builders, env).1.saved.inserts| ==>
      AllChecked(env, RunBulk(builders, env).1.saved.inserts[k])
  {
    ChainOrdered(builders, 0);
    ChainHooks(builders, h => InPlace(h), 0);
    InPlaceWritesChecked(Chain(builders, 0), 0, Start(builders), env, 0, |builders|);
  }

  /** With in-place hooks each builder keeps its only mutation, so it is marked exactly when that one is done. */
  lemma InPlaceMarks<F(!new), S(!new), E(!new)>(builders: seq<Builder<F, S, E>>, env: Env<F, S, E>, j: nat)
    requires builders != [] && EveryHook(builders, h => InPlace(h)) && j < |builders|
    ensures var after := RunBulk(builders, env).1;
      after.saved.builder[j] == j && (Marked(after.objs, j) <==> after.objs[j].done)
  {
    ChainOrdered(builders, 0);
    ChainHooks(builders, h => InPlace(h), 0);
    InPlaceWritesChecked(Chain(builders, 0), 0, Start(builders), env, 0, |builders|);
    var after := RunBulk(builders, env).1;
    assert forall k :: 0 <= k < |builders| ==> after.objs[after.saved.builder[k]].owner == k;
  }

  /** With honest hooks the builders with a mutation marked done are a suffix, and all of them on success. */
  lemma BulkDoneSuffix<F(!new), S(!new), E(!new)>(builders: seq<Builder<F, S, E>>, env: Env<F, S, E>)
    requires builders != [] && EveryHook(builders, h => Honest(h))
    ensures var (r, after) := RunBulk(builders, env);
      && MarkedSuffix(after.objs, |builders|)
      && (r.Ok? ==> forall j :: 0 <= j < |builders| ==> Marked(after.objs, j))
  {
    ChainOrdered(builders, 0);
    ChainHooks(builders, h => Honest(h), 0);
    DoneIsSuffix(Chain(builders, 0), 0, Start(builders), env, 0, |builders|);
  }

  /** On success nodes[j].ID is the identifier stored in specs[j], which is the store's last answer for it. */
  lemma BulkIdentifiers<F(!new), S(!new), E(!new)>(builders: seq<Builder<F, S, E>>, env: Env<F, S, E>, j: nat)
    requires builders != [] && EveryHook(builders, h => LastCounts(h)) && j < |builders|
    requires RunBulk(builders, env).0.Ok?
    ensures var after := RunBulk(builders, env).1;
      && Finished(after, j) && env.store(after.saved.inserts).Inserted?
      && after.saved.nodes[j].value.id ==
           (match env.store(after.saved.inserts).ids(j) case Some(id) => id case None => 0)
  {
    ChainOrdered(builders, 0);
    ChainHooks(builders, h => LastCounts(h), 0);
    SuccessCompletes(Chain(builders, 0), 0, Start(builders), env, 0, |builders|);
    assert Finished(RunBulk(builders, env).1, j);
  }

  // ----- hooks that call once ----------------------------------------------------------------

  function OwnThrough<F, S, E>(hooks: seq<Hook<F, S, E>>, own: Option<F>, f: F): Option<F> {
    if |hooks| == 0 then own else OwnThrough(hooks[1..], OwnAfter(hooks[0], own, f), Edit(hooks[0], f))
  }

  /** What the builder's own mutation holds by then: the edits up to the first hook that replaced it. */
  function Kept<F, S, E>(hooks: seq<Hook<F, S, E>>, f: F): F {
    OwnOr(OwnThrough(hooks, None, f), Edited(hooks, f))
  }

  function Contents<F, S, E>(builders: seq<Builder<F, S, E>>): seq<F> {
    seq(|builders|, j requires 0 <= j < |builders| => Edited(builders[j].hooks, builders[j].fields))
  }

  function KeptContents<F, S, E>(builders: seq<Builder<F, S, E>>): seq<F> {
    seq(|builders|, j requires 0 <= j < |builders| => Kept(builders[j].hooks, builders[j].fields))
  }

  function Fields<F, S, E>(builders: seq<Builder<F, S, E>>): seq<F> {
    seq(|builders|, j requires 0 <= j < |builders| => builders[j].fields)
  }

  lemma {:induction false} ThroughHooks<F, S, E>(
    hooks: seq<Hook<F, S, E>>, from: nat, rest: seq<Frame<F, S, E>>, own: Option<F>, f: F, fields: seq<F>, i: nat)
    ensures var frames := LabelledFrames(hooks, from) + rest;
      && Handed(frames, f, fields, i) == Handed(rest, Edited(hooks, f), fields, i)
      && Judged(frames, own, f, fields, i) == Judged(rest, OwnThrough(hooks, own, f), Edited(hooks, f), fields, i)
  {
    var frames := LabelledFrames(hooks, from);
    if |hooks| == 0 {
      assert frames + rest == rest;
    } else {
      assert (frames + rest)[1..] == LabelledFrames(hooks[1..], from + 1) + rest;
      ThroughHooks(hooks[1..], from + 1, rest, OwnAfter(hooks[0], own, f), Edit(hooks[0], f), fields, i);
    }
  }

  lemma FromHere<F>(s: seq<F>, i: nat)
    requires i < |s|
    ensures s[i..] == [s[i]] + s[i + 1..]
  {
  }

  lemma ChainFrom<F, S, E>(builders: seq<Builder<F, S, E>>, i: nat)
    requires i < |builders|
    ensures Chain(builders, i) == LabelledFrames(builders[i].hooks, 0) + ([LinkFrame(i)] + Chain(builders, i + 1))
  {
    assert HookFrames(builders[i].hooks) == LabelledFrames(builders[i].hooks, 0);
  }

  lemma OnLink<F, S, E>(rest: seq<Frame<F, S, E>>, own: Option<F>, f: F, fields: seq<F>, i: nat)
    ensures var link, next := [LinkFrame(i)] + rest, NextFields(fields, f, i);
      && Handed(link, f, fields, i) == [f] + Handed(rest, next, fields, i + 1)
      && Judged(link, own, f, fields, i) == [OwnOr(own, f)] + Judged(rest, None, next, fields, i + 1)
  {
    assert ([LinkFrame(i)] + rest)[1..] == rest;
  }

  lemma {:induction false} OnChain<F, S, E>(builders: seq<Builder<F, S, E>>, i: nat)
    requires i < |builders|
    ensures Handed(Chain(builders, i), builders[i].fields, Fields(builders), i) == Contents(builders)[i..]
    ensures Judged(Chain(builders, i), None, builders[i].fields, Fields(builders), i) == KeptContents(builders)[i..]
    decreases |builders| - i
  {
    var hooks, f, rest := builders[i].hooks, builders[i].fields, Chain(builders, i + 1);
    ChainFrom(builders, i);
    ThroughHooks(hooks, 0, [LinkFrame(i)] + rest, None, f, Fields(builders), i);
    OnLink(rest, OwnThrough(hooks, None, f), Edited(hooks, f), Fields(builders), i);
    FromHere(Contents(builders), i);
    FromHere(KeptContents(builders), i);
    if i + 1 < |builders| {
      OnChain(builders, i + 1);
    }
  }

  predicate AllPass<F, E>(check: F -> Option<E>, contents: seq<F>) {
    forall j :: 0 <= j < |contents| ==> check(contents[j]).None?
  }

  /** Contents j are the first whose check fails. */
  ghost predicate FailsFirst<F, E>(check: F -> Option<E>, contents: seq<F>, j: int) {
    0 <= j < |contents| && check(contents[j]).Some? && AllPass(check, contents[..j])
  }

  lemma {:induction false} FirstBadIs<F, E>(check: F -> Option<E>, contents: seq<F>)
    ensures FirstBad(check, contents).None? <==> AllPass(check, contents)
    ensures forall j :: FailsFirst(check, contents, j) ==> FirstBad(check, contents) == check(contents[j])
  {
    if |contents| == 0 {
    } else {
      FirstBadIs(check, contents[1..]);
      assert contents == [contents[0]] + contents[1..];
      forall j | FailsFirst(check, contents, j)
        ensures FirstBad(check, contents) == check(contents[j])
      {
        if j > 0 {
          assert contents[..j][0] == contents[0];
          assert contents[1..][..j - 1] == contents[..j][1..];
          assert FailsFirst(check, contents[1..], j - 1);
        }
      }
    }
  }

  /** What a bulk creation does when its links check `kept` and write `written`. */
  ghost predicate BulkDoes<F(!new), S,
      E>(env: Env<F, S, E>, kept: seq<F>, written: seq<F>, r: Outcome<S, E>, after: State<F, S>)
    requires after.Valid(|written|)
  {
    && after.saved.inserts == (if AllPass(env.check, kept) then [Specs(env, written)] else [])
    && (forall j :: FailsFirst(env.check, kept, j) ==> r == Err(FromCheck(env.check(kept[j]).value)))
    && (AllPass(env.check, kept) ==>
          match env.store([Specs(env, written)])
          case Inserted(_) => r.Ok?
          case Rejected(constraint, e) => r == Err(if constraint then Constraint(e) else Refused(e)))
    && (r.Ok? ==> Completed(after, env, 0, |written|))
    && (r.Err? ==> forall o :: 0 <= o < |after.objs| ==> !after.objs[o].done)
  }

  /**
   * With hooks that call once, each link checks what its builder's own mutation holds and writes what
   * it was handed.  When some check fails nothing is inserted and the first failing builder's error
   * comes back; otherwise there is exactly one insert, of every specification in builder order, and
   * the outcome is the store's.  Either all mutations are done or none.
   */
  lemma BulkExact<F(!new), S(!new), E(!new)>(builders: seq<Builder<F, S, E>>, env: Env<F, S, E>)
    requires builders != [] && EveryHook(builders, h => CallsOnce(h))
    ensures var (r, after) := RunBulk(builders, env);
      BulkDoes(env, KeptContents(builders), Contents(builders), r, after)
  {
    var n := |builders|;
    var st := Start(builders);
    ChainOrdered(builders, 0);
    ChainHooks(builders, h => CallsOnce(h), 0);
    assert st.objs[0].fields == builders[0].fields;
    assert Tracks(st, 0, None, Fields(builders), 0, n);
    ExactRun(Chain(builders, 0), 0, None, st, env, Fields(builders), 0, n);
    OnChain(builders, 0);
    assert Contents(builders)[0..] == Contents(builders) && KeptContents(builders)[0..] == KeptContents(builders);
    FirstBadIs(env.check, KeptContents(builders));
    ExactFromStart(builders, env, KeptContents(builders), Contents(builders));
  }

  lemma ExactFromStart<F(!new), S(!new), E(!new)>(
    builders: seq<Builder<F, S, E>>, env: Env<F, S, E>, kept: seq<F>, written: seq<F>)
    requires |builders| == |written| > 0
    requires FirstBad(env.check, kept).None? <==> AllPass(env.check, kept)
    requires forall j :: FailsFirst(env.check, kept, j) ==> FirstBad(env.check, kept) == env.check(kept[j])
    requires var (r, after) := RunBulk(builders, env); Exact(Start(builders), env, kept, written, 0, |builders|, r,
        after)
    ensures var (r, after) := RunBulk(builders, env); BulkDoes(env, kept, written, r, after)
  {
    var st := Start(builders);
    assert st.saved.specs[..0] + Specs(env, written) == Specs(env, written);
    assert [] + [Specs<F, S, E>(env, written)] == [Specs(env, written)];
  }

  ghost predicate WritesChecked<F(!new), S, E>(env: Env<F, S, E>, saved: Saved<S>) {
    forall k :: 0 <= k < |saved.inserts| ==> AllChecked(env, saved.inserts[k])
  }

  /** Contents that give the same specification get the same verdict. */
  ghost predicate SpecsDecide<F(!new), S, E>(env: Env<F, S, E>) {
    forall f, g :: env.spec(f) == env.spec(g) ==> env.check(f) == env.check(g)
  }

  lemma SpecsChecked<F(!new), S, E>(env: Env<F, S, E>, contents: seq<F>)
    ensures AllPass(env.check, contents) ==> AllChecked(env, Specs(env, contents))
    ensures SpecsDecide(env) && AllChecked(env, Specs(env, contents)) ==> AllPass(env.check, contents)
  {
    var specs := Specs(env, contents);
    assert forall j :: 0 <= j < |contents| ==> specs[j] == Some(Spec(env.spec(contents[j]), None));
    forall j | 0 <= j < |contents| && env.check(contents[j]).None?
      ensures Checked(env, specs[j].value)
    {
    }
    if SpecsDecide(env) && AllChecked(env, specs) {
      forall j | 0 <= j < |contents| ensures env.check(contents[j]).None? {
        assert Checked(env, specs[j].value);
      }
    }
  }

  /**
   * When exactly a bulk creation writes only what checked contents would give: unless all builders
   * keep contents that pass, while some link is handed contents that give something else.
   */
  lemma UncheckedWrites<F(!new), S(!new), E(!new)>(builders: seq<Builder<F, S, E>>, env: Env<F, S, E>)
    requires builders != [] && EveryHook(builders, h => CallsOnce(h))
    ensures var kept, written := KeptContents(builders), Contents(builders);
      var saved := RunBulk(builders, env).1.saved;
      && (WritesChecked(env, saved) <==> (AllPass(env.check, kept) ==> AllChecked(env, Specs(env, written))))
      && (SpecsDecide(env) ==>
            (WritesChecked(env, saved) <==> (AllPass(env.check, kept) ==> AllPass(env.check, written))))
  {
    BulkExact(builders, env);
    SpecsChecked(env, Contents(builders));
    var saved := RunBulk(builders, env).1.saved;
    if AllPass(env.check, KeptContents(builders)) {
      assert saved.inserts[0] == Specs(env, Contents(builders));
    }
  }

  lemma {:induction false} InPlaceKeeps<F(!new), S(!new), E(!new)>(hooks: seq<Hook<F, S, E>>, f: F)
    requires forall k :: 0 <= k < |hooks| ==> InPlace(hooks[k])
    ensures OwnThrough(hooks, None, f).None? && Kept(hooks, f) == Edited(hooks, f)
  {
    if |hooks| == 0 {
    } else {
      InPlaceKeeps(hooks[1..], Edit(hooks[0], f));
    }
  }

  /** When the hooks also edit in place, what is checked is what is written. */
  lemma InPlaceExact<F(!new), S(!new), E(!new)>(builders: seq<Builder<F, S, E>>, env: Env<F, S, E>)
    requires builders != [] && EveryHook(builders, h => CallsOnce(h)) && EveryHook(builders, h => InPlace(h))
    ensures KeptContents(builders) == Contents(builders)
    ensures var (r, after) := RunBulk(builders, env);
      BulkDoes(env, Contents(builders), Contents(builders), r, after)
  {
    BulkExact(builders, env);
    forall j | 0 <= j < |builders| ensures KeptContents(builders)[j] == Contents(builders)[j] {
      InPlaceKeeps(builders[j].hooks, builders[j].fields);
    }
    assert KeptContents(builders) == Contents(builders);
  }

  // ----- no hooks at all ---------------------------------------------------------------------

  function Bare<F, S, E>(contents: seq<F>): seq<Builder<F, S, E>> {
    seq(|contents|, j requires 0 <= j < |contents| => Builder(contents[j], []))
  }

  /** What the exec step alone inserts for a mutation with these contents. */
  function ExecInserts<F, S, E>(f: F, env: Env<F, S, E>): seq<seq<Option<Spec<S>>>> {
    RunExec(0, Start<F, S, E>([Builder(f, [])]), env).1.saved.inserts
  }

  lemma ExecInsertsIs<F, S, E>(f: F, env: Env<F, S, E>)
    ensures ExecInserts(f, env) == if env.check(f).None? then [Specs(env, [f])] else []
  {
    var st := Start<F, S, E>([Builder(f, [])]);
    assert st.objs[0].fields == f && st.saved.builder[0] == 0;
    assert st.objs[0 := st.objs[0]] == st.objs;
    assert st.saved.specs[0 := Some(Spec(env.spec(f), None))] == Specs(env, [f]);
  }

  lemma BareInserts<F(!new), S(!new), E(!new)>(contents: seq<F>, env: Env<F, S, E>)
    requires contents != []
    ensures RunBulk(Bare(contents), env).1.saved.inserts ==
      if AllPass(env.check, contents) then [Specs(env, contents)] else []
  {
    var builders := Bare<F, S, E>(contents);
    assert Contents(builders) == contents && KeptContents(builders) == contents;
    BulkExact(builders, env);
  }

  /** A hook-free bulk creation inserts what the exec steps of its builders would, at once, or nothing. */
  lemma HookFreeBulk<F(!new), S(!new), E(!new)>(contents: seq<F>, env: Env<F, S, E>)
    requires contents != []
    ensures var inserts := RunBulk(Bare(contents), env).1.saved.inserts;
      && (inserts != [] <==> forall j :: 0 <= j < |contents| ==> ExecInserts(contents[j], env) != [])
      && (inserts != [] ==> |inserts| == 1 && |inserts[0]| == |contents|)
      && (inserts != [] ==> forall j :: 0 <= j < |contents| ==> ExecInserts(contents[j], env) == [[inserts[0][j]]])
  {
    BareInserts(contents, env);
    forall j | 0 <= j < |contents|
      ensures ExecInserts(contents[j], env) == if env.check(contents[j]).None? then [[Specs(env, contents)[j]]] else []
    {
      ExecInsertsIs(contents[j], env);
      assert Specs(env, [contents[j]]) == [Specs(env, contents)[j]];
    }
  }
}
