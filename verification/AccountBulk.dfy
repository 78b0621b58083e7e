/** Accounts: creating many without hooks reaches the store exactly when creating each alone would. */
module AccountBulk {
  import opened Prelude
  import opened AccountRow
  import opened AccountCreate
  import opened HookChain
  import opened SaveLaws
  import opened Creation
  import opened CreationLaws

  type Store = seq<seq<Option<Spec<CreateSpec>>>> -> Reply<CreateError>

  function AccountEnv(rt: Runtime, store: Store): Env<Mutation, CreateSpec, CreateError> {
    Env(m => Check(m, rt), m => SpecOf(m), store)
  }

  /** The mutation after defaults(), whether or not it returned an error. */
  function Defaulted(m: Mutation, rt: Runtime): Mutation {
    Defaults(m, rt, DEFAULTED).0
  }

  /** The mutations AccountCreateBulk.Save starts from: the errors of defaults() are dropped. */
  function AllDefaulted(ms: seq<Mutation>, rt: Runtime): seq<Mutation> {
    seq(|ms|, j requires 0 <= j < |ms| => Defaulted(ms[j], rt))
  }

  function BulkInserts(ms: seq<Mutation>, rt: Runtime, store: Store): seq<seq<Option<Spec<CreateSpec>>>> {
    if ms == [] then [] else RunBulk(Bare(AllDefaulted(ms, rt)), AccountEnv(rt, store)).1.saved.inserts
  }

  /** AccountCreate.Save without hooks: an error of defaults() ends it, otherwise the exec step runs. */
  function SingleInserts(m: Mutation, rt: Runtime, store: Store): seq<seq<Option<Spec<CreateSpec>>>> {
    if Defaults(m, rt, DEFAULTED).1.Some? then [] else ExecInserts(Defaulted(m, rt), AccountEnv(rt, store))
  }

  /** Dropping the error of defaults() changes nothing: the exec step would not have inserted either. */
  lemma DefaultsErrorHarmless(m: Mutation, rt: Runtime, store: Store)
    ensures SingleInserts(m, rt, store) == ExecInserts(Defaulted(m, rt), AccountEnv(rt, store))
  {
    if Defaults(m, rt, DEFAULTED).1.Some? {
      FailedDefaultsFailCheck(m, rt);
      ExecInsertsIs(Defaulted(m, rt), AccountEnv(rt, store));
    }
  }

  /**
   * Bulk creation without hooks reaches the insert exactly when every builder alone would, and then
   * its one insert carries the specifications of the single saves, in order.
   */
  lemma BulkRefinesSingles(ms: seq<Mutation>, rt: Runtime, store: Store)
    requires ms != []
    ensures var inserts := BulkInserts(ms, rt, store);
      && (inserts != [] <==> forall j :: 0 <= j < |ms| ==> SingleInserts(ms[j], rt, store) != [])
      && (inserts != [] ==> |inserts| == 1 && |inserts[0]| == |ms|)
      && (inserts != [] ==> forall j :: 0 <= j < |ms| ==> SingleInserts(ms[j], rt, store) == [[inserts[0][j]]])
  {
    HookFreeBulk(AllDefaulted(ms, rt), AccountEnv(rt, store));
    forall j | 0 <= j < |ms|
      ensures SingleInserts(ms[j], rt, store) == ExecInserts(AllDefaulted(ms, rt)[j], AccountEnv(rt, store))
    {
      DefaultsErrorHarmless(ms[j], rt, store);
    }
  }

  // ----- hooks that replace the mutation --------------------------------------------------------

  lemma {:induction false} RulesRead(m: Mutation, k: Mutation, rt: Runtime, rules: seq<Rule>, copied: seq<Column>)
    requires forall rule | rule in rules :: rule.column in copied
    requires SpecFields(m, copied) == SpecFields(k, copied)
    ensures FirstViolation(m, rt, rules) == FirstViolation(k, rt, rules)
  {
    if rules == [] {
    } else {
      var c := rules[0].column;
      assert rules[0] in rules && c in copied;
      WrittenIs(m, copied, c);
      WrittenIs(k, copied, c);
      RulesRead(m, k, rt, rules[1..], copied);
    }
  }

  predicate Copyable(c: Column) {
    !c.Other? && c != ID && c != ProxyID
  }

  lemma RulesCopyable()
    ensures forall i :: 0 <= i < |RULES| ==> Copyable(RULES[i].column)
  {
  }

  lemma RulesCopied(rules: seq<Rule>)
    requires forall i :: 0 <= i < |rules| ==> Copyable(rules[i].column)
    ensures forall rule | rule in rules :: rule.column in COPIED
  {
    forall rule | rule in rules ensures rule.column in COPIED {
      CopiedIs(rule.column);
    }
  }

  /** check() looks only at what createSpec copies, so accounts of one specification get one verdict. */
  lemma SpecDecides(m: Mutation, k: Mutation, rt: Runtime)
    requires SpecOf(m) == SpecOf(k)
    ensures Check(m, rt) == Check(k, rt)
  {
    var rules := RULES;
    RulesCopyable();
    RulesCopied(rules);
    RulesRead(m, k, rt, rules, COPIED);
  }

  /**
   * Bulk creation of accounts with hooks that call once writes contents that check() refuses exactly
   * when every builder's own mutation passes and some link is handed one that does not.
   */
  lemma UncheckedAccounts(builders: seq<Builder<Mutation, CreateSpec, CreateError>>, rt: Runtime, store: Store)
    requires builders != [] && EveryHook(builders, h => CallsOnce(h))
    ensures var env := AccountEnv(rt, store);
      !WritesChecked(env, RunBulk(builders, env).1.saved) <==>
      AllPass(env.check, KeptContents(builders)) && !AllPass(env.check, Contents(builders))
  {
    var env := AccountEnv(rt, store);
    forall m, k | env.spec(m) == env.spec(k) ensures env.check(m) == env.check(k) {
      SpecDecides(m, k, rt);
    }
    UncheckedWrites(builders, env);
  }
}
