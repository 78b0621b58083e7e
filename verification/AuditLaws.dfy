/** Laws of the audit verdict: spelling, order, and time. */
module AuditLaws {
  import opened Prelude
  import opened AuditParser
  import opened AuditPrinter
  import opened AuditGate
  import opened AuditText
  import opened AuditDedup

  // ----- what the verdict reads -------------------------------------------------------------

  /** Both vulnerabilities are normalised alike. */
  ghost predicate ReadsAs(v: Vuln, w: Vuln, py: Python) {
    && Truthy(v.name) == Truthy(w.name) && py.package(v.name) == py.package(w.name)
    && py.advisory(v.advisory) == py.advisory(w.advisory) && py.severity(v.severity) == py.severity(w.severity)
  }

  /** Both records lack the same fields, expire on the same day and are normalised alike. */
  ghost predicate RecordReadsAs(r: Rec, q: Rec, py: Python) {
    && (forall f | f in REQUIRED :: Get(r, f) == "" <==> Get(q, f) == "")
    && py.dates(Get(r, "expires_on")) == py.dates(Get(q, "expires_on"))
    && KeyOf(r, py) == KeyOf(q, py)
    && py.severity(Get(r, "severity")) == py.severity(Get(q, "severity"))
  }

  lemma FaultReads(r: Rec, q: Rec, py: Python)
    requires RecordReadsAs(r, q, py)
    ensures Fault(r, py).None? <==> Fault(q, py).None?
    ensures EntryOf(r, py) == EntryOf(q, py)
  {
    MissingIs(r);
    MissingIs(q);
  }

  lemma CoveredReads(recs: seq<Rec>, others: seq<Rec>, v: Vuln, w: Vuln, today: int, py: Python)
    requires |recs| == |others| && forall i :: 0 <= i < |recs| ==> RecordReadsAs(recs[i], others[i], py)
    requires ReadsAs(v, w, py) && Covered(recs, v, today, py)
    ensures Covered(others, w, today, py)
  {
    var r :| r in recs && KeyOf(r, py) == VulnKey(v, py) && EntryOf(r, py).expiresOn >= today
        && SeverityFits(EntryOf(r, py), v, py);
    var i :| 0 <= i < |recs| && recs[i] == r;
    FaultReads(recs[i], others[i], py);
    assert others[i] in others;
  }

  lemma PassesReads(recs: seq<Rec>, others: seq<Rec>, vulns: seq<Vuln>, found: seq<Vuln>, today: int, py: Python)
    requires |recs| == |others| && forall i :: 0 <= i < |recs| ==> RecordReadsAs(recs[i], others[i], py)
    requires |vulns| == |found| && forall i :: 0 <= i < |vulns| ==> ReadsAs(vulns[i], found[i], py)
    requires Passes(recs, vulns, today, py)
    ensures Passes(others, found, today, py)
  {
    forall i | 0 <= i < |others| ensures Fault(others[i], py).None? && KeyOf(others[i], py) == KeyOf(recs[i], py) {
      assert recs[i] in recs;
      FaultReads(recs[i], others[i], py);
    }
    forall i | 0 <= i < |found| && Relevant(found[i], py) ensures Keyed(found[i], py) {
      assert vulns[i] in vulns && ReadsAs(vulns[i], found[i], py);
    }
    forall i | 0 <= i < |found| && First(found, i, py) ensures Covered(others, found[i], today, py) {
      assert ReadsAs(vulns[i], found[i], py);
      assert forall j :: 0 <= j < i ==> ReadsAs(vulns[j], found[j], py);
      assert First(vulns, i, py);
      CoveredReads(recs, others, vulns[i], found[i], today, py);
    }
  }

  lemma VerdictReads(recs: seq<Rec>, others: seq<Rec>, vulns: seq<Vuln>, found: seq<Vuln>, today: int, py: Python)
    requires |recs| == |others| && forall i :: 0 <= i < |recs| ==> RecordReadsAs(recs[i], others[i], py)
    requires |vulns| == |found| && forall i :: 0 <= i < |vulns| ==> ReadsAs(vulns[i], found[i], py)
    ensures ExitCode(recs, vulns, today, py) == ExitCode(others, found, today, py)
  {
    VerdictExact(recs, vulns, today, py);
    VerdictExact(others, found, today, py);
    if Passes(recs, vulns, today, py) {
      PassesReads(recs, others, vulns, found, today, py);
    }
    if Passes(others, found, today, py) {
      PassesReads(others, recs, found, vulns, today, py);
    }
  }

  /** The same text but for surrounding blanks, and but for what fold folds. */
  ghost predicate Respelled(s: string, t: string, fold: string -> string) {
    (s == "" <==> t == "") && fold(Strip(s)) == fold(Strip(t))
  }

  ghost predicate ScalarRespelled(a: Scalar, b: Scalar, fold: string -> string) {
    a == b || (a.Text? && b.Text? && Respelled(a.text, b.text, fold))
  }

  function AsIs(s: string): string {
    s
  }

  ghost predicate VulnRespelled(v: Vuln, w: Vuln, fold: string -> string) {
    && ScalarRespelled(v.name, w.name, AsIs) && ScalarRespelled(v.advisory, w.advisory, fold)
    && Respelled(v.severity, w.severity, fold)
  }

  ghost predicate RecordRespelled(r: Rec, q: Rec, fold: string -> string) {
    && Respelled(Get(r, "package"), Get(q, "package"), AsIs)
    && Respelled(Get(r, "advisory"), Get(q, "advisory"), fold)
    && Respelled(Get(r, "severity"), Get(q, "severity"), fold)
    && (Get(r, "mitigation") == "" <==> Get(q, "mitigation") == "")
    && Get(r, "expires_on") == Get(q, "expires_on")
  }

  lemma SameGaps(r: Rec, q: Rec, fold: string -> string)
    requires RecordRespelled(r, q, fold)
    ensures forall f | f in REQUIRED :: Get(r, f) == "" <==> Get(q, f) == ""
  {
  }

  lemma RecordRespelledReads(r: Rec, q: Rec, dates: string -> Option<int>, fold: string -> string)
    requires RecordRespelled(r, q, fold)
    ensures RecordReadsAs(r, q, Actual(dates, fold))
  {
    SameGaps(r, q, fold);
  }

  /**
   * Surrounding blanks anywhere, and case in advisories and severities, never change the exit code, in
   * the report as in the exceptions.
   */
  lemma RespellingHarmless(
    recs: seq<Rec>, others: seq<Rec>, vulns: seq<Vuln>, found: seq<Vuln>, today: int, dates: string -> Option<int>,
    fold: string -> string)
    requires |recs| == |others| && forall i :: 0 <= i < |recs| ==> RecordRespelled(recs[i], others[i], fold)
    requires |vulns| == |found| && forall i :: 0 <= i < |vulns| ==> VulnRespelled(vulns[i], found[i], fold)
    ensures ExitCode(recs, vulns, today, Actual(dates, fold)) == ExitCode(others, found, today, Actual(dates, fold))
  {
    forall i | 0 <= i < |recs| ensures RecordReadsAs(recs[i], others[i], Actual(dates, fold)) {
      RecordRespelledReads(recs[i], others[i], dates, fold);
    }
    VerdictReads(recs, others, vulns, found, today, Actual(dates, fold));
  }

  // ----- order ------------------------------------------------------------------------------

  lemma MembersOfMultiset<T>(s: seq<T>, t: seq<T>)
    requires multiset(s) == multiset(t)
    ensures forall x :: x in s <==> x in t
  {
    assert forall x :: x in s <==> x in multiset(s);
    assert forall x :: x in t <==> x in multiset(t);
  }

  lemma {:induction false} DistinctByCount<T>(s: seq<T>, i: nat, j: nat)
    requires i < j < |s| && s[i] == s[j]
    ensures multiset(s)[s[i]] >= 2
  {
    assert s == s[..j] + [s[j]] + s[j + 1..];
    assert s[i] in s[..j];
    assert multiset(s) == multiset(s[..j]) + multiset{s[j]} + multiset(s[j + 1..]);
  }

  lemma {:induction false} CountedTwice<T>(s: seq<T>, x: T) returns (i: nat, j: nat)
    requires multiset(s)[x] >= 2
    ensures i < j < |s| && s[i] == x && s[j] == x
  {
    var n := |s| - 1;
    assert s == s[..n] + [s[n]];
    if s[n] == x {
      assert x in multiset(s[..n]);
      i :| 0 <= i < n && s[i] == x;
      j := n;
    } else {
      i, j := CountedTwice(s[..n], x);
    }
  }

  lemma SoundPermuted(recs: seq<Rec>, permuted: seq<Rec>, py: Python)
    requires multiset(recs) == multiset(permuted) && SoundList(recs, py)
    ensures SoundList(permuted, py)
  {
    MembersOfMultiset(recs, permuted);
    forall i, j | 0 <= i < j < |permuted| ensures KeyOf(permuted[i], py) != KeyOf(permuted[j], py) {
      var r, q := permuted[i], permuted[j];
      if r == q {
        DistinctByCount(permuted, i, j);
        var a, b := CountedTwice(recs, r);
        assert KeyOf(recs[a], py) != KeyOf(recs[b], py);
      } else {
        assert r in permuted && q in permuted;
        var a :| 0 <= a < |recs| && recs[a] == r;
        var b :| 0 <= b < |recs| && recs[b] == q;
        assert a < b || b < a;
      }
    }
  }

  /** The order of the exceptions is irrelevant. */
  lemma ExceptionOrder(recs: seq<Rec>, permuted: seq<Rec>, vulns: seq<Vuln>, today: int, py: Python)
    requires multiset(recs) == multiset(permuted)
    ensures ExitCode(recs, vulns, today, py) == ExitCode(permuted, vulns, today, py)
  {
    VerdictExact(recs, vulns, today, py);
    VerdictExact(permuted, vulns, today, py);
    MembersOfMultiset(recs, permuted);
    if SoundList(recs, py) {
      SoundPermuted(recs, permuted, py);
    }
    if SoundList(permuted, py) {
      SoundPermuted(permuted, recs, py);
    }
    assert forall i :: 0 <= i < |vulns| ==>
        (Covered(recs, vulns[i], today, py) <==> Covered(permuted, vulns[i], today, py));
  }

  /** With consistent severities the order of the vulnerabilities is irrelevant. */
  lemma VulnOrder(recs: seq<Rec>, vulns: seq<Vuln>, permuted: seq<Vuln>, today: int, py: Python)
    requires multiset(vulns) == multiset(permuted) && Consistent(vulns, py)
    ensures ExitCode(recs, vulns, today, py) == ExitCode(recs, permuted, today, py)
  {
    MembersOfMultiset(vulns, permuted);
    DedupSound(recs, vulns, today, py);
    DedupSound(recs, permuted, today, py);
  }

  lemma {:induction false} MovedToFront<T>(s: seq<T>, g: nat)
    requires g < |s|
    ensures multiset([s[g]] + s[..g] + s[g + 1..]) == multiset(s)
  {
    assert s == s[..g] + [s[g]] + s[g + 1..];
  }

  /** An occurrence that the list does not cover fails the run once it comes first. */
  lemma FrontDecides(recs: seq<Rec>, v: Vuln, rest: seq<Vuln>, today: int, py: Python)
    requires Keyed(v, py) && !Covered(recs, v, today, py)
    ensures ExitCode(recs, [v] + rest, today, py) == 1
  {
    VerdictExact(recs, [v] + rest, today, py);
    assert First([v] + rest, 0, py);
  }

  /** With an exception file, every order of the vulnerabilities has one exit code. */
  ghost predicate OrderAgrees(text: string, vulns: seq<Vuln>, permuted: seq<Vuln>, today: int, py: Python) {
    match Parse(TextLines(text))
    case Err(_) => true
    case Ok(recs) => ExitCode(recs, vulns, today, py) == ExitCode(recs, permuted, today, py)
  }

  /**
   * The order of the vulnerabilities is irrelevant, for every exception file and day, exactly when no
   * exception could help anyway or severities agree per key.
   */
  lemma OrderExact(vulns: seq<Vuln>, py: Python, day: string)
    requires Canonical(py) && IsDay(day, py)
    ensures (forall text, today, permuted: seq<Vuln> :: multiset(permuted) == multiset(vulns) ==>
               OrderAgrees(text, vulns, permuted, today, py))
      <==> Blocked(vulns, py) || Consistent(vulns, py)
  {
    if Blocked(vulns, py) || Consistent(vulns, py) {
      forall text, today, permuted: seq<Vuln> | multiset(permuted) == multiset(vulns)
        ensures OrderAgrees(text, vulns, permuted, today, py)
      {
        OrderIgnored(text, vulns, permuted, today, py);
      }
    } else {
      var text, permuted := OrderNoticed(vulns, py, day);
    }
  }

  lemma OrderIgnored(text: string, vulns: seq<Vuln>, permuted: seq<Vuln>, today: int, py: Python)
    requires Canonical(py) && multiset(permuted) == multiset(vulns) && (Blocked(vulns, py) || Consistent(vulns, py))
    ensures OrderAgrees(text, vulns, permuted, today, py)
  {
    if Parse(TextLines(text)).Ok? {
      var recs := Parse(TextLines(text)).value;
      if Consistent(vulns, py) {
        VulnOrder(recs, vulns, permuted, today, py);
      } else {
        ParsedValues(text);
        MembersOfMultiset(permuted, vulns);
        BlockedFails(recs, vulns, today, py);
        BlockedFails(recs, permuted, today, py);
      }
    }
  }

  lemma OrderNoticed(vulns: seq<Vuln>, py: Python, day: string) returns (text: string, permuted: seq<Vuln>)
    requires Canonical(py) && IsDay(day, py) && !Blocked(vulns, py) && !Consistent(vulns, py)
    ensures multiset(permuted) == multiset(vulns)
    ensures !OrderAgrees(text, vulns, permuted, py.dates(day).value, py)
  {
    var f, g := Disagreement(vulns, py);
    var recs := Exceptions(vulns, py, day);
    text, permuted := FileOf(recs), [vulns[g]] + vulns[..g] + vulns[g + 1..];
    FirstsOnly(vulns, f, vulns[g], py, day);
    MovedToFront(vulns, g);
    assert permuted == [vulns[g]] + (vulns[..g] + vulns[g + 1..]);
    FrontDecides(recs, vulns[g], vulns[..g] + vulns[g + 1..], py.dates(day).value, py);
  }

  /** Two occurrences of one key with different severities, one exception: the exit code depends on their order. */
  lemma OrderMatters(
    v: Vuln, w: Vuln, dates: string -> Option<int>, fold: string -> string, day: string)
    requires var py := Actual(dates, fold);
      && Folding(fold) && IsDay(day, py) && Keyed(v, py) && Keyed(w, py) && VulnKey(v, py) == VulnKey(w, py)
      && !Uncoverable(v, py) && py.severity(v.severity) != py.severity(w.severity)
    ensures var py, today := Actual(dates, fold), dates(day).value;
      && Parse(TextLines(FileOf([ExceptionFor(v, py, day)]))) == Ok([ExceptionFor(v, py, day)])
      && ExitCode([ExceptionFor(v, py, day)], [v, w], today, py) == 0
      && ExitCode([ExceptionFor(v, py, day)], [w, v], today, py) == 1
  {
    ActualCanonical(dates, fold);
    OrderOfTwo(v, w, Actual(dates, fold), day);
  }

  lemma OrderOfTwo(v: Vuln, w: Vuln, py: Python, day: string)
    requires Canonical(py) && IsDay(day, py) && Keyed(v, py) && Keyed(w, py) && VulnKey(v, py) == VulnKey(w, py)
    requires !Uncoverable(v, py) && py.severity(v.severity) != py.severity(w.severity)
    ensures Parse(TextLines(FileOf([ExceptionFor(v, py, day)]))) == Ok([ExceptionFor(v, py, day)])
    ensures ExitCode([ExceptionFor(v, py, day)], [v, w], py.dates(day).value, py) == 0
    ensures ExitCode([ExceptionFor(v, py, day)], [w, v], py.dates(day).value, py) == 1
  {
    var vulns, recs := [v, w], [ExceptionFor(v, py, day)];
    OneException(v, w, py, day);
    FirstsOnly(vulns, 0, w, py, day);
    assert [w] + [v] == [w, v];
    FrontDecides(recs, w, [v], py.dates(day).value, py);
  }

  lemma OneException(v: Vuln, w: Vuln, py: Python, day: string)
    requires Keyed(v, py) && Keyed(w, py) && VulnKey(v, py) == VulnKey(w, py)
    ensures Exceptions([v, w], py, day) == [ExceptionFor(v, py, day)]
  {
    assert [v, w][..1] == [v] && [v][..0] == [];
    assert SeenKeys([], py) == {};
    assert v in [v] && VulnKey(v, py) in SeenKeys([v], py);
    assert Exceptions([v], py, day) == [] + [ExceptionFor(v, py, day)];
  }

  // ----- time -------------------------------------------------------------------------------

  /** A list that passes on one day passed on every earlier day. */
  lemma PassesEarlier(recs: seq<Rec>, vulns: seq<Vuln>, today: int, earlier: int, py: Python)
    requires earlier <= today && ExitCode(recs, vulns, today, py) == 0
    ensures ExitCode(recs, vulns, earlier, py) == 0
  {
    VerdictExact(recs, vulns, today, py);
    VerdictExact(recs, vulns, earlier, py);
    forall i | 0 <= i < |vulns| && First(vulns, i, py) ensures Covered(recs, vulns[i], earlier, py) {
      assert Covered(recs, vulns[i], today, py);
    }
  }
}
