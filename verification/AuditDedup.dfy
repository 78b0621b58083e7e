/**
 * The seen set of the scan: when judging only the first occurrence of each key is judging them all,
 * and an exception list that tells the difference otherwise.
 */
module AuditDedup {
  import opened Prelude
  import opened AuditParser
  import opened AuditPrinter
  import opened AuditGate
  import opened AuditText

  // ----- deduplication ----------------------------------------------------------------------

  /** All keyed vulnerabilities of one key have the same severity. */
  ghost predicate Consistent(vulns: seq<Vuln>, py: Python) {
    forall v, w | v in vulns && w in vulns && Keyed(v, py) && Keyed(w, py) && VulnKey(v, py) == VulnKey(w, py) ::
      py.severity(v.severity) == py.severity(w.severity)
  }

  /** A value that an exception in a file can have, and that is not blank. */
  predicate Writes(value: string) {
    value != "" && OneLine(value)
  }

  /** No exception can be written for the vulnerability: its advisory or package is blank or breaks the line. */
  predicate Uncoverable(v: Vuln, py: Python) {
    Relevant(v, py) && !(Writes(py.advisory(v.advisory)) && Writes(py.package(v.name)))
  }

  ghost predicate Blocked(vulns: seq<Vuln>, py: Python) {
    exists v :: v in vulns && Uncoverable(v, py)
  }

  /** Every keyed vulnerability is covered, not just the first of each key. */
  ghost predicate PassesWithoutSeen(recs: seq<Rec>, vulns: seq<Vuln>, today: int, py: Python) {
    && SoundList(recs, py)
    && (forall v | v in vulns && Relevant(v, py) :: Keyed(v, py))
    && (forall v | v in vulns && Keyed(v, py) :: Covered(recs, v, today, py))
  }

  lemma {:induction false} FirstExists(vulns: seq<Vuln>, i: nat, py: Python) returns (f: nat)
    requires i < |vulns| && Keyed(vulns[i], py)
    ensures f <= i && First(vulns, f, py) && VulnKey(vulns[f], py) == VulnKey(vulns[i], py)
  {
    if j :| 0 <= j < i && Keyed(vulns[j], py) && VulnKey(vulns[j], py) == VulnKey(vulns[i], py) {
      f := FirstExists(vulns, j, py);
    } else {
      f := i;
    }
  }

  lemma FirstsDecide(recs: seq<Rec>, vulns: seq<Vuln>, today: int, py: Python)
    requires Consistent(vulns, py) && Passes(recs, vulns, today, py)
    ensures PassesWithoutSeen(recs, vulns, today, py)
  {
    forall v | v in vulns && Keyed(v, py) ensures Covered(recs, v, today, py) {
      var i :| 0 <= i < |vulns| && vulns[i] == v;
      var f := FirstExists(vulns, i, py);
      assert vulns[f] in vulns && Covered(recs, vulns[f], today, py);
    }
  }

  lemma DedupSound(recs: seq<Rec>, vulns: seq<Vuln>, today: int, py: Python)
    requires Consistent(vulns, py)
    ensures ExitCode(recs, vulns, today, py) == 0 <==> PassesWithoutSeen(recs, vulns, today, py)
  {
    VerdictExact(recs, vulns, today, py);
    if Passes(recs, vulns, today, py) {
      FirstsDecide(recs, vulns, today, py);
    }
  }

  /** Normal forms are normal, and one line stays one line. */
  ghost predicate Canonical(py: Python) {
    && (forall s :: py.severity(py.severity(s)) == py.severity(s))
    && (forall x :: py.package(Text(py.package(x))) == py.package(x))
    && (forall x :: py.advisory(Text(py.advisory(x))) == py.advisory(x))
    && (forall s :: OneLine(s) ==> OneLine(py.package(Text(s))) && OneLine(py.advisory(Text(s))))
  }

  /** What every list has that was read from a file. */
  ghost predicate FromFile(recs: seq<Rec>) {
    forall rec | rec in recs :: OneLineValues(rec)
  }

  /** A blocked report fails with any list from a file, and also when every occurrence is checked. */
  lemma BlockedFails(recs: seq<Rec>, vulns: seq<Vuln>, today: int, py: Python)
    requires Canonical(py) && Blocked(vulns, py) && FromFile(recs)
    ensures ExitCode(recs, vulns, today, py) == 1 && !PassesWithoutSeen(recs, vulns, today, py)
  {
    VerdictExact(recs, vulns, today, py);
    var v :| v in vulns && Uncoverable(v, py);
    if SoundList(recs, py) && Keyed(v, py) {
      var i :| 0 <= i < |vulns| && vulns[i] == v;
      var f := FirstExists(vulns, i, py);
      NeverCovered(recs, v, today, py);
      NeverCovered(recs, vulns[f], today, py);
    }
  }

  lemma NeverCovered(recs: seq<Rec>, v: Vuln, today: int, py: Python)
    requires Canonical(py) && FromFile(recs) && SoundList(recs, py)
    requires !(Writes(VulnKey(v, py).0) && Writes(VulnKey(v, py).1))
    ensures !Covered(recs, v, today, py)
  {
    forall r | r in recs ensures KeyOf(r, py) != VulnKey(v, py) {
      assert Fault(r, py).None?;
      assert OneLine(Get(r, "package")) && OneLine(Get(r, "advisory"));
    }
  }

  // ----- a list that covers the first occurrences and nothing else ----------------------------

  lemma NormalTwice(s: string, fold: string -> string)
    requires Folding(fold)
    ensures Strip(Strip(s)) == Strip(s) && fold(Strip(fold(Strip(s)))) == fold(Strip(s))
    ensures OneLine(s) ==> OneLine(Strip(s)) && OneLine(fold(Strip(s)))
  {
    StripStripped(s);
    StripSame(Strip(s));
    StripSame(fold(Strip(s)));
    if OneLine(s) {
      StripOneLine(s);
    }
  }

  lemma ActualCanonical(dates: string -> Option<int>, fold: string -> string)
    requires Folding(fold)
    ensures Canonical(Actual(dates, fold))
  {
    forall s: string ensures NormSeverity(NormSeverity(s, fold), fold) == NormSeverity(s, fold) {
      NormalTwice(s, fold);
    }
    forall x: Scalar
      ensures NormPackage(Text(NormPackage(x))) == NormPackage(x)
          && NormAdvisory(Text(NormAdvisory(x, fold)), fold) == NormAdvisory(x, fold)
    {
      NormalTwice(StringOf(x), fold);
    }
    forall s | OneLine(s) ensures OneLine(NormPackage(Text(s))) && OneLine(NormAdvisory(Text(s), fold)) {
      NormalTwice(s, fold);
    }
  }

  predicate IsDay(day: string, py: Python) {
    Writes(day) && py.dates(day).Some?
  }

  /** An exception for v, of its severity. */
  function ExceptionFor(v: Vuln, py: Python, day: string): Rec {
    map["package" := py.package(v.name), "advisory" := py.advisory(v.advisory), "severity" := py.severity(v.severity),
        "mitigation" := "accepted", "expires_on" := day]
  }

  lemma ExceptionWritable(v: Vuln, py: Python, day: string)
    requires IsDay(day, py) && Relevant(v, py) && !Uncoverable(v, py)
    ensures Writable(ExceptionFor(v, py, day))
  {
    WritableOf(py.package(v.name), py.advisory(v.advisory), py.severity(v.severity), "accepted", day);
  }

  lemma ExceptionForIs(v: Vuln, py: Python, day: string)
    requires Canonical(py) && IsDay(day, py) && Relevant(v, py) && !Uncoverable(v, py)
    ensures var r := ExceptionFor(v, py, day);
      && Fault(r, py).None? && KeyOf(r, py) == VulnKey(v, py)
      && EntryOf(r, py) == Entry(py.severity(v.severity), py.dates(day).value)
  {
    MissingIs(ExceptionFor(v, py, day));
  }

  /** One exception per key, of the severity that its first occurrence has. */
  function Exceptions(vulns: seq<Vuln>, py: Python, day: string): seq<Rec> {
    if vulns == [] then []
    else
      var before, v := vulns[..|vulns| - 1], vulns[|vulns| - 1];
      Exceptions(before, py, day) + if FirstMet(v, SeenKeys(before, py), py) then [ExceptionFor(v, py, day)] else []
  }

  ghost predicate IsAnswer(r: Rec, vulns: seq<Vuln>, py: Python, day: string) {
    exists i :: 0 <= i < |vulns| && First(vulns, i, py) && r == ExceptionFor(vulns[i], py, day)
  }

  /** Each exception is that of a first occurrence, and each first occurrence has one. */
  ghost predicate Answers(recs: seq<Rec>, vulns: seq<Vuln>, py: Python, day: string) {
    && SoundList(recs, py)
    && (forall r | r in recs :: Writable(r) && IsAnswer(r, vulns, py, day))
    && (forall i :: 0 <= i < |vulns| && First(vulns, i, py) ==> ExceptionFor(vulns[i], py, day) in recs)
  }

  lemma FirstStep(before: seq<Vuln>, v: Vuln, py: Python, i: nat)
    requires i < |before|
    ensures First(before + [v], i, py) <==> First(before, i, py)
  {
    assert forall j :: 0 <= j <= i ==> (before + [v])[j] == before[j];
  }

  lemma AnswersStep(recs: seq<Rec>, before: seq<Vuln>, v: Vuln, py: Python, day: string)
    requires Canonical(py) && IsDay(day, py) && Answers(recs, before, py, day)
    requires forall w | w in before + [v] :: !Uncoverable(w, py)
    ensures Answers(recs + if FirstMet(v, SeenKeys(before, py), py) then [ExceptionFor(v, py, day)] else [],
                    before + [v], py, day)
  {
    var all, n := before + [v], |before|;
    assert all[..n] == before && all[n] == v && v in all;
    forall i | 0 <= i < n ensures First(all, i, py) <==> First(before, i, py) {
      FirstStep(before, v, py, i);
    }
    FirstIs(all, n, py);
    if FirstMet(v, SeenKeys(before, py), py) {
      ExceptionForIs(v, py, day);
      ExceptionWritable(v, py, day);
      forall r | r in recs ensures KeyOf(r, py) != VulnKey(v, py) {
        var i :| 0 <= i < n && First(before, i, py) && r == ExceptionFor(before[i], py, day);
        assert before[i] in all && before[i] in before;
        ExceptionForIs(before[i], py, day);
      }
      SoundStep(recs, ExceptionFor(v, py, day), py);
      AnswersMore(recs, before, v, py, day);
    } else {
      assert recs + [] == recs;
      forall r | r in recs ensures IsAnswer(r, all, py, day) {
        var i :| 0 <= i < n && First(before, i, py) && r == ExceptionFor(before[i], py, day);
        assert First(all, i, py) && all[i] == before[i];
      }
    }
  }

  lemma AnswersMore(recs: seq<Rec>, before: seq<Vuln>, v: Vuln, py: Python, day: string)
    requires Answers(recs, before, py, day) && First(before + [v], |before|, py) && Writable(ExceptionFor(v, py, day))
    requires SoundList(recs + [ExceptionFor(v, py, day)], py)
    ensures Answers(recs + [ExceptionFor(v, py, day)], before + [v], py, day)
  {
    var all, n, more := before + [v], |before|, recs + [ExceptionFor(v, py, day)];
    forall i | 0 <= i < n ensures First(all, i, py) <==> First(before, i, py) {
      FirstStep(before, v, py, i);
    }
    forall r | r in more ensures IsAnswer(r, all, py, day) {
      if r in recs {
        var i :| 0 <= i < n && First(before, i, py) && r == ExceptionFor(before[i], py, day);
        assert First(all, i, py) && all[i] == before[i];
      } else {
        assert First(all, n, py) && r == ExceptionFor(all[n], py, day);
      }
    }
    forall i | 0 <= i < n + 1 && First(all, i, py) ensures ExceptionFor(all[i], py, day) in more {
      if i < n {
        assert ExceptionFor(before[i], py, day) in recs;
      }
    }
  }

  lemma {:induction false} ExceptionsAnswer(vulns: seq<Vuln>, py: Python, day: string)
    requires Canonical(py) && IsDay(day, py) && forall v | v in vulns :: !Uncoverable(v, py)
    ensures Answers(Exceptions(vulns, py, day), vulns, py, day)
  {
    if vulns == [] {
    } else {
      var n := |vulns| - 1;
      assert vulns == vulns[..n] + [vulns[n]];
      ExceptionsAnswer(vulns[..n], py, day);
      AnswersStep(Exceptions(vulns[..n], py, day), vulns[..n], vulns[n], py, day);
    }
  }

  /** That list can be written to a file, and passes on its day. */
  lemma ExceptionsPass(vulns: seq<Vuln>, py: Python, day: string)
    requires Canonical(py) && IsDay(day, py) && !Blocked(vulns, py)
    ensures Answers(Exceptions(vulns, py, day), vulns, py, day)
    ensures Parse(TextLines(FileOf(Exceptions(vulns, py, day)))) == Ok(Exceptions(vulns, py, day))
    ensures ExitCode(Exceptions(vulns, py, day), vulns, py.dates(day).value, py) == 0
  {
    var recs, today := Exceptions(vulns, py, day), py.dates(day).value;
    ExceptionsAnswer(vulns, py, day);
    assert forall v | v in vulns && Relevant(v, py) :: Keyed(v, py);
    forall i | 0 <= i < |vulns| && First(vulns, i, py) ensures Covered(recs, vulns[i], today, py) {
      assert vulns[i] in vulns;
      ExceptionForIs(vulns[i], py, day);
    }
    assert Passes(recs, vulns, today, py);
    VerdictExact(recs, vulns, today, py);
    FileReadsBack(recs);
  }

  lemma FirstIsOne(vulns: seq<Vuln>, i: nat, k: nat, py: Python)
    requires i < |vulns| && k < |vulns| && First(vulns, i, py) && First(vulns, k, py)
    requires VulnKey(vulns[i], py) == VulnKey(vulns[k], py)
    ensures i == k
  {
  }

  /** The only answer to a key has the severity of its first occurrence. */
  lemma AnswerIs(recs: seq<Rec>, vulns: seq<Vuln>, i: nat, r: Rec, py: Python, day: string)
    requires Canonical(py) && IsDay(day, py) && Answers(recs, vulns, py, day) && !Blocked(vulns, py)
    requires i < |vulns| && First(vulns, i, py) && r in recs && KeyOf(r, py) == VulnKey(vulns[i], py)
    ensures EntryOf(r, py).severity == py.severity(vulns[i].severity)
  {
    var k :| 0 <= k < |vulns| && First(vulns, k, py) && r == ExceptionFor(vulns[k], py, day);
    assert vulns[k] in vulns;
    ExceptionForIs(vulns[k], py, day);
    FirstIsOne(vulns, i, k, py);
  }

  /** It covers no occurrence of another severity than the first of its key. */
  lemma OtherUncovered(recs: seq<Rec>, vulns: seq<Vuln>, i: nat, v: Vuln, today: int, py: Python, day: string)
    requires Canonical(py) && IsDay(day, py) && Answers(recs, vulns, py, day) && !Blocked(vulns, py)
    requires i < |vulns| && First(vulns, i, py) && Keyed(v, py) && VulnKey(v, py) == VulnKey(vulns[i], py)
    requires py.severity(v.severity) != py.severity(vulns[i].severity)
    ensures !Covered(recs, v, today, py)
  {
    forall r | r in recs && KeyOf(r, py) == VulnKey(v, py) ensures !SeverityFits(EntryOf(r, py), v, py) {
      AnswerIs(recs, vulns, i, r, py, day);
    }
  }

  lemma FirstsOnly(vulns: seq<Vuln>, i: nat, v: Vuln, py: Python, day: string)
    requires Canonical(py) && IsDay(day, py) && !Blocked(vulns, py)
    requires i < |vulns| && First(vulns, i, py) && Keyed(v, py) && VulnKey(v, py) == VulnKey(vulns[i], py)
    requires py.severity(v.severity) != py.severity(vulns[i].severity)
    ensures Parse(TextLines(FileOf(Exceptions(vulns, py, day)))) == Ok(Exceptions(vulns, py, day))
    ensures ExitCode(Exceptions(vulns, py, day), vulns, py.dates(day).value, py) == 0
    ensures !Covered(Exceptions(vulns, py, day), v, py.dates(day).value, py)
  {
    ExceptionsPass(vulns, py, day);
    OtherUncovered(Exceptions(vulns, py, day), vulns, i, v, py.dates(day).value, py, day);
  }

  lemma Disagreement(vulns: seq<Vuln>, py: Python) returns (f: nat, g: nat)
    requires !Consistent(vulns, py)
    ensures f < |vulns| && g < |vulns| && First(vulns, f, py) && Keyed(vulns[g], py)
    ensures VulnKey(vulns[g], py) == VulnKey(vulns[f], py)
    ensures py.severity(vulns[g].severity) != py.severity(vulns[f].severity)
  {
    var v, w :| v in vulns && w in vulns && Keyed(v, py) && Keyed(w, py) && VulnKey(v, py) == VulnKey(w, py)
      && py.severity(v.severity) != py.severity(w.severity);
    var i :| 0 <= i < |vulns| && vulns[i] == v;
    var j :| 0 <= j < |vulns| && vulns[j] == w;
    f := FirstExists(vulns, i, py);
    g := if py.severity(v.severity) != py.severity(vulns[f].severity) then i else j;
  }

  /** What the program makes of an exception file agrees with checking every occurrence. */
  ghost predicate DedupAgrees(text: string, vulns: seq<Vuln>, today: int, py: Python) {
    match Parse(TextLines(text))
    case Err(_) => true
    case Ok(recs) => ExitCode(recs, vulns, today, py) == 0 <==> PassesWithoutSeen(recs, vulns, today, py)
  }

  /**
   * The seen set gives the verdict over all occurrences, for every exception file and day, exactly when
   * no exception could help anyway or severities agree per key.
   */
  lemma DedupExact(vulns: seq<Vuln>, py: Python, day: string)
    requires Canonical(py) && IsDay(day, py)
    ensures (forall text, today :: DedupAgrees(text, vulns, today, py)) <==>
      Blocked(vulns, py) || Consistent(vulns, py)
  {
    if Blocked(vulns, py) || Consistent(vulns, py) {
      forall text, today ensures DedupAgrees(text, vulns, today, py) {
        DedupIgnored(text, vulns, today, py);
      }
    } else {
      var recs, today := Exceptions(vulns, py, day), py.dates(day).value;
      var f, g := Disagreement(vulns, py);
      FirstsOnly(vulns, f, vulns[g], py, day);
      assert vulns[g] in vulns;
      assert !DedupAgrees(FileOf(recs), vulns, today, py);
    }
  }

  lemma DedupIgnored(text: string, vulns: seq<Vuln>, today: int, py: Python)
    requires Canonical(py) && (Blocked(vulns, py) || Consistent(vulns, py))
    ensures DedupAgrees(text, vulns, today, py)
  {
    if Parse(TextLines(text)).Ok? {
      var recs := Parse(TextLines(text)).value;
      ParsedValues(text);
      if Blocked(vulns, py) {
        BlockedFails(recs, vulns, today, py);
      } else {
        DedupSound(recs, vulns, today, py);
      }
    }
  }
}
