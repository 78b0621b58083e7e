/**
 * The verdict of the gate in terms of the records, the report and the normalisations alone, and the
 * reports that no list of exceptions can let through.
 */
module AuditVerdict {
  import opened Prelude
  import opened AuditParser
  import opened AuditGate
  import opened AuditReport
  import opened AuditYields

  /** A named vulnerability of high or critical severity. */
  predicate Serious(v: Vuln, py: Python) {
    (py.severity(v.severity) == "high" || py.severity(v.severity) == "critical") && Usable(v.name)
  }

  predicate SameEntry(v: Vuln, w: Vuln, py: Python) {
    py.package(v.name) == py.package(w.name) && py.advisory(v.advisory) == py.advisory(w.advisory)
  }

  predicate Filled(r: Rec, field: string) {
    field in r && r[field] != ""
  }

  /** An exception with all of its fields, a date, and a package and an advisory that are not blank. */
  predicate Complete(r: Rec, py: Python) {
    && Filled(r, "package") && Filled(r, "advisory") && Filled(r, "severity") && Filled(r, "mitigation")
    && Filled(r, "expires_on") && py.dates(r["expires_on"]).Some?
    && py.package(Text(r["package"])) != "" && py.advisory(Text(r["advisory"])) != ""
  }

  /** The exception is for this package and this advisory. */
  predicate About(r: Rec, v: Vuln, py: Python) {
    && "package" in r && "advisory" in r
    && py.package(Text(r["package"])) == py.package(v.name)
    && py.advisory(Text(r["advisory"])) == py.advisory(v.advisory)
  }

  /** It has not expired, and its severity is blank or that of the vulnerability. */
  predicate Excuses(r: Rec, v: Vuln, today: int, py: Python) {
    && Complete(r, py) && About(r, v, py) && py.dates(r["expires_on"]).value >= today
    && (py.severity(r["severity"]) == "" || py.severity(r["severity"]) == py.severity(v.severity))
  }

  /** Vulnerability i is serious, and no earlier serious one is of the same package and advisory. */
  ghost predicate FirstSerious(vulns: seq<Vuln>, i: nat, py: Python)
    requires i < |vulns|
  {
    Serious(vulns[i], py) && forall j :: 0 <= j < i && Serious(vulns[j], py) ==> !SameEntry(vulns[j], vulns[i], py)
  }

  ghost predicate Repeated(recs: seq<Rec>, i: nat, j: nat, py: Python)
    requires i < |recs| && j < |recs| && Complete(recs[i], py) && Complete(recs[j], py)
  {
    && py.package(Text(recs[i]["package"])) == py.package(Text(recs[j]["package"]))
    && py.advisory(Text(recs[i]["advisory"])) == py.advisory(Text(recs[j]["advisory"]))
  }

  ghost predicate Allowed(recs: seq<Rec>, vulns: seq<Vuln>, today: int, py: Python) {
    && (forall k :: 0 <= k < |recs| ==> Complete(recs[k], py))
    && (forall i, j :: 0 <= i < j < |recs| ==> !Repeated(recs, i, j, py))
    && (forall i :: 0 <= i < |vulns| && Serious(vulns[i], py) ==> py.advisory(vulns[i].advisory) != "")
    && (forall i :: 0 <= i < |vulns| && FirstSerious(vulns, i, py) ==>
          exists r :: r in recs && Excuses(r, vulns[i], today, py))
  }

  lemma FaultIs(r: Rec, py: Python)
    ensures Fault(r, py).None? <==> Complete(r, py)
  {
    GapsAre(r);
  }

  lemma GapsAre(r: Rec)
    ensures MissingOf(r) == [] <==>
      && Filled(r, "package") && Filled(r, "advisory") && Filled(r, "severity") && Filled(r, "mitigation")
      && Filled(r, "expires_on")
  {
    MissingIs(r);
    assert REQUIRED[0] in REQUIRED && REQUIRED[1] in REQUIRED && REQUIRED[2] in REQUIRED && REQUIRED[3] in REQUIRED
        && REQUIRED[4] in REQUIRED;
  }

  lemma ExcusedIs(recs: seq<Rec>, v: Vuln, today: int, py: Python)
    requires forall r | r in recs :: Complete(r, py)
    ensures Covered(recs, v, today, py) <==> exists r :: r in recs && Excuses(r, v, today, py)
  {
    forall r | r in recs
      ensures Excuses(r, v, today, py) <==>
        KeyOf(r, py) == VulnKey(v, py) && EntryOf(r, py).expiresOn >= today && SeverityFits(EntryOf(r, py), v, py)
    {
    }
  }

  lemma SeriousIs(v: Vuln, py: Python)
    ensures Serious(v, py) <==> Relevant(v, py)
  {
    UsableIs(v.name);
  }

  lemma SoundIs(recs: seq<Rec>, py: Python)
    ensures SoundList(recs, py) <==>
      && (forall k :: 0 <= k < |recs| ==> Complete(recs[k], py))
      && (forall i, j :: 0 <= i < j < |recs| ==> !Repeated(recs, i, j, py))
  {
    forall k | 0 <= k < |recs| ensures Fault(recs[k], py).None? <==> Complete(recs[k], py) {
      FaultIs(recs[k], py);
    }
    if forall k :: 0 <= k < |recs| ==> Complete(recs[k], py) {
      forall i, j | 0 <= i < j < |recs| ensures KeyOf(recs[i], py) == KeyOf(recs[j], py) <==> Repeated(recs, i, j, py) {
      }
    } else {
      var k :| 0 <= k < |recs| && !Complete(recs[k], py);
      assert recs[k] in recs;
    }
  }

  lemma FirstIsSerious(vulns: seq<Vuln>, i: nat, py: Python)
    requires i < |vulns|
    requires forall k :: 0 <= k < |vulns| && Serious(vulns[k], py) ==> py.advisory(vulns[k].advisory) != ""
    ensures First(vulns, i, py) <==> FirstSerious(vulns, i, py)
  {
    forall k | 0 <= k < |vulns| ensures Keyed(vulns[k], py) <==> Serious(vulns[k], py) {
      SeriousIs(vulns[k], py);
    }
  }

  /**
   * The exit code is 0 exactly when every exception is complete, no two are for one package and
   * advisory, every serious vulnerability has an advisory, and the first one of each package and
   * advisory is excused.
   */
  lemma VerdictSpelledOut(recs: seq<Rec>, vulns: seq<Vuln>, today: int, py: Python)
    ensures ExitCode(recs, vulns, today, py) == 0 <==> Allowed(recs, vulns, today, py)
  {
    VerdictExact(recs, vulns, today, py);
    SoundIs(recs, py);
    forall v ensures Serious(v, py) <==> Relevant(v, py) {
      SeriousIs(v, py);
    }
    if SoundList(recs, py) && forall i :: 0 <= i < |vulns| && Serious(vulns[i], py) ==> Keyed(vulns[i], py) {
      forall i | 0 <= i < |vulns|
        ensures First(vulns, i, py) <==> FirstSerious(vulns, i, py)
        ensures Covered(recs, vulns[i], today, py) <==> exists r :: r in recs && Excuses(r, vulns[i], today, py)
      {
        FirstIsSerious(vulns, i, py);
        ExcusedIs(recs, vulns[i], today, py);
      }
    }
  }

  // ----- what never passes ------------------------------------------------------------------------

  lemma {:induction false} FirstOf(vulns: seq<Vuln>, i: nat, py: Python) returns (f: nat)
    requires i < |vulns| && Serious(vulns[i], py)
    ensures f <= i && FirstSerious(vulns, f, py) && SameEntry(vulns[f], vulns[i], py)
  {
    if j :| 0 <= j < i && Serious(vulns[j], py) && SameEntry(vulns[j], vulns[i], py) {
      f := FirstOf(vulns, j, py);
    } else {
      f := i;
    }
  }

  /** Whatever is reported as high or critical needs an exception for its package and advisory. */
  lemma UnknownStops(audit: Audit, v: Vuln, recs: seq<Rec>, today: int, py: Python)
    requires || (exists a :: a in AdvisoriesOf(audit) && ReportedAs(a, v))
             || (exists p :: p in PackagesOf(audit) && PackageReportedAs(p, v))
    requires Serious(v, py) && forall r | r in recs :: !About(r, v, py)
    ensures Gate(audit, recs, today, py) != Ok(0)
  {
    var vulns := Yields(audit);
    YieldedIff(audit, v);
    var i :| 0 <= i < |vulns| && vulns[i] == v;
    var f := FirstOf(vulns, i, py);
    forall r | r in recs ensures !Excuses(r, vulns[f], today, py) {
    }
    VerdictSpelledOut(recs, vulns, today, py);
  }

  /**
   * An advisory that is the first of its package and advisory identifier in the report needs an
   * exception that has not expired and fits its severity, whatever the packages say.
   */
  lemma AdvisoryStops(audit: Audit, k: nat, v: Vuln, recs: seq<Rec>, today: int, py: Python)
    requires k < |AdvisoriesOf(audit)| && ReportedAs(AdvisoriesOf(audit)[k], v) && Serious(v, py)
    requires forall j, w :: 0 <= j < k && ReportedAs(AdvisoriesOf(audit)[j], w) && Serious(w, py) ==>
      !SameEntry(w, v, py)
    requires forall r | r in recs :: !Excuses(r, v, today, py)
    ensures Gate(audit, recs, today, py) != Ok(0)
  {
    var listed, vulns := AdvisoriesOf(audit), Yields(audit);
    YieldsExact(audit);
    AdvisoryReported(listed[k], v);
    AdvisoryReported(listed[k], vulns[k]);
    forall j | 0 <= j < k && Serious(vulns[j], py) ensures !SameEntry(vulns[j], v, py) {
      assert ReportedAs(listed[j], vulns[j]);
    }
    assert FirstSerious(vulns, k, py);
    VerdictSpelledOut(recs, vulns, today, py);
  }
}
