/**
 * What the gate writes to standard error: which complaints, about which exceptions and which
 * vulnerabilities, in terms of the records and the report alone.
 */
module AuditComplaints {
  import opened Prelude
  import opened AuditParser
  import opened AuditGate
  import opened AuditYields
  import opened AuditVerdict

  predicate AllFilled(r: Rec) {
    && Filled(r, "package") && Filled(r, "advisory") && Filled(r, "severity") && Filled(r, "mitigation")
    && Filled(r, "expires_on")
  }

  /** The exception counts: it is complete, and no earlier complete one is for its package and advisory. */
  ghost predicate Counts(recs: seq<Rec>, i: nat, py: Python) {
    && i < |recs| && Complete(recs[i], py)
    && forall j :: 0 <= j < i && Complete(recs[j], py) ==> !Repeated(recs, j, i, py)
  }

  /** Vulnerability i is the first serious one with its advisory for its package. */
  ghost predicate Asked(vulns: seq<Vuln>, i: nat, py: Python) {
    && i < |vulns| && Serious(vulns[i], py) && py.advisory(vulns[i].advisory) != ""
    && forall j :: 0 <= j < i && Serious(vulns[j], py) ==> !SameEntry(vulns[j], vulns[i], py)
  }

  /** The exception that counts for v. */
  ghost predicate AnsweredBy(recs: seq<Rec>, k: nat, v: Vuln, py: Python) {
    Counts(recs, k, py) && About(recs[k], v, py)
  }

  /** The complaint that is due. */
  ghost predicate Due(c: Complaint, recs: seq<Rec>, vulns: seq<Vuln>, today: int, py: Python) {
    match c
    case MissingFields(r, fields) =>
      r in recs && fields != [] && fields == Filter(REQUIRED, (f: string) => !Filled(r, f))
    case InvalidDate(r) => r in recs && AllFilled(r) && py.dates(r["expires_on"]).None?
    case MissingValue =>
      exists r :: r in recs && AllFilled(r) && py.dates(r["expires_on"]).Some? && !Complete(r, py)
    case Duplicate(key) =>
      exists i: nat :: i < |recs| && Complete(recs[i], py) && !Counts(recs, i, py)
          && key == (py.package(Text(recs[i]["package"])), py.advisory(Text(recs[i]["advisory"])))
    case NoAdvisory(v) => v in vulns && Serious(v, py) && py.advisory(v.advisory) == ""
    case MissingException(v) =>
      exists i: nat :: Asked(vulns, i, py) && v == vulns[i]
          && forall r :: r in recs && Complete(r, py) ==> !About(r, v, py)
    case SeverityMismatch(v) =>
      exists i: nat, k: nat :: Asked(vulns, i, py) && v == vulns[i] && AnsweredBy(recs, k, v, py)
          && py.severity(recs[k]["severity"]) != "" && py.severity(recs[k]["severity"]) != py.severity(v.severity)
    case Expired(v) =>
      exists i: nat, k: nat :: Asked(vulns, i, py) && v == vulns[i] && AnsweredBy(recs, k, v, py)
          && py.dates(recs[k]["expires_on"]).value < today
  }

  // ----- complaints about the list ------------------------------------------------------------

  /** What exception i of the list adds to the complaints. */
  function AboutRecord(recs: seq<Rec>, i: nat, py: Python): seq<Complaint>
    requires i < |recs|
  {
    if Fault(recs[i], py).Some? then [Fault(recs[i], py).value]
    else if KeyOf(recs[i], py) in IndexOf(recs[..i], py) then [Duplicate(KeyOf(recs[i], py))] else []
  }

  lemma ListStep(recs: seq<Rec>, py: Python)
    requires recs != []
    ensures var n := |recs| - 1;
      ListComplaints(recs, py) == ListComplaints(recs[..n], py) + AboutRecord(recs, n, py)
  {
  }

  lemma AboutEarlier(recs: seq<Rec>, n: nat, i: nat, py: Python)
    requires i < n <= |recs|
    ensures AboutRecord(recs[..n], i, py) == AboutRecord(recs, i, py)
  {
    assert recs[..n][..i] == recs[..i] && recs[..n][i] == recs[i];
  }

  lemma {:induction false} ListIndex(recs: seq<Rec>, c: Complaint, py: Python) returns (i: nat)
    requires c in ListComplaints(recs, py)
    ensures i < |recs| && c in AboutRecord(recs, i, py)
  {
    var n := |recs| - 1;
    ListStep(recs, py);
    if c in ListComplaints(recs[..n], py) {
      i := ListIndex(recs[..n], c, py);
      AboutEarlier(recs, n, i, py);
    } else {
      i := n;
    }
  }

  lemma {:induction false} ListPrefix(recs: seq<Rec>, k: nat, py: Python)
    requires k <= |recs|
    ensures ListComplaints(recs[..k], py) <= ListComplaints(recs, py)
    decreases |recs|
  {
    var n := |recs| - 1;
    if k == |recs| {
      assert recs[..k] == recs;
    } else {
      assert recs[..n][..k] == recs[..k];
      ListPrefix(recs[..n], k, py);
    }
  }

  lemma LastAdds(recs: seq<Rec>, c: Complaint, py: Python)
    requires recs != [] && c in AboutRecord(recs, |recs| - 1, py)
    ensures c in ListComplaints(recs, py)
  {
    ListStep(recs, py);
    InSecond(ListComplaints(recs[..|recs| - 1], py), AboutRecord(recs, |recs| - 1, py), c);
  }

  lemma InSecond<T>(s: seq<T>, t: seq<T>, x: T)
    requires x in t
    ensures x in s + t
  {
  }

  lemma InPrefix<T>(s: seq<T>, t: seq<T>, x: T)
    requires s <= t && x in s
    ensures x in t
  {
  }

  lemma ListHas(recs: seq<Rec>, i: nat, c: Complaint, py: Python)
    requires i < |recs| && c in AboutRecord(recs, i, py)
    ensures c in ListComplaints(recs, py)
  {
    var first := recs[..i + 1];
    AboutEarlier(recs, i + 1, i, py);
    LastAdds(first, c, py);
    ListPrefix(recs, i + 1, py);
    InPrefix(ListComplaints(first, py), ListComplaints(recs, py), c);
  }

  lemma FaultDue(r: Rec, py: Python)
    ensures Fault(r, py) ==
      if !AllFilled(r) then Some(MissingFields(r, Filter(REQUIRED, (f: string) => !Filled(r, f))))
      else if py.dates(r["expires_on"]).None? then Some(InvalidDate(r))
      else if !Complete(r, py) then Some(MissingValue) else None
    ensures !AllFilled(r) ==> Filter(REQUIRED, (f: string) => !Filled(r, f)) != []
  {
    GapsAre(r);
    FilterAgrees(REQUIRED, (f: string) => Get(r, f) == "", (f: string) => !Filled(r, f));
  }

  lemma RepeatedKey(recs: seq<Rec>, i: nat, py: Python)
    requires i < |recs| && Complete(recs[i], py)
    ensures KeyOf(recs[i], py) in IndexOf(recs[..i], py) <==> !Counts(recs, i, py)
  {
    IndexKeys(recs[..i], py, KeyOf(recs[i], py));
    forall r ensures Fault(r, py).None? <==> Complete(r, py) {
      FaultIs(r, py);
    }
    if HasKey(recs[..i], KeyOf(recs[i], py), py) {
      var r :| r in recs[..i] && Fault(r, py).None? && KeyOf(r, py) == KeyOf(recs[i], py);
      var j :| 0 <= j < i && recs[j] == r;
      assert Repeated(recs, j, i, py);
    }
    if !Counts(recs, i, py) {
      var j :| 0 <= j < i && Complete(recs[j], py) && Repeated(recs, j, i, py);
      assert recs[j] in recs[..i] && Fault(recs[j], py).None?;
    }
  }

  ghost predicate OfList(c: Complaint) {
    c.MissingFields? || c.InvalidDate? || c.MissingValue? || c.Duplicate?
  }

  /** Exception i is the reason for the complaint. */
  ghost predicate DueTo(c: Complaint, recs: seq<Rec>, i: nat, py: Python)
    requires i < |recs|
  {
    var r := recs[i];
    match c
    case MissingFields(q, fields) => q == r && !AllFilled(r) && fields == Filter(REQUIRED, (f: string) => !Filled(r, f))
    case InvalidDate(q) => q == r && AllFilled(r) && py.dates(r["expires_on"]).None?
    case MissingValue => AllFilled(r) && py.dates(r["expires_on"]).Some? && !Complete(r, py)
    case Duplicate(key) => Complete(r, py) && !Counts(recs, i, py)
        && key == (py.package(Text(r["package"])), py.advisory(Text(r["advisory"])))
    case _ => false
  }

  lemma AboutRecordIs(recs: seq<Rec>, i: nat, c: Complaint, py: Python)
    requires i < |recs|
    ensures c in AboutRecord(recs, i, py) <==> DueTo(c, recs, i, py)
  {
    FaultDue(recs[i], py);
    if Complete(recs[i], py) {
      RepeatedKey(recs, i, py);
    }
  }

  lemma ListDue(recs: seq<Rec>, vulns: seq<Vuln>, today: int, c: Complaint, py: Python)
    ensures c in ListComplaints(recs, py) <==> OfList(c) && Due(c, recs, vulns, today, py)
  {
    if c in ListComplaints(recs, py) {
      var i := ListIndex(recs, c, py);
      AboutRecordIs(recs, i, c, py);
      FaultDue(recs[i], py);
    }
    if OfList(c) && Due(c, recs, vulns, today, py) {
      var i := DueIndex(recs, vulns, today, c, py);
      AboutRecordIs(recs, i, c, py);
      ListHas(recs, i, c, py);
    }
  }

  lemma DueIndex(recs: seq<Rec>, vulns: seq<Vuln>, today: int, c: Complaint, py: Python) returns (i: nat)
    requires OfList(c) && Due(c, recs, vulns, today, py)
    ensures i < |recs| && DueTo(c, recs, i, py)
  {
    match c
    case MissingFields(r, fields) =>
      i :| 0 <= i < |recs| && recs[i] == r;
      if AllFilled(r) {
        GapsAre(r);
        FilterAgrees(REQUIRED, (f: string) => Get(r, f) == "", (f: string) => !Filled(r, f));
        assert false;
      }
    case InvalidDate(r) => i :| 0 <= i < |recs| && recs[i] == r;
    case MissingValue =>
      var r :| r in recs && AllFilled(r) && py.dates(r["expires_on"]).Some? && !Complete(r, py);
      i :| 0 <= i < |recs| && recs[i] == r;
    case Duplicate(key) =>
      i :| i < |recs| && Complete(recs[i], py) && !Counts(recs, i, py)
        && key == (py.package(Text(recs[i]["package"])), py.advisory(Text(recs[i]["advisory"])));
  }

  // ----- complaints about the report ------------------------------------------------------------

  lemma {:induction false} GatherMembers(
    vulns: seq<Vuln>, add: (Vuln, set<Key>) -> seq<Complaint>, c: Complaint, py: Python)
    ensures c in Gather(vulns, add, py) <==>
      exists i: nat :: i < |vulns| && c in add(vulns[i], SeenKeys(vulns[..i], py))
  {
    if vulns == [] {
    } else {
      var n := |vulns| - 1;
      GatherMembers(vulns[..n], add, c, py);
      assert forall i :: 0 <= i < n ==> vulns[..n][..i] == vulns[..i];
      assert c in Gather(vulns, add, py) <==>
        c in Gather(vulns[..n], add, py) || c in add(vulns[n], SeenKeys(vulns[..n], py));
    }
  }

  lemma AskedIs(vulns: seq<Vuln>, i: nat, py: Python)
    requires i < |vulns|
    ensures Asked(vulns, i, py) <==> FirstMet(vulns[i], SeenKeys(vulns[..i], py), py)
  {
    FirstIs(vulns, i, py);
    forall v ensures Serious(v, py) <==> Relevant(v, py) {
      SeriousIs(v, py);
    }
  }

  /** The index holds the entry of the exception that counts for a key. */
  lemma {:induction false} IndexHolds(recs: seq<Rec>, key: Key, py: Python) returns (k: nat)
    requires key in IndexOf(recs, py)
    ensures Counts(recs, k, py) && KeyOf(recs[k], py) == key && IndexOf(recs, py)[key] == EntryOf(recs[k], py)
  {
    var n := |recs| - 1;
    var before := recs[..n];
    FaultIs(recs[n], py);
    if key in IndexOf(before, py) {
      k := IndexHolds(before, key, py);
      assert forall j :: 0 <= j <= k ==> before[j] == recs[j];
    } else {
      k := n;
      RepeatedKey(recs, n, py);
    }
  }

  lemma CountsOnce(recs: seq<Rec>, k: nat, j: nat, py: Python)
    requires Counts(recs, k, py) && Counts(recs, j, py) && KeyOf(recs[k], py) == KeyOf(recs[j], py)
    ensures k == j
  {
    if k < j {
      assert Repeated(recs, k, j, py);
    }
    if j < k {
      assert Repeated(recs, j, k, py);
    }
  }

  /** What the index says about v is what the exception that counts for it says. */
  lemma AnswerInIndex(recs: seq<Rec>, v: Vuln, py: Python)
    ensures VulnKey(v, py) in IndexOf(recs, py) <==> exists r :: r in recs && Complete(r, py) && About(r, v, py)
    ensures forall k: nat :: AnsweredBy(recs, k, v, py) ==>
      VulnKey(v, py) in IndexOf(recs, py) && IndexOf(recs, py)[VulnKey(v, py)] == EntryOf(recs[k], py)
    ensures VulnKey(v, py) in IndexOf(recs, py) ==> exists k: nat :: AnsweredBy(recs, k, v, py)
  {
    var key := VulnKey(v, py);
    IndexKeys(recs, py, key);
    forall r ensures Fault(r, py).None? <==> Complete(r, py) {
      FaultIs(r, py);
    }
    if key in IndexOf(recs, py) {
      var k := IndexHolds(recs, key, py);
      assert AnsweredBy(recs, k, v, py);
      forall j: nat | AnsweredBy(recs, j, v, py) ensures j == k {
        CountsOnce(recs, k, j, py);
      }
    }
    forall k: nat | AnsweredBy(recs, k, v, py) ensures HasKey(recs, key, py) {
      assert recs[k] in recs;
    }
  }

  lemma ImmediateDue(recs: seq<Rec>, vulns: seq<Vuln>, today: int, c: Complaint, py: Python)
    ensures c in ScanErrors(IndexOf(recs, py), vulns, py) <==>
      (c.NoAdvisory? || c.SeverityMismatch?) && Due(c, recs, vulns, today, py)
  {
    var index := IndexOf(recs, py);
    GatherMembers(vulns, (v, seen) => ImmediateErrors(index, v, seen, py), c, py);
    forall i: nat | i < |vulns|
      ensures c in ImmediateErrors(index, vulns[i], SeenKeys(vulns[..i], py), py) <==>
        || (c == NoAdvisory(vulns[i]) && Serious(vulns[i], py) && py.advisory(vulns[i].advisory) == "")
        || (c == SeverityMismatch(vulns[i]) && Asked(vulns, i, py) && exists k: nat ::
              && AnsweredBy(recs, k, vulns[i], py) && py.severity(recs[k]["severity"]) != ""
              && py.severity(recs[k]["severity"]) != py.severity(vulns[i].severity))
    {
      AskedIs(vulns, i, py);
      SeriousIs(vulns[i], py);
      AnswerInIndex(recs, vulns[i], py);
    }
  }

  lemma MissingDue(recs: seq<Rec>, vulns: seq<Vuln>, today: int, c: Complaint, py: Python)
    ensures c in ScanMissing(IndexOf(recs, py), vulns, py) <==> c.MissingException? && Due(c, recs, vulns, today, py)
  {
    var index := IndexOf(recs, py);
    GatherMembers(vulns, (v, seen) => Missing(index, v, seen, py), c, py);
    forall i: nat | i < |vulns|
      ensures c in Missing(index, vulns[i], SeenKeys(vulns[..i], py), py) <==>
        && c == MissingException(vulns[i]) && Asked(vulns, i, py)
        && forall r :: r in recs && Complete(r, py) ==> !About(r, vulns[i], py)
    {
      AskedIs(vulns, i, py);
      AnswerInIndex(recs, vulns[i], py);
    }
  }

  lemma LapsedIs(recs: seq<Rec>, vulns: seq<Vuln>, i: nat, today: int, py: Python)
    requires i < |vulns|
    ensures var v := vulns[i];
      Lapsed(IndexOf(recs, py), v, SeenKeys(vulns[..i], py), today, py) ==
        if Asked(vulns, i, py) &&
           exists k: nat :: AnsweredBy(recs, k, v, py) && py.dates(recs[k]["expires_on"]).value < today
        then [Expired(v)] else []
  {
    AskedIs(vulns, i, py);
    AnswerInIndex(recs, vulns[i], py);
  }

  lemma ExpiredDue(recs: seq<Rec>, vulns: seq<Vuln>, today: int, c: Complaint, py: Python)
    ensures c in ScanExpired(IndexOf(recs, py), vulns, today, py) <==> c.Expired? && Due(c, recs, vulns, today, py)
  {
    var index := IndexOf(recs, py);
    GatherMembers(vulns, (v, seen) => Lapsed(index, v, seen, today, py), c, py);
    forall i: nat | i < |vulns|
      ensures c in Lapsed(index, vulns[i], SeenKeys(vulns[..i], py), today, py) <==>
        && c == Expired(vulns[i]) && Asked(vulns, i, py)
        && exists k: nat :: AnsweredBy(recs, k, vulns[i], py) && py.dates(recs[k]["expires_on"]).value < today
    {
      LapsedIs(recs, vulns, i, today, py);
    }
  }

  /** The program complains of exactly what is due, and of the list before the report. */
  lemma ComplaintsExact(recs: seq<Rec>, vulns: seq<Vuln>, today: int, c: Complaint, py: Python)
    ensures c in Report(recs, vulns, today, py) <==> Due(c, recs, vulns, today, py)
    ensures ListComplaints(recs, py) <= Report(recs, vulns, today, py)
  {
    ListDue(recs, vulns, today, c, py);
    ImmediateDue(recs, vulns, today, c, py);
    MissingDue(recs, vulns, today, c, py);
    ExpiredDue(recs, vulns, today, c, py);
  }
}
