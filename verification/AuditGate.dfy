/** The decision of check_pnpm_audit_exceptions.py: the exception index, the scan, and the exit code. */
module AuditGate {
  import opened Prelude
  import opened AuditParser

  // ----- normalisation ----------------------------------------------------------------------

  /** A decoded JSON scalar. */
  datatype Scalar = Nil | Text(text: string) | Number(n: int)

  predicate Truthy(v: Scalar) {
    match v
    case Nil => false
    case Text(s) => s != ""
    case Number(n) => n != 0
  }

  const DIGITS := "0123456789"

  function Decimal(n: int): string
    decreases if n < 0 then 1 - n else n
  {
    if n < 0 then "-" + Decimal(-n)
    else if n < 10 then [DIGITS[n]]
    else Decimal(n / 10) + [DIGITS[n % 10]]
  }

  predicate Digits(s: string) {
    s != "" && forall k :: 0 <= k < |s| ==> '0' <= s[k] <= '9'
  }

  /** The number that decimal digits denote. */
  function Denoted(s: string): int {
    if s == "" then 0 else 10 * Denoted(s[..|s| - 1]) + (s[|s| - 1] as int - '0' as int)
  }

  /** str() of a number: the digits that denote it, without leading zeros, after a sign. */
  lemma {:induction false} DecimalExact(n: nat)
    ensures Digits(Decimal(n)) && Denoted(Decimal(n)) == n && (Decimal(n)[0] == '0' ==> n == 0)
    ensures n > 0 ==> Decimal(0 - n) == "-" + Decimal(n)
  {
    assert forall d :: 0 <= d < 10 ==> DIGITS[d] as int == '0' as int + d;
    if n < 10 {
      assert Decimal(n) == [DIGITS[n]] && Decimal(n)[..0] == "";
    } else {
      DecimalExact(n / 10);
      assert Decimal(n)[..|Decimal(n)| - 1] == Decimal(n / 10);
    }
  }

  lemma DecimalSigned(n: int)
    ensures n < 0 ==> Decimal(n) == "-" + Decimal(-n) && Decimal(n)[0] == '-' && Decimal(n)[1..] == Decimal(-n)
    ensures n >= 0 ==> Decimal(n)[0] != '-'
    ensures Decimal(n) != "" && Stripped(Decimal(n))
  {
    DecimalExact(if n < 0 then -n else n);
  }

  /** Different numbers are different texts, and none of these has blanks to strip. */
  lemma DecimalUnique(n: int, k: int)
    ensures Decimal(n) == Decimal(k) <==> n == k
    ensures NormPackage(Number(n)) == Decimal(n)
  {
    DecimalSigned(n);
    DecimalSigned(k);
    DecimalExact(if n < 0 then -n else n);
    DecimalExact(if k < 0 then -k else k);
    StripSame(Decimal(n));
  }

  /** str() of a value that is not None; None reads as the empty string in both normalisations. */
  function StringOf(v: Scalar): string {
    match v
    case Nil => ""
    case Text(s) => s
    case Number(n) => Decimal(n)
  }

  function NormSeverity(severity: string, fold: string -> string): string {
    fold(Strip(severity))
  }

  function NormPackage(name: Scalar): string {
    Strip(StringOf(name))
  }

  function NormAdvisory(advisory: Scalar, fold: string -> string): string {
    fold(Strip(StringOf(advisory)))
  }

  /** The library calls of the program: date.fromisoformat (None for a ValueError) and the normalisations. */
  datatype Python = Python(
    dates: string -> Option<int>,
    severity: string -> string,
    package: Scalar -> string,
    advisory: Scalar -> string)

  /** The program's own normalisations; fold is str.lower. */
  function Actual(dates: string -> Option<int>, fold: string -> string): Python {
    Python(dates, (s: string) => NormSeverity(s, fold), NormPackage, (x: Scalar) => NormAdvisory(x, fold))
  }

  /** What is used of str.lower: it is idempotent, keeps line breaks out, and leaves blank ends blank. */
  ghost predicate Folding(fold: string -> string) {
    && (forall s :: fold(fold(s)) == fold(s))
    && (forall s :: OneLine(s) ==> OneLine(fold(s)))
    && (forall s :: Stripped(fold(s)) <==> Stripped(s))
  }

  function LowerChar(c: char): char {
    if 'A' <= c <= 'Z' then ((c as int) - ('A' as int) + ('a' as int)) as char else c
  }

  function Lower(s: string): string {
    seq(|s|, k requires 0 <= k < |s| => LowerChar(s[k]))
  }

  /** Folding ASCII letters, for one, is such a folding. */
  lemma LowerFolds()
    ensures Folding(Lower)
  {
    forall s: string
      ensures Lower(Lower(s)) == Lower(s) && (OneLine(s) ==> OneLine(Lower(s))) && (Stripped(Lower(s)) <==> Stripped(s))
    {
      assert forall k :: 0 <= k < |s| ==> LowerChar(LowerChar(s[k])) == LowerChar(s[k]);
      assert forall k :: 0 <= k < |s| ==> IsSpace(LowerChar(s[k])) == IsSpace(s[k]);
      assert forall k :: 0 <= k < |s| ==> IsNewline(LowerChar(s[k])) == IsNewline(s[k]);
    }
  }

  /** Surrounding blanks never matter, and case matters for packages only. */
  lemma NormalizedAway(before: string, s: string, t: string, after: string, fold: string -> string)
    requires Folding(fold) && Blank(before) && Stripped(s) && Blank(after) && fold(t) == fold(s)
    ensures NormPackage(Text(before + s + after)) == s
    ensures NormAdvisory(Text(before + t + after), fold) == NormAdvisory(Text(s), fold)
    ensures NormSeverity(before + t + after, fold) == NormSeverity(s, fold)
  {
    assert Stripped(fold(s)) && Stripped(t);
    StripExact(before, s, after);
    StripExact(before, t, after);
    StripSame(s);
  }

  // ----- the exception list -----------------------------------------------------------------

  type Key = (string, string)

  datatype Entry = Entry(severity: string, expiresOn: int)

  /** What one yielded vulnerability carries; an absent severity is the empty string. */
  datatype Vuln = Vuln(name: Scalar, severity: string, advisory: Scalar)

  datatype Complaint =
    | MissingFields(rec: Rec, fields: seq<string>)
    | InvalidDate(rec: Rec)
    | MissingValue
    | Duplicate(key: Key)
    | NoAdvisory(vuln: Vuln)
    | SeverityMismatch(vuln: Vuln)
    | MissingException(vuln: Vuln)
    | Expired(vuln: Vuln)

  const REQUIRED := ["package", "advisory", "severity", "mitigation", "expires_on"]

  /** exc.get(field), with an absent field as the empty string. */
  function Get(rec: Rec, field: string): string {
    if field in rec then rec[field] else ""
  }

  function MissingOf(rec: Rec): seq<string> {
    Filter(REQUIRED, (f: string) => Get(rec, f) == "")
  }

  lemma MissingIs(q: Rec)
    ensures MissingOf(q) == [] <==> forall f | f in REQUIRED :: Get(q, f) != ""
  {
    var p := (f: string) => Get(q, f) == "";
    assert MissingOf(q) == Filter(REQUIRED, p);
    FilterMembers(REQUIRED, p);
    if forall f | f in REQUIRED :: Get(q, f) != "" {
      FilterNone(REQUIRED, p);
    } else {
      var f :| f in REQUIRED && p(f);
      assert f in MissingOf(q);
    }
  }

  function KeyOf(rec: Rec, py: Python): Key {
    (py.package(Text(Get(rec, "package"))), py.advisory(Text(Get(rec, "advisory"))))
  }

  /** What is wrong with a record by itself. */
  function Fault(rec: Rec, py: Python): Option<Complaint> {
    if MissingOf(rec) != [] then Some(MissingFields(rec, MissingOf(rec)))
    else if py.dates(Get(rec, "expires_on")).None? then Some(InvalidDate(rec))
    else if KeyOf(rec, py).0 == "" || KeyOf(rec, py).1 == "" then Some(MissingValue)
    else None
  }

  function EntryOf(rec: Rec, py: Python): Entry {
    var date := py.dates(Get(rec, "expires_on"));
    Entry(py.severity(Get(rec, "severity")), if date.Some? then date.value else 0)
  }

  /** The index: the first sound record of each key. */
  function IndexOf(recs: seq<Rec>, py: Python): map<Key, Entry> {
    if recs == [] then map[]
    else
      var before, rec := IndexOf(recs[..|recs| - 1], py), recs[|recs| - 1];
      if Fault(rec, py).Some? || KeyOf(rec, py) in before then before else before[KeyOf(rec, py) := EntryOf(rec, py)]
  }

  /** One complaint per record that is unsound, or that repeats the key of an earlier sound record. */
  function ListComplaints(recs: seq<Rec>, py: Python): seq<Complaint> {
    if recs == [] then []
    else
      var before, rec := recs[..|recs| - 1], recs[|recs| - 1];
      ListComplaints(before, py) +
      if Fault(rec, py).Some? then [Fault(rec, py).value]
      else if KeyOf(rec, py) in IndexOf(before, py) then [Duplicate(KeyOf(rec, py))] else []
  }

  method BuildIndex(recs: seq<Rec>, py: Python) returns (index: map<Key, Entry>, errors: seq<Complaint>)
    ensures index == IndexOf(recs, py) && errors == ListComplaints(recs, py)
  {
    index, errors := map[], [];
    for i := 0 to |recs|
      invariant index == IndexOf(recs[..i], py) && errors == ListComplaints(recs[..i], py)
    {
      assert recs[..i + 1][..i] == recs[..i];
      var exc := recs[i];
      var missing := MissingOf(exc);
      if missing != [] {
        errors := errors + [MissingFields(exc, missing)];
        continue;
      }
      var date := py.dates(Get(exc, "expires_on"));
      if date.None? {
        errors := errors + [InvalidDate(exc)];
        continue;
      }
      var key := (py.package(Text(Get(exc, "package"))), py.advisory(Text(Get(exc, "advisory"))));
      if key.0 == "" || key.1 == "" {
        errors := errors + [MissingValue];
        continue;
      }
      if key in index {
        errors := errors + [Duplicate(key)];
        continue;
      }
      index := index[key := Entry(py.severity(Get(exc, "severity")), date.value)];
    }
    assert recs[..|recs|] == recs;
  }

  // ----- the scan ---------------------------------------------------------------------------

  /** A high or critical vulnerability with a name. */
  predicate Relevant(v: Vuln, py: Python) {
    py.severity(v.severity) in {"high", "critical"} && Truthy(v.name)
  }

  predicate Keyed(v: Vuln, py: Python) {
    Relevant(v, py) && py.advisory(v.advisory) != ""
  }

  function VulnKey(v: Vuln, py: Python): Key {
    (py.package(v.name), py.advisory(v.advisory))
  }

  /** The keys met while scanning. */
  function SeenKeys(vulns: seq<Vuln>, py: Python): set<Key> {
    set v | v in vulns && Keyed(v, py) :: VulnKey(v, py)
  }

  predicate SeverityFits(e: Entry, v: Vuln, py: Python) {
    e.severity == "" || e.severity == py.severity(v.severity)
  }

  /** A keyed vulnerability whose key is met for the first time. */
  predicate FirstMet(v: Vuln, seen: set<Key>, py: Python) {
    Keyed(v, py) && VulnKey(v, py) !in seen
  }

  function ImmediateErrors(index: map<Key, Entry>, v: Vuln, seen: set<Key>, py: Python): seq<Complaint> {
    if Relevant(v, py) && !Keyed(v, py) then [NoAdvisory(v)]
    else if FirstMet(v, seen, py) && VulnKey(v, py) in index && !SeverityFits(index[VulnKey(v, py)], v, py)
        then [SeverityMismatch(v)]
    else []
  }

  function Missing(index: map<Key, Entry>, v: Vuln, seen: set<Key>, py: Python): seq<Complaint> {
    if FirstMet(v, seen, py) && VulnKey(v, py) !in index then [MissingException(v)] else []
  }

  function Lapsed(index: map<Key, Entry>, v: Vuln, seen: set<Key>, today: int, py: Python): seq<Complaint> {
    if FirstMet(v, seen, py) && VulnKey(v, py) in index && index[VulnKey(v, py)].expiresOn < today
        then [Expired(v)] else []
  }

  /** What each vulnerability adds, given the keys met before it. */
  function Gather(vulns: seq<Vuln>, add: (Vuln, set<Key>) -> seq<Complaint>, py: Python): seq<Complaint> {
    if vulns == [] then []
    else
      var n := |vulns| - 1;
      Gather(vulns[..n], add, py) + add(vulns[n], SeenKeys(vulns[..n], py))
  }

  function ScanErrors(index: map<Key, Entry>, vulns: seq<Vuln>, py: Python): seq<Complaint> {
    Gather(vulns, (v, seen) => ImmediateErrors(index, v, seen, py), py)
  }

  function ScanMissing(index: map<Key, Entry>, vulns: seq<Vuln>, py: Python): seq<Complaint> {
    Gather(vulns, (v, seen) => Missing(index, v, seen, py), py)
  }

  function ScanExpired(index: map<Key, Entry>, vulns: seq<Vuln>, today: int, py: Python): seq<Complaint> {
    Gather(vulns, (v, seen) => Lapsed(index, v, seen, today, py), py)
  }

  /** The body of the loop in main. */
  method ScanOne(index: map<Key, Entry>, v: Vuln, seen: set<Key>, today: int, py: Python)
    returns (errors: seq<Complaint>, missing: seq<Complaint>, expired: seq<Complaint>, met: set<Key>)
    ensures errors == ImmediateErrors(index, v, seen, py)
    ensures missing == Missing(index, v, seen, py)
    ensures expired == Lapsed(index, v, seen, today, py)
    ensures met == if Keyed(v, py) then seen + {VulnKey(v, py)} else seen
  {
    errors, missing, expired, met := [], [], [], seen;
    var sev := py.severity(v.severity);
    if sev !in {"high", "critical"} || !Truthy(v.name) {
      return;
    }
    if py.advisory(v.advisory) == "" {
      errors := [NoAdvisory(v)];
      return;
    }
    var key := VulnKey(v, py);
    if key in seen {
      return;
    }
    met := seen + {key};
    if key !in index {
      missing := [MissingException(v)];
      return;
    }
    var exc := index[key];
    if exc.severity != "" && exc.severity != sev {
      errors := [SeverityMismatch(v)];
    }
    if exc.expiresOn < today {
      expired := [Expired(v)];
    }
  }

  lemma SeenStep(vulns: seq<Vuln>, i: nat, py: Python)
    requires i < |vulns|
    ensures SeenKeys(vulns[..i + 1], py) == SeenKeys(vulns[..i], py) + if Keyed(vulns[i], py)
        then {VulnKey(vulns[i], py)} else {}
  {
    assert vulns[..i + 1] == vulns[..i] + [vulns[i]];
  }

  lemma GatherStep(vulns: seq<Vuln>, i: nat, add: (Vuln, set<Key>) -> seq<Complaint>, py: Python)
    requires i < |vulns|
    ensures Gather(vulns[..i + 1], add, py) == Gather(vulns[..i], add, py) + add(vulns[i], SeenKeys(vulns[..i], py))
  {
    assert vulns[..i + 1][..i] == vulns[..i];
  }

  /** The loop of main over the yielded vulnerabilities. */
  method Scan(index: map<Key, Entry>, vulns: seq<Vuln>, today: int, py: Python)
    returns (errors: seq<Complaint>, missing: seq<Complaint>, expired: seq<Complaint>)
    ensures errors == ScanErrors(index, vulns, py)
    ensures missing == ScanMissing(index, vulns, py)
    ensures expired == ScanExpired(index, vulns, today, py)
  {
    errors, missing, expired := [], [], [];
    var seen: set<Key> := {};
    for i := 0 to |vulns|
      invariant seen == SeenKeys(vulns[..i], py)
      invariant errors == ScanErrors(index, vulns[..i], py)
      invariant missing == ScanMissing(index, vulns[..i], py)
      invariant expired == ScanExpired(index, vulns[..i], today, py)
    {
      SeenStep(vulns, i, py);
      GatherStep(vulns, i, (v, seen) => ImmediateErrors(index, v, seen, py), py);
      GatherStep(vulns, i, (v, seen) => Missing(index, v, seen, py), py);
      GatherStep(vulns, i, (v, seen) => Lapsed(index, v, seen, today, py), py);
      var e, m, x;
      e, m, x, seen := ScanOne(index, vulns[i], seen, today, py);
      errors, missing, expired := errors + e, missing + m, expired + x;
    }
    assert vulns[..|vulns|] == vulns;
  }

  // ----- the exit code ----------------------------------------------------------------------

  /** Everything main writes to standard error. */
  function Report(recs: seq<Rec>, vulns: seq<Vuln>, today: int, py: Python): seq<Complaint> {
    var index := IndexOf(recs, py);
    ListComplaints(recs, py) + ScanErrors(index, vulns, py) + ScanMissing(index, vulns, py)
        + ScanExpired(index, vulns, today, py)
  }

  function ExitCode(recs: seq<Rec>, vulns: seq<Vuln>, today: int, py: Python): int {
    if Report(recs, vulns, today, py) == [] then 0 else 1
  }

  /** The end of main: the headed lists follow the immediate errors, and any error fails the run. */
  method Conclude(errors: seq<Complaint>, missing: seq<Complaint>, expired: seq<Complaint>)
    returns (code: int, all: seq<Complaint>)
    ensures all == errors + missing + expired
    ensures code == if all == [] then 0 else 1
  {
    all := errors;
    if missing != [] {
      all := all + missing;
    }
    if expired != [] {
      all := all + expired;
    }
    code := if all != [] then 1 else 0;
  }

  method Validate(recs: seq<Rec>, vulns: seq<Vuln>, today: int, py: Python) returns (code: int, errors: seq<Complaint>)
    ensures errors == Report(recs, vulns, today, py)
    ensures code == ExitCode(recs, vulns, today, py)
  {
    var index;
    index, errors := BuildIndex(recs, py);
    var immediate, missing, expired := Scan(index, vulns, today, py);
    code, errors := Conclude(errors + immediate, missing, expired);
  }

  // ----- the verdict as a quantified specification --------------------------------------------

  /** Every record is sound, and no two share a key. */
  ghost predicate SoundList(recs: seq<Rec>, py: Python) {
    && (forall r | r in recs :: Fault(r, py).None?)
    && (forall i, j :: 0 <= i < j < |recs| ==> KeyOf(recs[i], py) != KeyOf(recs[j], py))
  }

  /** Some exception covers the vulnerability: its key, an unexpired date, and a severity that is blank or equal. */
  ghost predicate Covered(recs: seq<Rec>, v: Vuln, today: int, py: Python) {
    exists r :: r in recs && KeyOf(r, py) == VulnKey(v, py) && EntryOf(r, py).expiresOn >= today
        && SeverityFits(EntryOf(r, py), v, py)
  }

  /** Vulnerability i is the first one with its key. */
  ghost predicate First(vulns: seq<Vuln>, i: nat, py: Python)
    requires i < |vulns|
  {
    Keyed(vulns[i], py) && forall j :: 0 <= j < i && Keyed(vulns[j], py) ==>
        VulnKey(vulns[j], py) != VulnKey(vulns[i], py)
  }

  ghost predicate Passes(recs: seq<Rec>, vulns: seq<Vuln>, today: int, py: Python) {
    && SoundList(recs, py)
    && (forall v | v in vulns && Relevant(v, py) :: Keyed(v, py))
    && (forall i :: 0 <= i < |vulns| && First(vulns, i, py) ==> Covered(recs, vulns[i], today, py))
  }

  ghost predicate HasKey(recs: seq<Rec>, k: Key, py: Python) {
    exists r :: r in recs && Fault(r, py).None? && KeyOf(r, py) == k
  }

  lemma {:induction false} IndexKeys(recs: seq<Rec>, py: Python, k: Key)
    ensures k in IndexOf(recs, py) <==> HasKey(recs, k, py)
  {
    if recs == [] {
    } else {
      var n := |recs| - 1;
      IndexKeys(recs[..n], py, k);
      assert recs == recs[..n] + [recs[n]];
      IndexKeys(recs[..n], py, KeyOf(recs[n], py));
    }
  }

  /** Another record has a key of its own exactly when no sound record holds that key. */
  lemma NewKey(recs: seq<Rec>, rec: Rec, py: Python)
    requires forall r | r in recs :: Fault(r, py).None?
    ensures !HasKey(recs, KeyOf(rec, py), py) <==> forall i :: 0 <= i < |recs| ==> KeyOf(recs[i], py) != KeyOf(rec, py)
  {
    forall i | 0 <= i < |recs| ensures HasKey(recs, KeyOf(recs[i], py), py) {
      assert recs[i] in recs;
    }
  }

  lemma SoundStep(recs: seq<Rec>, rec: Rec, py: Python)
    ensures SoundList(recs + [rec], py) <==>
      SoundList(recs, py) && Fault(rec, py).None? && !HasKey(recs, KeyOf(rec, py), py)
  {
    var all, n := recs + [rec], |recs|;
    assert all[..n] == recs && all[n] == rec;
    if SoundList(all, py) {
      forall r | r in recs ensures Fault(r, py).None? {
        assert r in all;
      }
      assert rec in all;
      NewKey(recs, rec, py);
    } else if SoundList(recs, py) {
      NewKey(recs, rec, py);
    }
  }

  lemma {:induction false} NoComplaintIffSound(recs: seq<Rec>, py: Python)
    ensures ListComplaints(recs, py) == [] <==> SoundList(recs, py)
  {
    if recs == [] {
    } else {
      var n := |recs| - 1;
      assert recs == recs[..n] + [recs[n]];
      NoComplaintIffSound(recs[..n], py);
      SoundStep(recs[..n], recs[n], py);
      IndexKeys(recs[..n], py, KeyOf(recs[n], py));
    }
  }

  /** In a sound list the index holds every record's entry under its key. */
  lemma {:induction false} IndexEntry(recs: seq<Rec>, py: Python, r: Rec)
    requires SoundList(recs, py) && r in recs
    ensures KeyOf(r, py) in IndexOf(recs, py) && IndexOf(recs, py)[KeyOf(r, py)] == EntryOf(r, py)
  {
    var n := |recs| - 1;
    var before, rec := recs[..n], recs[n];
    assert recs == before + [rec];
    SoundStep(before, rec, py);
    IndexKeys(before, py, KeyOf(rec, py));
    if r in before {
      IndexEntry(before, py, r);
    }
  }

  lemma {:induction false} GatherEmpty(vulns: seq<Vuln>, add: (Vuln, set<Key>) -> seq<Complaint>, py: Python)
    ensures Gather(vulns, add, py) == [] <==> forall i :: 0 <= i < |vulns| ==>
        add(vulns[i], SeenKeys(vulns[..i], py)) == []
  {
    if vulns == [] {
    } else {
      var n := |vulns| - 1;
      GatherEmpty(vulns[..n], add, py);
      assert forall i :: 0 <= i < n ==> vulns[..n][..i] == vulns[..i];
    }
  }

  lemma FirstIs(vulns: seq<Vuln>, i: nat, py: Python)
    requires i < |vulns|
    ensures First(vulns, i, py) <==> FirstMet(vulns[i], SeenKeys(vulns[..i], py), py)
  {
    var seen := SeenKeys(vulns[..i], py);
    if Keyed(vulns[i], py) {
      if VulnKey(vulns[i], py) in seen {
        var v :| v in vulns[..i] && Keyed(v, py) && VulnKey(v, py) == VulnKey(vulns[i], py);
        var j :| 0 <= j < i && vulns[j] == v;
      } else {
        forall j | 0 <= j < i && Keyed(vulns[j], py) ensures VulnKey(vulns[j], py) != VulnKey(vulns[i], py) {
          assert vulns[j] in vulns[..i];
        }
      }
    }
  }

  lemma CoveredIs(recs: seq<Rec>, v: Vuln, today: int, py: Python)
    requires SoundList(recs, py)
    ensures var index := IndexOf(recs, py);
      Covered(recs, v, today, py) <==>
        VulnKey(v, py) in index && SeverityFits(index[VulnKey(v, py)], v, py)
            && index[VulnKey(v, py)].expiresOn >= today
  {
    var index, k := IndexOf(recs, py), VulnKey(v, py);
    IndexKeys(recs, py, k);
    if k in index {
      var r :| r in recs && Fault(r, py).None? && KeyOf(r, py) == k;
      IndexEntry(recs, py, r);
    }
    if Covered(recs, v, today, py) {
      var r :| r in recs && KeyOf(r, py) == k && EntryOf(r, py).expiresOn >= today
          && SeverityFits(EntryOf(r, py), v, py);
      IndexEntry(recs, py, r);
    }
  }

  /** Nothing is reported about vulnerability i. */
  ghost predicate Quiet(index: map<Key, Entry>, vulns: seq<Vuln>, i: nat, today: int, py: Python)
    requires i < |vulns|
  {
    var (v, seen) := (vulns[i], SeenKeys(vulns[..i], py));
    ImmediateErrors(index, v, seen, py) == [] && Missing(index, v, seen, py) == []
        && Lapsed(index, v, seen, today, py) == []
  }

  lemma ScanQuiet(index: map<Key, Entry>, vulns: seq<Vuln>, today: int, py: Python)
    ensures ScanErrors(index, vulns, py) == [] && ScanMissing(index, vulns, py) == []
        && ScanExpired(index, vulns, today, py) == []
      <==> forall i :: 0 <= i < |vulns| ==> Quiet(index, vulns, i, today, py)
  {
    var e := (v, seen) => ImmediateErrors(index, v, seen, py);
    var m := (v, seen) => Missing(index, v, seen, py);
    var x := (v, seen) => Lapsed(index, v, seen, today, py);
    GatherEmpty(vulns, e, py);
    GatherEmpty(vulns, m, py);
    GatherEmpty(vulns, x, py);
    assert forall i :: 0 <= i < |vulns| ==>
      (Quiet(index, vulns, i, today, py) <==>
        && e(vulns[i], SeenKeys(vulns[..i], py)) == []
        && m(vulns[i], SeenKeys(vulns[..i], py)) == []
        && x(vulns[i], SeenKeys(vulns[..i], py)) == []);
  }

  lemma QuietIs(index: map<Key, Entry>, vulns: seq<Vuln>, i: nat, today: int, py: Python)
    requires i < |vulns|
    ensures var v := vulns[i];
      Quiet(index, vulns, i, today, py) <==>
        && (Relevant(v, py) ==> Keyed(v, py))
        && (First(vulns, i, py) ==>
              VulnKey(v, py) in index && SeverityFits(index[VulnKey(v, py)], v, py)
                  && index[VulnKey(v, py)].expiresOn >= today)
  {
    FirstIs(vulns, i, py);
  }

  /**
   * The exit code is 0 exactly when the list is sound, every relevant vulnerability has an advisory,
   * and the first one of each key is covered by an exception.
   */
  lemma VerdictExact(recs: seq<Rec>, vulns: seq<Vuln>, today: int, py: Python)
    ensures ExitCode(recs, vulns, today, py) == 0 <==> Passes(recs, vulns, today, py)
  {
    var index := IndexOf(recs, py);
    NoComplaintIffSound(recs, py);
    ScanQuiet(index, vulns, today, py);
    if SoundList(recs, py) {
      forall i | 0 <= i < |vulns|
        ensures Quiet(index, vulns, i, today, py) <==>
          (Relevant(vulns[i], py) ==> Keyed(vulns[i], py))
              && (First(vulns, i, py) ==> Covered(recs, vulns[i], today, py))
      {
        QuietIs(index, vulns, i, today, py);
        CoveredIs(recs, vulns[i], today, py);
      }
      assert (forall v | v in vulns && Relevant(v, py) :: Keyed(v, py)) <==>
        forall i :: 0 <= i < |vulns| ==> (Relevant(vulns[i], py) ==> Keyed(vulns[i], py));
    }
  }
}
