/** What an exception file can hold: values without line breaks, and all of those. */
module AuditText {
  import opened Prelude
  import opened Blocks
  import opened AuditParser
  import opened AuditPrinter
  import opened AuditGate

  // ----- every value read from a file is one line ---------------------------------------------

  /** A line as text mode hands it out. */
  ghost predicate FileLine(raw: string) {
    exists body :: OneLine(body) && (raw == body || raw == body + "\n")
  }

  lemma {:induction false} FileLines(text: string)
    ensures forall raw | raw in TextLines(text) :: FileLine(raw)
    decreases |text|
  {
    var k := LineEnd(text);
    assert text[..|text|] == text;
    if k < |text| {
      FileLines(text[if text[k] == '\r' && k + 1 < |text| && text[k + 1] == '\n' then k + 2 else k + 1..]);
      assert FileLine(text[..k] + "\n");
    } else {
      assert FileLine(text);
    }
  }

  lemma {:induction false} StripLeftTrailing(s: string, after: string)
    requires Blank(after)
    ensures StripLeft(s + after) == if StripLeft(s) == "" then "" else StripLeft(s) + after
  {
    if s == "" {
      BlankBefore(after, "");
      assert s + after == after + "";
    } else if IsSpace(s[0]) {
      assert (s + after)[1..] == s[1..] + after;
      StripLeftTrailing(s[1..], after);
    }
  }

  lemma OneLineIs(s: string)
    ensures OneLine(s) <==> '\n' !in s && '\r' !in s
  {
  }

  lemma StripOneLine(s: string)
    requires OneLine(s)
    ensures OneLine(Strip(s))
  {
    OneLineIs(s);
    StripWithin(s, '\n');
    StripWithin(s, '\r');
    OneLineIs(Strip(s));
  }

  lemma FileLineStrips(raw: string)
    requires FileLine(raw)
    ensures OneLine(Strip(raw))
  {
    var body :| OneLine(body) && (raw == body || raw == body + "\n");
    StripLeftTrailing(body, "\n");
    BlankAfter(StripLeft(body), "\n");
    StripOneLine(body);
  }

  ghost predicate OneLineValues(rec: Rec) {
    forall k :: k in rec ==> OneLine(rec[k])
  }

  lemma ValueOneLine(line: string)
    requires OneLine(line) && SplitKV(line).Some?
    ensures OneLine(SplitKV(line).value.1)
  {
    StripOneLine(line[Colon(line) + 1..]);
  }

  lemma AddLineOneLine(rec: Rec, raw: string)
    requires OneLineValues(rec) && FileLine(raw)
    ensures OneLineValues(AddLine(rec, raw))
  {
    FileLineStrips(raw);
    var line := Strip(raw);
    if IsBullet(raw) {
      StripOneLine(line[2..]);
      line := Body(raw);
    }
    if SplitKV(line).Some? {
      ValueOneLine(line);
    }
  }

  /** No value that the parser reads from a file contains a line break. */
  lemma ParsedValues(text: string)
    requires Parse(TextLines(text)).Ok?
    ensures forall rec | rec in Parse(TextLines(text)).value :: OneLineValues(rec)
  {
    var lines := TextLines(text);
    FileLines(text);
    forall rec, raw | raw in lines && OneLineValues(rec) ensures OneLineValues(AddLine(rec, raw)) {
      AddLineOneLine(rec, raw);
    }
    RecordsSatisfy(lines, IsBullet, map[], AddLine, (rec: Rec) => OneLineValues(rec));
  }

  // ----- every list of such records can be written to a file ----------------------------------

  /** A record with the required fields and no others. */
  ghost predicate Writable(rec: Rec) {
    rec.Keys == (set f | f in REQUIRED) && OneLineValues(rec)
  }

  lemma WritableOf(package: string, advisory: string, severity: string, mitigation: string, day: string)
    requires OneLine(package) && OneLine(advisory) && OneLine(severity) && OneLine(mitigation) && OneLine(day)
    ensures Writable(map["package" := package, "advisory" := advisory, "severity" := severity,
                         "mitigation" := mitigation, "expires_on" := day])
  {
  }

  function PairsOf(rec: Rec): Pairs {
    seq(|REQUIRED|, k requires 0 <= k < |REQUIRED| => (REQUIRED[k], Get(rec, REQUIRED[k])))
  }

  function FileOf(recs: seq<Rec>): string {
    TextOf(PrintLines(seq(|recs|, k requires 0 <= k < |recs| => PairsOf(recs[k]))), "\n")
  }

  predicate Word(s: string) {
    s != "" && forall k :: 0 <= k < |s| ==> 'a' <= s[k] <= 'z' || s[k] == '_'
  }

  lemma WordAdmissible(k: string, first: bool)
    requires Word(k) && k != "version" && k != "exceptions"
    ensures Admissible(k, first) && OneLine(k)
  {
    assert 'a' <= k[0] <= 'z' || k[0] == '_';
  }

  lemma RequiredWords(i: nat)
    requires i < |REQUIRED|
    ensures Word(REQUIRED[i]) && REQUIRED[i] != "version" && REQUIRED[i] != "exceptions"
  {
  }

  lemma PairsPrintable(rec: Rec)
    requires Writable(rec)
    ensures Printable(PairsOf(rec)) && FileSafe(PairsOf(rec))
  {
    forall i | 0 <= i < |REQUIRED| ensures Admissible(PairsOf(rec)[i].0, i == 0) && OneLine(PairsOf(rec)[i].0) {
      RequiredWords(i);
      WordAdmissible(REQUIRED[i], i == 0);
    }
  }

  lemma PairsRead(rec: Rec)
    requires Writable(rec)
    ensures RecordMap(PairsOf(rec)) == rec
  {
    var pairs, read := PairsOf(rec), RecordMap(PairsOf(rec));
    RecordMapExact(pairs);
    forall f | f in rec ensures f in read {
      var k :| 0 <= k < |REQUIRED| && REQUIRED[k] == f;
      assert pairs[k].0 == f;
    }
  }

  lemma FileReadsBack(recs: seq<Rec>)
    requires forall rec | rec in recs :: Writable(rec)
    ensures Parse(TextLines(FileOf(recs))) == Ok(recs)
  {
    var records := seq(|recs|, k requires 0 <= k < |recs| => PairsOf(recs[k]));
    forall k | 0 <= k < |recs|
      ensures Printable(records[k]) && FileSafe(records[k]) && RecordMap(records[k]) == recs[k]
    {
      PairsPrintable(recs[k]);
      PairsRead(recs[k]);
    }
    ParserInvertsPrinter(records, "\n");
    assert RecordMaps(records) == recs;
  }
}
