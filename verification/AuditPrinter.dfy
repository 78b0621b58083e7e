/** Printing exception records in the format of the list, and reading the text back. */
module AuditPrinter {
  import opened Prelude
  import opened Blocks
  import opened AuditParser

  // ----- iterating over a text file ---------------------------------------------------------

  function LineEnd(text: string): (k: nat)
    ensures k <= |text| && OneLine(text[..k])
    ensures k < |text| ==> IsNewline(text[k])
  {
    if text == "" || IsNewline(text[0]) then 0
    else
      var k := LineEnd(text[1..]);
      assert text[..k + 1] == [text[0]] + text[1..][..k];
      k + 1
  }

  /** Text mode: each of LF, CR and CR LF ends a line, and is read as LF. */
  function TextLines(text: string): seq<string>
    decreases |text|
  {
    if text == "" then []
    else
      var k := LineEnd(text);
      if k == |text| then [text]
      else
        var next := if text[k] == '\r' && k + 1 < |text| && text[k + 1] == '\n' then k + 2 else k + 1;
        [text[..k] + "\n"] + TextLines(text[next..])
  }

  lemma {:induction false} LineEndIs(text: string, k: nat)
    requires k < |text| && IsNewline(text[k]) && OneLine(text[..k])
    ensures LineEnd(text) == k
  {
    if k == 0 {
    } else {
      assert text[..k][0] == text[0] && text[..k][1..] == text[1..][..k - 1];
      LineEndIs(text[1..], k - 1);
    }
  }

  predicate IsEnding(e: string) {
    e == "\n" || e == "\r" || e == "\r\n"
  }

  /** The first line of a text, whichever way it ends; a CR before an LF would be part of CR LF. */
  lemma FirstTextLine(line: string, e: string, rest: string)
    requires OneLine(line) && IsEnding(e) && (e == "\r" && rest != "" ==> rest[0] != '\n')
    ensures TextLines(line + e + rest) == [line + "\n"] + TextLines(rest)
  {
    var text := line + e + rest;
    assert text[..|line|] == line && text[|line| + |e|..] == rest;
    assert text[|line|] == e[0] && (|e| == 2 ==> text[|line| + 1] == e[1]);
    assert |e| == 1 && rest != "" ==> text[|line| + 1] == rest[0];
    LineEndIs(text, |line|);
  }

  // ----- one entry --------------------------------------------------------------------------

  function EntryText(k: string, v: string): string {
    k + ": \"" + v + "\""
  }

  lemma {:induction false} ColonIs(line: string, k: nat)
    requires k < |line| && line[k] == ':' && ':' !in line[..k]
    ensures Colon(line) == k
  {
    if k == 0 {
    } else {
      assert line[0] in line[..k];
      assert line[..k][1..] == line[1..][..k - 1];
      ColonIs(line[1..], k - 1);
    }
  }

  /** An entry reads back as written exactly when its key is stripped and free of colons, whatever the value. */
  lemma EntryReadsBack(k: string, v: string)
    ensures SplitKV(EntryText(k, v)) == Some((k, v)) <==> Stripped(k) && ':' !in k
    ensures Stripped(k) ==> Stripped(EntryText(k, v))
  {
    var line := EntryText(k, v);
    if ':' in k {
      var c := Colon(k);
      assert k == k[..c] + k[c..];
      assert line[..c] == k[..c];
      ColonIs(line, c);
      StripShortens(line[..c]);
    } else {
      assert line[..|k|] == k;
      ColonIs(line, |k|);
      var quoted := "\"" + v + "\"";
      assert line[|k| + 1..] == " " + quoted + "";
      StripExact(" ", quoted, "");
      assert Unquote(quoted) == v;
      StripStripped(k);
      if Stripped(k) {
        StripSame(k);
      }
    }
  }

  lemma StripShortens(s: string)
    ensures |Strip(s)| <= |s|
  {
  }

  predicate IsQuote(q: char) {
    q == '"' || q == '\''
  }

  /** The value begins and ends with the same quote character. */
  predicate Quoted(v: string) {
    v != "" && IsQuote(v[0]) && v[|v| - 1] == v[0]
  }

  /** Either quote character may surround a value. */
  lemma QuotedValue(k: string, v: string, q: char)
    requires Stripped(k) && ':' !in k && IsQuote(q)
    ensures SplitKV(k + ": " + [q] + v + [q]) == Some((k, v))
  {
    var line, quoted := k + ": " + [q] + v + [q], [q] + v + [q];
    assert line[..|k|] == k;
    ColonIs(line, |k|);
    assert line[|k| + 1..] == " " + quoted + "";
    StripExact(" ", quoted, "");
    assert Unquote(quoted) == v;
    StripSame(k);
  }

  lemma PlainParts(k: string, v: string)
    requires ':' !in k
    ensures SplitKV(k + ": " + v) == Some((Strip(k), Unquote(Strip(v))))
  {
    var line := k + ": " + v;
    assert line[..|k|] == k;
    ColonIs(line, |k|);
    assert line[|k| + 1..] == " " + v;
    BlankBefore(" ", v);
  }

  lemma UnquoteStrip(v: string)
    ensures Unquote(Strip(v)) == v <==> Stripped(v) && !Quoted(v)
  {
    StripStripped(v);
    StripShortens(v);
    if Stripped(v) {
      StripSame(v);
    }
  }

  /** Without quotes a value reads back exactly when it is stripped and does not look quoted. */
  lemma PlainValue(k: string, v: string)
    ensures SplitKV(k + ": " + v) == Some((k, v)) <==> Stripped(k) && ':' !in k && Stripped(v) && !Quoted(v)
  {
    if ':' in k {
      var line, c := k + ": " + v, Colon(k);
      assert k == k[..c] + k[c..];
      assert line[..c] == k[..c];
      ColonIs(line, c);
      StripShortens(line[..c]);
    } else {
      PlainParts(k, v);
      UnquoteStrip(v);
      StripStripped(k);
      if Stripped(k) {
        StripSame(k);
      }
    }
  }

  // ----- one printed line -------------------------------------------------------------------

  lemma DashedLineStrips(entry: string)
    requires Stripped(entry) && entry != ""
    ensures Strip("- " + entry + "\n") == "- " + entry
  {
    var line := "- " + entry;
    assert line[|line| - 1] == entry[|entry| - 1];
    StripExact("", line, "\n");
    assert "" + line + "\n" == "- " + entry + "\n";
  }

  /** A line that starts a record with an entry adds that entry. */
  lemma BulletLineAdds(rec: Rec, entry: string, k: string, v: string)
    requires Stripped(entry) && entry != "" && SplitKV(entry) == Some((k, v))
    ensures var raw := "- " + entry + "\n";
      IsBullet(raw) && Body(raw) == entry && AddLine(rec, raw) == rec[k := v]
  {
    DashedLineStrips(entry);
    assert ("- " + entry)[2..] == entry;
    StripSame(entry);
  }

  lemma PlainLineAdds(rec: Rec, entry: string, k: string, v: string)
    requires Stripped(entry) && SplitKV(entry) == Some((k, v))
    requires !IsComment(entry) && !HasPrefix(entry, "- ")
    ensures var raw := "  " + entry + "\n";
      !IsBullet(raw) && AddLine(rec, raw) == rec[k := v]
  {
    StripExact("  ", entry, "\n");
  }

  /**
   * Between blanks, nothing, a comment, a heading, or text without a colon that is not a bullet: the
   * line starts no record and adds nothing to one.
   */
  lemma IgnoredLine(rec: Rec, before: string, text: string, after: string)
    requires Blank(before) && Stripped(text) && Blank(after)
    requires || text == "" || HasPrefix(text, "#") || HasPrefix(text, "version:") || HasPrefix(text, "exceptions:")
             || (':' !in text && !HasPrefix(text, "- "))
    ensures !IsBullet(before + text + after) && AddLine(rec, before + text + after) == rec
  {
    StripExact(before, text, after);
    ColonFound(text);
  }

  /** A key that a printed line can carry; the first line of a record is protected by its dash. */
  predicate Admissible(k: string, first: bool) {
    && Stripped(k) && ':' !in k
    && (first || (!HasPrefix(k, "#") && !HasPrefix(k, "- ") && k != "version" && k != "exceptions"))
  }

  /** An entry starts like its key. */
  lemma NoPrefix(k: string, v: string, prefix: string)
    requires !HasPrefix(k, prefix) && prefix != "" && ':' !in prefix
    ensures !HasPrefix(EntryText(k, v), prefix)
  {
    var entry := EntryText(k, v);
    if |prefix| <= |k| {
      assert entry[..|prefix|] == k[..|prefix|];
    } else {
      assert entry[|k|] == ':' && prefix[|k|] in prefix;
    }
  }

  lemma NoKeyword(k: string, v: string, word: string)
    requires k != word && ':' !in k && ':' !in word
    ensures !HasPrefix(EntryText(k, v), word + ":")
  {
    var entry, prefix := EntryText(k, v), word + ":";
    if |word| < |k| {
      assert prefix[|word|] == ':' && entry[|word|] == k[|word|] && k[|word|] in k;
    } else if |k| < |word| {
      assert entry[|k|] == ':' && prefix[|k|] == word[|k|] && word[|k|] in word;
    } else {
      assert entry[..|k|] == k && prefix[..|k|] == word;
    }
  }

  lemma EntryIsPlain(k: string, v: string)
    requires Admissible(k, false)
    ensures !IsComment(EntryText(k, v)) && !HasPrefix(EntryText(k, v), "- ")
  {
    NoPrefix(k, v, "- ");
    NoPrefix(k, v, "#");
    NoKeyword(k, v, "version");
    NoKeyword(k, v, "exceptions");
    assert "version" + ":" == "version:" && "exceptions" + ":" == "exceptions:";
  }

  // ----- whole records ----------------------------------------------------------------------

  type Pairs = seq<(string, string)>

  function PrintLine(k: string, v: string, first: bool): string {
    (if first then "- " else "  ") + EntryText(k, v)
  }

  function PrintRecord(pairs: Pairs): seq<string> {
    seq(|pairs|, j requires 0 <= j < |pairs| => PrintLine(pairs[j].0, pairs[j].1, j == 0))
  }

  function PrintLines(records: seq<Pairs>): seq<string> {
    if records == [] then [] else PrintLines(records[..|records| - 1]) + PrintRecord(records[|records| - 1])
  }

  /** The dictionary of a record: a repeated key keeps its last value. */
  function RecordMap(pairs: Pairs): Rec {
    if pairs == [] then map[]
    else RecordMap(pairs[..|pairs| - 1])[pairs[|pairs| - 1].0 := pairs[|pairs| - 1].1]
  }

  /** The dictionary has the printed keys, each with the value of its last entry. */
  lemma {:induction false} RecordMapExact(pairs: Pairs)
    ensures forall j :: 0 <= j < |pairs| ==> pairs[j].0 in RecordMap(pairs)
    ensures forall k :: k in RecordMap(pairs) ==>
      exists j :: 0 <= j < |pairs| && pairs[j] == (k, RecordMap(pairs)[k]) && forall i :: j < i < |pairs| ==>
          pairs[i].0 != k
  {
    if pairs == [] {
    } else {
      var n := |pairs| - 1;
      var before := RecordMap(pairs[..n]);
      RecordMapExact(pairs[..n]);
      forall k | k in RecordMap(pairs)
        ensures exists j :: 0 <= j < |pairs| && pairs[j] == (k, RecordMap(pairs)[k]) && forall i :: j < i < |pairs| ==>
            pairs[i].0 != k
      {
        if k == pairs[n].0 {
          assert pairs[n] == (k, RecordMap(pairs)[k]);
        } else {
          var j :| 0 <= j < n && pairs[..n][j] == (k, before[k]) && forall i :: j < i < n ==> pairs[..n][i].0 != k;
          assert pairs[j] == (k, RecordMap(pairs)[k]);
          assert forall i :: j < i < n ==> pairs[i] == pairs[..n][i];
        }
      }
    }
  }

  /** A record that can be printed: not empty, with admissible keys. */
  predicate Printable(pairs: Pairs) {
    pairs != [] && forall j :: 0 <= j < |pairs| ==> Admissible(pairs[j].0, j == 0)
  }

  function WithNewlines(lines: seq<string>): seq<string> {
    seq(|lines|, j requires 0 <= j < |lines| => lines[j] + "\n")
  }

  /** The printed line is a bullet when it is the first, and adds its entry. */
  ghost predicate AddsEntry(raw: string, k: string, v: string, first: bool) {
    && IsBullet(raw) == first && (first ==> ':' in Body(raw))
    && forall rec :: AddLine(rec, raw) == rec[k := v]
  }

  lemma PrintLineAdds(k: string, v: string, first: bool)
    requires Admissible(k, first)
    ensures AddsEntry(PrintLine(k, v, first) + "\n", k, v, first)
  {
    var entry := EntryText(k, v);
    EntryReadsBack(k, v);
    assert entry[|k|] == ':';
    if !first {
      EntryIsPlain(k, v);
    }
    forall rec ensures AddLine(rec, PrintLine(k, v, first) + "\n") == rec[k := v] {
      if first {
        BulletLineAdds(rec, entry, k, v);
      } else {
        PlainLineAdds(rec, entry, k, v);
      }
    }
    if first {
      BulletLineAdds(map[], entry, k, v);
    } else {
      PlainLineAdds(map[], entry, k, v);
    }
  }

  /** Every key that the parser reads is stripped and free of colons. */
  lemma ReadKey(line: string)
    requires SplitKV(line).Some?
    ensures var k := SplitKV(line).value.0; Stripped(k) && ':' !in k
  {
    var before := line[..Colon(line)];
    StripStripped(before);
    StripWithin(before, ':');
  }

  lemma StripWithin(s: string, c: char)
    requires c !in s
    ensures c !in Strip(s)
  {
    LeftWithin(s, c);
    assert Strip(s) <= StripLeft(s);
  }

  lemma {:induction false} LeftWithin(s: string, c: char)
    requires c !in s
    ensures c !in StripLeft(s)
  {
    if s != "" && IsSpace(s[0]) {
      LeftWithin(s[1..], c);
    }
  }

  lemma OneEntryRead(raw: string, k: string, v: string)
    requires AddLine(map[], raw) == map[k := v]
    ensures Stripped(k) && ':' !in k && (IsBullet(raw) || !IsComment(Strip(raw)))
  {
    assert k in AddLine(map[], raw);
    ReadKey(if IsBullet(raw) then Body(raw) else Strip(raw));
  }

  lemma PlainLineStrips(entry: string)
    requires Stripped(entry)
    ensures Strip("  " + entry + "\n") == entry
  {
    StripExact("  ", entry, "\n");
  }

  lemma EntryStarts(k: string, v: string, prefix: string)
    requires HasPrefix(k + ":", prefix)
    ensures HasPrefix(EntryText(k, v), prefix)
  {
    assert EntryText(k, v)[..|k| + 1] == k + ":";
    assert prefix == (k + ":")[..|prefix|];
  }

  lemma KeyStarts(k: string, prefix: string)
    requires HasPrefix(k, prefix)
    ensures HasPrefix(k + ":", prefix)
  {
  }

  /** A later line whose key looks like a comment, a bullet or a heading is not an entry. */
  lemma PlainLineLost(k: string, v: string)
    requires Stripped(k) && ':' !in k && !Admissible(k, false)
    ensures var raw := PrintLine(k, v, false) + "\n"; IsBullet(raw) || IsComment(Strip(raw))
  {
    EntryReadsBack(k, v);
    PlainLineStrips(EntryText(k, v));
    if k == "version" {
      EntryStarts(k, v, "version:");
    } else if k == "exceptions" {
      EntryStarts(k, v, "exceptions:");
    } else if HasPrefix(k, "#") {
      KeyStarts(k, "#");
      EntryStarts(k, v, "#");
    } else {
      KeyStarts(k, "- ");
      EntryStarts(k, v, "- ");
    }
  }

  /** A printed line adds its entry exactly when the key is admissible in its place, whatever the value. */
  lemma LineReadsBack(k: string, v: string, first: bool)
    ensures AddsEntry(PrintLine(k, v, first) + "\n", k, v, first) <==> Admissible(k, first)
  {
    if Admissible(k, first) {
      PrintLineAdds(k, v, first);
    } else if AddsEntry(PrintLine(k, v, first) + "\n", k, v, first) {
      OneEntryRead(PrintLine(k, v, first) + "\n", k, v);
      PlainLineLost(k, v);
      assert false;
    }
  }

  lemma {:induction false} FoldOfEntries<L>(lines: seq<L>, pairs: Pairs, add: (Rec, L) -> Rec)
    requires |lines| == |pairs|
    requires forall j, rec :: 0 <= j < |lines| ==> add(rec, lines[j]) == rec[pairs[j].0 := pairs[j].1]
    ensures Fold(lines, map[], add) == RecordMap(pairs)
  {
    if |lines| == 0 {
    } else {
      FoldOfEntries(lines[..|lines| - 1], pairs[..|pairs| - 1], add);
    }
  }

  /** The lines are one whole block, and add up to rec. */
  ghost predicate MakesRecord(lines: seq<string>, rec: Rec) {
    && lines != [] && IsBullet(lines[0]) && ':' in Body(lines[0])
    && (forall j :: 1 <= j < |lines| ==> !IsBullet(lines[j]))
    && Fold(lines, map[], AddLine) == rec
  }

  lemma PrintedRecordAdds(pairs: Pairs)
    requires Printable(pairs)
    ensures MakesRecord(WithNewlines(PrintRecord(pairs)), RecordMap(pairs))
  {
    var lines := WithNewlines(PrintRecord(pairs));
    forall j | 0 <= j < |lines| ensures AddsEntry(lines[j], pairs[j].0, pairs[j].1, j == 0) {
      PrintLineAdds(pairs[j].0, pairs[j].1, j == 0);
    }
    FoldOfEntries(lines, pairs, AddLine);
  }

  function RecordMaps(records: seq<Pairs>): seq<Rec> {
    seq(|records|, r requires 0 <= r < |records| => RecordMap(records[r]))
  }

  lemma NewlinesAppend(s: seq<string>, t: seq<string>)
    ensures WithNewlines(s + t) == WithNewlines(s) + WithNewlines(t)
  {
  }

  lemma ReadableAppend(before: seq<string>, lines: seq<string>, rec: Rec)
    requires Readable(before) && MakesRecord(lines, rec)
    ensures Readable(before + lines)
  {
    forall i | 0 <= i < |lines| && IsBullet(lines[i]) ensures ':' in Body(lines[i]) {
      assert i == 0;
    }
  }

  lemma AppendRecord(before: seq<string>, lines: seq<string>, rec: Rec)
    requires Readable(before) && MakesRecord(lines, rec)
    ensures Readable(before + lines) && RecordsOf(before + lines) == RecordsOf(before) + [rec]
  {
    AppendBlock(before, lines, IsBullet, map[], AddLine);
    ReadableAppend(before, lines, rec);
  }

  lemma RecordMapsStep(records: seq<Pairs>)
    requires records != []
    ensures RecordMaps(records) == RecordMaps(records[..|records| - 1]) + [RecordMap(records[|records| - 1])]
  {
  }

  lemma PrintedStep(records: seq<Pairs>)
    requires records != []
    ensures var n := |records| - 1;
      WithNewlines(PrintLines(records)) == WithNewlines(PrintLines(records[..n]))
          + WithNewlines(PrintRecord(records[n]))
  {
    NewlinesAppend(PrintLines(records[..|records| - 1]), PrintRecord(records[|records| - 1]));
  }

  lemma {:induction false} PrintedLinesParse(records: seq<Pairs>)
    requires forall r :: 0 <= r < |records| ==> Printable(records[r])
    ensures Readable(WithNewlines(PrintLines(records)))
    ensures RecordsOf(WithNewlines(PrintLines(records))) == RecordMaps(records)
  {
    if records == [] {
    } else {
      var n := |records| - 1;
      var before, lines := WithNewlines(PrintLines(records[..n])), WithNewlines(PrintRecord(records[n]));
      PrintedLinesParse(records[..n]);
      PrintedRecordAdds(records[n]);
      AppendRecord(before, lines, RecordMap(records[n]));
      PrintedStep(records);
      RecordMapsStep(records);
    }
  }

  // ----- the text of the file ---------------------------------------------------------------

  /** The lines of a file, each with the same ending. */
  function TextOf(lines: seq<string>, e: string): string {
    if lines == [] then "" else lines[0] + e + TextOf(lines[1..], e)
  }

  lemma NoBreakFirst(lines: seq<string>, e: string)
    requires forall j :: 0 <= j < |lines| ==> OneLine(lines[j])
    requires e == "\r" && TextOf(lines, e) != ""
    ensures TextOf(lines, e)[0] != '\n'
  {
    if lines[0] == "" {
      assert TextOf(lines, e) == e + TextOf(lines[1..], e);
    } else {
      assert TextOf(lines, e)[0] == lines[0][0];
    }
  }

  lemma {:induction false} TextLinesOfText(lines: seq<string>, e: string)
    requires IsEnding(e) && forall j :: 0 <= j < |lines| ==> OneLine(lines[j])
    ensures TextLines(TextOf(lines, e)) == WithNewlines(lines)
  {
    if lines == [] {
    } else {
      TextLinesOfText(lines[1..], e);
      if e == "\r" && TextOf(lines[1..], e) != "" {
        NoBreakFirst(lines[1..], e);
      }
      FirstTextLine(lines[0], e, TextOf(lines[1..], e));
      assert WithNewlines(lines) == [lines[0] + "\n"] + WithNewlines(lines[1..]);
    }
  }

  predicate FileSafe(pairs: Pairs) {
    forall j :: 0 <= j < |pairs| ==> OneLine(pairs[j].0) && OneLine(pairs[j].1)
  }

  lemma {:induction false} PrintedLinesSafe(records: seq<Pairs>)
    requires forall r :: 0 <= r < |records| ==> FileSafe(records[r])
    ensures forall j :: 0 <= j < |PrintLines(records)| ==> OneLine(PrintLines(records)[j])
  {
    if records == [] {
    } else {
      var n := |records| - 1;
      PrintedLinesSafe(records[..n]);
      forall j | 0 <= j < |records[n]| ensures OneLine(PrintRecord(records[n])[j]) {
        PrintLineSafe(records[n][j].0, records[n][j].1, j == 0);
      }
    }
  }

  lemma PrintLineSafe(k: string, v: string, first: bool)
    requires OneLine(k) && OneLine(v)
    ensures OneLine(PrintLine(k, v, first))
  {
  }

  /**
   * The parser inverts the printer: for records with admissible keys and any values without line
   * breaks, the printed file reads back as the same records, whichever way its lines end.
   */
  lemma ParserInvertsPrinter(records: seq<Pairs>, e: string)
    requires IsEnding(e)
    requires forall r :: 0 <= r < |records| ==> Printable(records[r]) && FileSafe(records[r])
    ensures Parse(TextLines(TextOf(PrintLines(records), e))) == Ok(RecordMaps(records))
  {
    PrintedLinesSafe(records);
    TextLinesOfText(PrintLines(records), e);
    PrintedLinesParse(records);
  }
}
