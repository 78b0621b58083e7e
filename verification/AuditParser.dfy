/** The exception list of check_pnpm_audit_exceptions.py: a small line-oriented parser. */
module AuditParser {
  import opened Prelude
  import opened Blocks

  /** The characters str.strip() removes. */
  predicate IsSpace(c: char) {
    || '\U{9}' <= c <= '\U{D}' || '\U{1C}' <= c <= '\U{20}' || c == '\U{85}' || c == '\U{A0}' || c == '\U{1680}'
    || '\U{2000}' <= c <= '\U{200A}' || c == '\U{2028}' || c == '\U{2029}' || c == '\U{202F}' || c == '\U{205F}'
    || c == '\U{3000}'
  }

  function StripLeft(s: string): (r: string)
    ensures r == "" || !IsSpace(r[0])
    ensures |r| <= |s|
  {
    if s != "" && IsSpace(s[0]) then StripLeft(s[1..]) else s
  }

  function StripRight(s: string): (r: string)
    ensures r == "" || !IsSpace(r[|r| - 1])
    ensures r <= s
  {
    if s != "" && IsSpace(s[|s| - 1]) then StripRight(s[..|s| - 1]) else s
  }

  function Strip(s: string): string {
    StripRight(StripLeft(s))
  }

  predicate Stripped(s: string) {
    s == "" || (!IsSpace(s[0]) && !IsSpace(s[|s| - 1]))
  }

  predicate Blank(s: string) {
    forall k :: 0 <= k < |s| ==> IsSpace(s[k])
  }

  /** The characters that end a line in text mode. */
  predicate IsNewline(c: char) {
    c == '\n' || c == '\r'
  }

  predicate OneLine(s: string) {
    forall k :: 0 <= k < |s| ==> !IsNewline(s[k])
  }

  lemma {:induction false} BlankBefore(before: string, t: string)
    requires Blank(before)
    ensures StripLeft(before + t) == StripLeft(t)
  {
    if before == "" {
      assert before + t == t;
    } else {
      assert (before + t)[1..] == before[1..] + t;
      BlankBefore(before[1..], t);
    }
  }

  lemma {:induction false} BlankAfter(t: string, after: string)
    requires Blank(after)
    ensures StripRight(t + after) == StripRight(t)
  {
    if after == "" {
      assert t + after == t;
    } else {
      var n := |after| - 1;
      assert (t + after)[..|t| + n] == t + after[..n];
      BlankAfter(t, after[..n]);
    }
  }

  /** strip() removes the surrounding blanks and nothing else. */
  lemma StripExact(before: string, s: string, after: string)
    requires Blank(before) && Stripped(s) && Blank(after)
    ensures Strip(before + s + after) == s
  {
    assert before + s + after == before + (s + after);
    BlankBefore(before, s + after);
    if s == "" {
      BlankBefore(after, "");
      assert s + after == after + "";
    } else {
      assert (s + after)[0] == s[0];
      BlankAfter(s, after);
    }
  }

  lemma StripStripped(s: string)
    ensures Stripped(Strip(s))
  {
    var l := StripLeft(s);
    assert Strip(s) <= l;
  }

  lemma StripSame(s: string)
    requires Stripped(s)
    ensures Strip(s) == s
  {
    StripExact("", s, "");
    assert "" + s + "" == s;
  }

  // ----- one line ---------------------------------------------------------------------------

  type Rec = map<string, string>

  function Colon(line: string): (k: nat)
    ensures k <= |line|
    ensures k < |line| ==> line[k] == ':'
    ensures ':' !in line[..k]
  {
    if line == "" || line[0] == ':' then 0
    else
      var k := 1 + Colon(line[1..]);
      assert line[..k] == [line[0]] + line[1..][..k - 1];
      k
  }

  /** One pair of matching quotes around a value is dropped; a lone quote character counts as both. */
  function Unquote(v: string): string {
    if v != "" && v[0] == v[|v| - 1] && (v[0] == '"' || v[0] == '\'')
    then (if |v| == 1 then "" else v[1..|v| - 1]) else v
  }

  /** split_kv; None is the ValueError raised without a colon. */
  function SplitKV(line: string): Option<(string, string)> {
    var k := Colon(line);
    if k == |line| then None else Some((Strip(line[..k]), Unquote(Strip(line[k + 1..]))))
  }

  predicate HasPrefix(line: string, prefix: string) {
    prefix <= line
  }

  predicate IsComment(line: string) {
    line == "" || HasPrefix(line, "#") || HasPrefix(line, "version:") || HasPrefix(line, "exceptions:")
  }

  /** The line starts a record. */
  predicate IsBullet(raw: string) {
    HasPrefix(Strip(raw), "- ")
  }

  function Body(raw: string): string
    requires IsBullet(raw)
  {
    Strip(Strip(raw)[2..])
  }

  lemma BulletIsEntry(raw: string)
    requires IsBullet(raw)
    ensures !IsComment(Strip(raw)) && Body(raw) != ""
  {
    var line := Strip(raw);
    StripStripped(raw);
    assert line[0] == '-' && line[1] == ' ';
    var n := |line| - 1;
    assert line[2..] == line[2..n] + [line[n]];
    var l := StripLeft(line[2..]);
    LastStays(line[2..]);
  }

  lemma {:induction false} LastStays(s: string)
    requires s != "" && !IsSpace(s[|s| - 1])
    ensures StripLeft(s) != "" && StripLeft(s)[|StripLeft(s)| - 1] == s[|s| - 1]
  {
    if IsSpace(s[0]) {
      LastStays(s[1..]);
    }
  }

  /** What a line adds to the record it belongs to. */
  function AddLine(rec: Rec, raw: string): Rec {
    var line := Strip(raw);
    if IsBullet(raw) then
      (match SplitKV(Body(raw)) case Some(kv) => rec[kv.0 := kv.1] case None => rec)
    else if IsComment(line) then rec
    else match SplitKV(line) case Some(kv) => rec[kv.0 := kv.1] case None => rec
  }

  // ----- the whole list ---------------------------------------------------------------------

  datatype ParseError = ValueError

  /** Every bullet carries a "key: value". */
  predicate Readable(lines: seq<string>) {
    forall i :: 0 <= i < |lines| && IsBullet(lines[i]) ==> ':' in Body(lines[i])
  }

  /** The records of a list: bullets start them, other lines add to the last one. */
  function RecordsOf(lines: seq<string>): seq<Rec> {
    Records(lines, IsBullet, map[], AddLine)
  }

  /** What the parser returns; a bullet without a colon raises. */
  function Parse(lines: seq<string>): Result<seq<Rec>, ParseError> {
    if Readable(lines) then Ok(RecordsOf(lines)) else Err(ValueError)
  }

  lemma ColonFound(line: string)
    ensures SplitKV(line).Some? <==> ':' in line
  {
    var k := Colon(line);
    assert line == line[..k] + line[k..];
  }

  lemma AddLineKeeps(rec: Rec, raw: string)
    requires rec != map[] || (IsBullet(raw) && ':' in Body(raw))
    ensures AddLine(rec, raw) != map[]
  {
    if rec != map[] {
      var key :| key in rec;
      assert key in AddLine(rec, raw);
    } else {
      ColonFound(Body(raw));
      assert SplitKV(Body(raw)).value.0 in AddLine(rec, raw);
    }
  }

  /** A record is never empty: its bullet brings an entry, and entries are never dropped. */
  lemma RecordsNotEmpty(lines: seq<string>)
    requires Readable(lines)
    ensures forall k :: 0 <= k < |RecordsOf(lines)| ==> RecordsOf(lines)[k] != map[]
  {
    forall l | l in lines && IsBullet(l) ensures AddLine(map[], l) != map[] {
      AddLineKeeps(map[], l);
    }
    forall l, r | l in lines && r != map[] ensures AddLine(r, l) != map[] {
      AddLineKeeps(r, l);
    }
    RecordsSatisfy(lines, IsBullet, map[], AddLine, (r: Rec) => r != map[]);
  }

  /**
   * On input that does not raise there is exactly one record per line that, once stripped, starts with
   * "- ", in file order, made of the lines up to the next such line.
   */
  lemma OneRecordPerBullet(lines: seq<string>)
    requires Parse(lines).Ok?
    ensures |Parse(lines).value| == |Starts(lines, IsBullet)|
    ensures forall i :: 0 <= i < |lines| && IsBullet(lines[i]) ==> i in Starts(lines, IsBullet)
    ensures forall k :: 0 <= k < |Parse(lines).value| ==>
      Parse(lines).value[k] == Fold(Block(lines, IsBullet, k), map[], AddLine) && Parse(lines).value[k] != map[]
  {
    EveryStart(lines, IsBullet);
    RecordsAreBlocks(lines, IsBullet, map[], AddLine);
    RecordsNotEmpty(lines);
  }

  /** The finished records and the open one. */
  function AllOf(exceptions: seq<Rec>, current: Option<Rec>): seq<Rec> {
    if current.Some? then exceptions + [current.value] else exceptions
  }

  /** The body of the loop in parse_exceptions; ok is false when split_kv raises. */
  method ReadLine(raw: string, exceptions: seq<Rec>, current: Option<Rec>)
    returns (ok: bool, finished: seq<Rec>, open: Option<Rec>)
    requires current.Some? ==> current.value != map[]
    ensures ok <==> !IsBullet(raw) || ':' in Body(raw)
    ensures ok && IsBullet(raw) ==> finished == AllOf(exceptions, current) && open == Some(AddLine(map[], raw))
    ensures !IsBullet(raw) ==> finished == exceptions
    ensures !IsBullet(raw) ==> open == if current.Some? then Some(AddLine(current.value, raw)) else None
  {
    ok, finished, open := true, exceptions, current;
    var line := Strip(raw);
    if HasPrefix(line, "- ") {
      BulletIsEntry(raw);
    }
    if IsComment(line) {
      return;
    }
    if HasPrefix(line, "- ") {
      if current.Some? && |current.value| > 0 {
        finished := finished + [current.value];
      }
      open := Some(map[]);
      line := Strip(line[2..]);
      if line != "" {
        ColonFound(line);
        var kv := SplitKV(line);
        if kv.None? {
          ok := false;
          return;
        }
        open := Some(open.value[kv.value.0 := kv.value.1]);
      }
      return;
    }
    ColonFound(line);
    if current.Some? && ':' in line {
      var kv := SplitKV(line);
      open := Some(current.value[kv.value.0 := kv.value.1]);
    }
  }

  lemma RecordsStep(lines: seq<string>, i: nat)
    requires i < |lines|
    ensures var (before, after) := (RecordsOf(lines[..i]), RecordsOf(lines[..i + 1]));
      after == (if IsBullet(lines[i]) then before + [AddLine(map[], lines[i])]
                else if before == [] then []
                else before[..|before| - 1] + [AddLine(before[|before| - 1], lines[i])])
  {
    assert lines[..i + 1][..i] == lines[..i];
  }

  ghost predicate Reading(lines: seq<string>, exceptions: seq<Rec>, current: Option<Rec>) {
    && Readable(lines) && RecordsOf(lines) == AllOf(exceptions, current)
    && (current.None? ==> exceptions == [])
    && (current.Some? ==> current.value != map[])
  }

  lemma ReadingStep(lines: seq<string>, i: nat, exceptions: seq<Rec>, current: Option<Rec>,
                    finished: seq<Rec>, open: Option<Rec>)
    requires i < |lines| && Reading(lines[..i], exceptions, current)
    requires IsBullet(lines[i]) ==> ':' in Body(lines[i])
    requires IsBullet(lines[i]) ==> finished == AllOf(exceptions, current) && open == Some(AddLine(map[], lines[i]))
    requires !IsBullet(lines[i]) ==> finished == exceptions
    requires !IsBullet(lines[i]) ==> open == if current.Some? then Some(AddLine(current.value, lines[i])) else None
    ensures Reading(lines[..i + 1], finished, open)
  {
    RecordsStep(lines, i);
    if open.Some? {
      AddLineKeeps(if IsBullet(lines[i]) then map[] else current.value, lines[i]);
    }
  }

  lemma RaisesAt(lines: seq<string>, i: nat)
    requires i < |lines| && IsBullet(lines[i]) && ':' !in Body(lines[i])
    ensures Parse(lines) == Err(ValueError)
  {
  }

  method ParseExceptions(lines: seq<string>) returns (r: Result<seq<Rec>, ParseError>)
    ensures r == Parse(lines)
  {
    var exceptions: seq<Rec>, current: Option<Rec> := [], None;
    for i := 0 to |lines|
      invariant Reading(lines[..i], exceptions, current)
    {
      var ok, finished, open := ReadLine(lines[i], exceptions, current);
      if !ok {
        RaisesAt(lines, i);
        return Err(ValueError);
      }
      ReadingStep(lines, i, exceptions, current, finished, open);
      exceptions, current := finished, open;
    }
    assert lines[..|lines|] == lines;
    if current.Some? && |current.value| > 0 {
      exceptions := exceptions + [current.value];
    }
    return Ok(exceptions);
  }
}
