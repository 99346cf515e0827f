/** The exception list as a text file: how it is cut into lines, and exactly which records survive printing and parsing. */
module ExceptionFile {
  import opened Collections
  import opened Text
  import opened ExceptionParser
  import opened ExceptionPrinter

  predicate IsBreak(c: char) {
    c == '\n' || c == '\r'
  }

  ghost predicate NoBreak(s: string) {
    forall c | c in s :: !IsBreak(c)
  }

  /** The position of the first line break, or the length. */
  function BreakAt(text: string): (i: nat)
    ensures i <= |text| && NoBreak(text[..i]) && (i < |text| ==> IsBreak(text[i]))
  {
    if text == "" || IsBreak(text[0]) then 0
    else
      var i := BreakAt(text[1..]);
      assert text[..i + 1] == [text[0]] + text[1..][..i];
      i + 1
  }

  /** Where the line after the break at i starts; `\r\n` is one break. */
  function AfterBreak(text: string, i: nat): (next: nat)
    requires i < |text|
    ensures i < next <= |text|
  {
    if text[i] == '\r' && i + 1 < |text| && text[i + 1] == '\n' then i + 2 else i + 1
  }

  /** The lines that iterating over a file opened in text mode yields: every break ends a line and reads as `\n`. */
  function Lines(text: string): seq<string>
    decreases |text|
  {
    if text == "" then [] else
    var i := BreakAt(text);
    if i == |text| then [text] else [text[..i] + "\n"] + Lines(text[AfterBreak(text, i)..])
  }

  lemma {:induction false} BreakFound(line: string, rest: string)
    requires NoBreak(line) && rest != "" && IsBreak(rest[0])
    ensures BreakAt(line + rest) == |line|
  {
    var text := line + rest;
    if line == "" {
      assert text == rest;
    } else {
      assert line[0] in line && forall c | c in line[1..] :: c in line;
      assert text[1..] == line[1..] + rest && text[0] == line[0];
      BreakFound(line[1..], rest);
    }
  }

  /** A line ends at `\n`, at `\r\n`, at a lone `\r`, or with the text. */
  lemma LineEnds(line: string, rest: string)
    requires NoBreak(line)
    ensures Lines(line + ("\n" + rest)) == [line + "\n"] + Lines(rest)
    ensures Lines(line + ("\r\n" + rest)) == [line + "\n"] + Lines(rest)
    ensures rest == "" || rest[0] != '\n' ==> Lines(line + ("\r" + rest)) == [line + "\n"] + Lines(rest)
    ensures line != "" ==> Lines(line) == [line]
  {
    var a, b, c := line + ("\n" + rest), line + ("\r\n" + rest), line + ("\r" + rest);
    BreakFound(line, "\n" + rest);
    BreakFound(line, "\r\n" + rest);
    BreakFound(line, "\r" + rest);
    assert a[..|line|] == b[..|line|] == c[..|line|] == line;
    assert a[|line|] == '\n' && a[|line| + 1..] == rest;
    assert b[|line|] == '\r' && b[|line| + 1] == '\n' && b[|line| + 2..] == rest;
    assert c[|line|] == '\r' && c[|line| + 1..] == rest;
    assert forall i | 0 <= i < |line| :: line[i] in line;
  }

  /** A file with these lines. */
  function FileOf(lines: seq<string>): string {
    if lines == [] then "" else lines[0] + "\n" + FileOf(lines[1..])
  }

  function PrintFile(recs: seq<Fields>): string {
    FileOf(PrintAll(recs))
  }

  // --- Lines without breaks ---

  lemma {:induction false} BreakAfter(line: string, rest: string)
    requires NoBreak(line)
    ensures BreakAt(line + "\n" + rest) == |line|
  {
    var text := line + "\n" + rest;
    if line == "" {
      assert text[0] == '\n';
    } else {
      assert line[0] in line && forall c | c in line[1..] :: c in line;
      assert text[1..] == line[1..] + "\n" + rest && text[0] == line[0];
      BreakAfter(line[1..], rest);
    }
  }

  lemma FirstLine(line: string, rest: string)
    requires NoBreak(line)
    ensures Lines(line + "\n" + rest) == [line + "\n"] + Lines(rest)
  {
    var text := line + "\n" + rest;
    BreakAfter(line, rest);
    assert text[|line|] == '\n' && text[..|line|] == line && text[|line| + 1..] == rest;
  }

  ghost predicate AllNoBreak(lines: seq<string>) {
    forall l | l in lines :: NoBreak(l)
  }

  function Ended(lines: seq<string>): seq<string> {
    seq(|lines|, i requires 0 <= i < |lines| => lines[i] + "\n")
  }

  /** Printing lines without breaks and cutting the text gives the lines again, each with its end. */
  lemma {:induction false} LinesOfFile(lines: seq<string>)
    requires AllNoBreak(lines)
    ensures Lines(FileOf(lines)) == Ended(lines)
  {
    if lines != [] {
      assert lines[0] in lines && forall l | l in lines[1..] :: l in lines;
      FirstLine(lines[0], FileOf(lines[1..]));
      LinesOfFile(lines[1..]);
    }
  }

  lemma StripEnded(line: string)
    ensures Strip(line + "\n") == Strip(line)
  {
    StripBefore(line, "\n");
  }

  lemma KindsEnded(lines: seq<string>)
    ensures Kinds(Ended(lines)) == Kinds(lines)
  {
    forall i | 0 <= i < |lines| ensures Classify(lines[i] + "\n") == Classify(lines[i]) {
      StripEnded(lines[i]);
    }
  }

  // --- What a parsed record can hold ---

  lemma {:induction false} LineHasNoBreak(text: string, raw: string)
    requires raw in Lines(text)
    ensures NoBreak(Strip(raw))
    decreases |text|
  {
    var i := BreakAt(text);
    if i == |text| {
      StripTrims(text);
    } else if raw == text[..i] + "\n" {
      StripEnded(text[..i]);
      StripTrims(text[..i]);
    } else {
      LineHasNoBreak(text[AfterBreak(text, i)..], raw);
    }
  }

  ghost predicate PlainPair(k: string, v: string) {
    NoBreak(k) && NoBreak(v)
  }

  lemma UnquotePlain(value: string)
    requires NoBreak(value)
    ensures NoBreak(Unquote(value))
  {
  }

  lemma SplitPlain(line: string)
    requires NoBreak(line)
    ensures SplitKv(line).Some? ==> PlainPair(SplitKv(line).value.0, SplitKv(line).value.1)
  {
    var i := Find(line, ':');
    if i < |line| {
      StripTrims(line[..i]);
      StripTrims(line[i + 1..]);
      UnquotePlain(Strip(line[i + 1..]));
    }
  }

  ghost predicate PlainLine(l: Line) {
    match l
    case Skip => true
    case Item(kv) => kv.Some? ==> PlainPair(kv.value.0, kv.value.1)
    case Pair(k, v) => PlainPair(k, v)
  }

  lemma ClassifyPlain(raw: string)
    requires NoBreak(Strip(raw))
    ensures PlainLine(Classify(raw))
  {
    var line := Strip(raw);
    SplitPlain(line);
    if |line| >= 2 {
      StripTrims(line[2..]);
      SplitPlain(Strip(line[2..]));
    }
  }

  ghost predicate PlainRecord(rec: Record) {
    forall k | k in rec :: PlainPair(k, rec[k])
  }

  ghost predicate PlainLines(kinds: seq<Line>) {
    forall l | l in kinds :: PlainLine(l)
  }

  lemma {:induction false} StoredPlain(rec: Record, kinds: seq<Line>)
    requires PlainRecord(rec) && PlainLines(kinds)
    ensures PlainRecord(Extend(rec, kinds))
    decreases |kinds|
  {
    if kinds != [] && !kinds[0].Item? {
      assert kinds[0] in kinds && forall l | l in kinds[1..] :: l in kinds;
      StoredPlain(if kinds[0].Pair? then rec[kinds[0].k := kinds[0].v] else rec, kinds[1..]);
    }
  }

  lemma {:induction false} RecordsPlain(kinds: seq<Line>)
    requires PlainLines(kinds)
    ensures forall rec | rec in RecordsOf(kinds) :: PlainRecord(rec)
  {
    if kinds != [] {
      assert kinds[0] in kinds && forall l | l in kinds[1..] :: l in kinds;
      RecordsPlain(kinds[1..]);
      if kinds[0].Item? && kinds[0].kv.Some? {
        StoredPlain(map[kinds[0].kv.value.0 := kinds[0].kv.value.1], kinds[1..]);
      }
    }
  }

  /** No record that is read from a file holds a line break. */
  lemma ParsedPlain(text: string)
    ensures forall rec | rec in RecordsOf(Kinds(Lines(text))) :: PlainRecord(rec)
  {
    var kinds := Kinds(Lines(text));
    forall l | l in kinds ensures PlainLine(l) {
      var i :| 0 <= i < |kinds| && kinds[i] == l;
      LineHasNoBreak(text, Lines(text)[i]);
      ClassifyPlain(Lines(text)[i]);
    }
    RecordsPlain(kinds);
  }

  // --- The round trip ---

  ghost predicate PlainFields(rec: Fields) {
    forall f | f in rec :: PlainPair(f.key, f.value)
  }

  lemma BuiltPlain(rec: Fields)
    requires DistinctKeys(rec) && PlainRecord(Build(map[], rec))
    ensures PlainFields(rec)
  {
    forall f | f in rec ensures PlainPair(f.key, f.value) {
      var i :| 0 <= i < |rec| && rec[i] == f;
      BuildHolds(map[], rec, i);
    }
  }

  lemma {:induction false} RecordAt(recs: seq<Fields>, i: nat)
    requires i < |recs|
    ensures Records(recs)[i] == Build(map[], recs[i])
  {
    if i > 0 {
      RecordAt(recs[1..], i - 1);
    }
  }

  lemma FieldPlain(f: Field)
    requires PlainPair(f.key, f.value)
    ensures NoBreak("- " + FieldText(f)) && NoBreak(" " + (" " + FieldText(f)))
  {
    assert NoBreak(" " + ValueText(f));
  }

  lemma LaterPlain(fields: Fields)
    requires PlainFields(fields)
    ensures AllNoBreak(PrintLater(fields))
  {
    forall l | l in PrintLater(fields) ensures NoBreak(l) {
      var i :| 0 <= i < |fields| && PrintLater(fields)[i] == l;
      assert fields[i] in fields;
      FieldPlain(fields[i]);
    }
  }

  lemma PrintedPlain(rec: Fields)
    requires PlainFields(rec)
    ensures AllNoBreak(Print(rec))
  {
    if rec != [] {
      assert rec[0] in rec && forall f | f in rec[1..] :: f in rec;
      FieldPlain(rec[0]);
      LaterPlain(rec[1..]);
    }
  }

  lemma {:induction false} AllPrintedPlain(recs: seq<Fields>)
    requires forall rec | rec in recs :: PlainFields(rec)
    ensures AllNoBreak(PrintAll(recs))
  {
    if recs != [] {
      assert recs[0] in recs && forall rec | rec in recs[1..] :: rec in recs;
      PrintedPlain(recs[0]);
      AllPrintedPlain(recs[1..]);
    }
  }

  /** Parsing the printed file gives the records. */
  ghost predicate FileRoundTrips(recs: seq<Fields>) {
    var kinds := Kinds(Lines(PrintFile(recs)));
    WellFormed(kinds) && RecordsOf(kinds) == Records(recs)
  }

  lemma PlainRoundTrip(recs: seq<Fields>)
    requires forall rec | rec in recs :: PlainFields(rec)
    ensures FileRoundTrips(recs) <==> RoundTrips(recs)
  {
    AllPrintedPlain(recs);
    LinesOfFile(PrintAll(recs));
    KindsEnded(PrintAll(recs));
  }

  /** The records are read back from the file exactly when no key or value holds a line break, every first key is trimmed
      and colon-free, every later key moreover reads as no comment, item or header, and every value that is written without
      quotes is trimmed and not between equal quotes of its own. */
  lemma RoundTripExactly(recs: seq<Fields>)
    requires Nonempty(recs) && forall rec | rec in recs :: DistinctKeys(rec)
    ensures FileRoundTrips(recs) <==> forall rec | rec in recs :: KeysOk(rec) && ValuesOk(rec) && PlainFields(rec)
  {
    if FileRoundTrips(recs) {
      ParsedPlain(PrintFile(recs));
      forall rec | rec in recs ensures PlainFields(rec) {
        var i :| 0 <= i < |recs| && recs[i] == rec;
        RecordAt(recs, i);
        assert Records(recs)[i] in Records(recs);
        BuiltPlain(rec);
      }
    }
    if forall rec | rec in recs :: PlainFields(rec) {
      PlainRoundTrip(recs);
      LinesRoundTrip(recs);
    }
  }

  lemma QuotedBreak(a: string, b: string)
    ensures " " + ("\"" + (a + "\n" + b) + "\"") == ((" \"" + a) + "\n") + (b + "\"")
  {
  }

  lemma Regroup(x: string, y: string, u: string, n: string, v: string)
    ensures x + (y + ((u + n) + v)) == ((x + y + u) + n) + v
  {
  }

  lemma BrokenLine(k: string, a: string, b: string)
    ensures "- " + FieldText(Field(k, a + "\n" + b, Double)) == ("- " + (k + ":") + (" \"" + a)) + "\n" + (b + "\"")
  {
    QuotedBreak(a, b);
    Regroup("- ", k + ":", " \"" + a, "\n", b + "\"");
  }

  lemma TwoLines(first: string, second: string)
    requires NoBreak(first) && NoBreak(second)
    ensures Lines(FileOf([first + "\n" + second])) == [first + "\n", second + "\n"]
  {
    assert FileOf([first + "\n" + second]) == first + "\n" + (second + "\n" + "");
    FirstLine(first, second + "\n" + "");
    FirstLine(second, "");
  }

  lemma ItemLine(line: string)
    requires Trimmed(line) && StartsWith(line, "- ")
    ensures Classify(line) == Item(SplitKv(Strip(line[2..])))
  {
    StripKeeps(line);
    assert line[0] == '-';
  }

  lemma ItemWithoutColon(x: string)
    requires ':' !in x
    ensures Classify("- " + x + "\"" + "\n") == Item(None)
  {
    var line := "- " + x + "\"";
    StripEnded(line);
    StripKeeps(line);
    ItemLine(line);
    assert line[2..] == x + "\"";
    StripTrims(line[2..]);
    FindFirst(Strip(line[2..]), ':');
  }

  lemma OneField(f: Field)
    requires Clean(f.key) && ValueOk(f)
    ensures PrintAll([[f]]) == ["- " + FieldText(f)] && RoundTrips([[f]])
  {
    LinesRoundTrip([[f]]);
    assert [[f]][1..] == [] && [f][1..] == [];
    assert PrintAll([]) == [] && PrintLater([]) == [];
  }

  lemma NoBreakParts(a: string, b: string)
    requires NoBreak(a) && NoBreak(b)
    ensures NoBreak(a + b)
  {
  }

  lemma SecondFails(first: string, second: string)
    requires NoBreak(first) && NoBreak(second) && Classify(second + "\n") == Item(None)
    ensures !WellFormed(Kinds(Lines(FileOf([first + "\n" + second]))))
  {
    TwoLines(first, second);
    var kinds := Kinds(Lines(FileOf([first + "\n" + second])));
    assert kinds[1] == Item(None) && kinds[1] in kinds;
  }

  /** A line break in a value can make the script fail, although the printed line by itself is fine. */
  lemma BreakInValue(k: string, a: string, x: string)
    requires Clean(k) && NoBreak(k) && NoBreak(a) && NoBreak(x) && ':' !in x
    ensures var recs: seq<Fields> := [[Field(k, a + "\n" + ("- " + x), Double)]];
      RoundTrips(recs) && !WellFormed(Kinds(Lines(PrintFile(recs))))
  {
    var f := Field(k, a + "\n" + ("- " + x), Double);
    OneField(f);
    BrokenLine(k, a, "- " + x);
    ItemWithoutColon(x);
    var first, second := "- " + (k + ":") + (" \"" + a), "- " + x + "\"";
    assert NoBreak(first) && NoBreak(second) by {
      NoBreakParts("- " + (k + ":"), " \"" + a);
      NoBreakParts("- " + x, "\"");
    }
    SecondFails(first, second);
  }
}
