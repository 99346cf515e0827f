/** The line parser of the audit-exception list. */
module ExceptionParser {
  import opened Collections
  import opened Text

  type Record = map<string, string>

  /** `split_kv`: fails on a line without a colon, where unpacking the split raises. */
  function SplitKv(line: string): Option<(string, string)> {
    var i := Find(line, ':');
    if i == |line| then None else Some((Strip(line[..i]), Unquote(Strip(line[i + 1..]))))
  }

  /** One pair of equal quotes around a value is dropped; a lone quote is both ends of itself. */
  function Unquote(value: string): string {
    if value != "" && value[0] == value[|value| - 1] && value[0] in {'"', '\''} then
      if |value| == 1 then "" else value[1..|value| - 1]
    else value
  }

  predicate Quote(c: char) {
    c == '"' || c == '\''
  }

  /** The value begins and ends with the same quote, which may be one character. */
  predicate Quoted(value: string) {
    value != "" && Quote(value[0]) && value[|value| - 1] == value[0]
  }

  /** A value between two equal quotes is read without them; a lone quote as nothing; any other value as it is, even if it
      begins with a quote. */
  lemma UnquoteMeans(v: string, q: char)
    ensures Quote(q) ==> Unquote([q] + v + [q]) == v && Unquote([q]) == ""
    ensures !Quoted(v) ==> Unquote(v) == v
  {
    var quoted := [q] + v + [q];
    assert quoted[1..|quoted| - 1] == v;
  }

  /** One turn of the loop over the lines; fails where `split_kv` raises. */
  method ReadLine(exceptions: seq<Record>, current: Option<Record>, raw: string, ghost kind: Line)
      returns (ok: bool, exceptions': seq<Record>, current': Option<Record>)
    requires kind == Classify(raw)
    requires current.Some? ==> current.value != map[]
    ensures ok <==> kind != Item(None)
    ensures ok ==> exceptions' == Advance(exceptions, current, kind).0 && current' == Advance(exceptions, current, kind).1
    ensures current'.Some? && ok ==> current'.value != map[]
  {
    ok, exceptions', current' := true, exceptions, current;
    var line := Strip(raw);
    if line == "" || StartsWith(line, "#") || StartsWith(line, "version:") || StartsWith(line, "exceptions:") {
      return;
    }
    if StartsWith(line, "- ") {
      ItemHasText(raw);
      if current.Some? && current.value != map[] {
        exceptions' := exceptions + [current.value];
      }
      current' := Some(map[]);
      line := Strip(line[2..]);
      if line != "" {
        var kv := SplitKv(line);
        if kv == None {
          ok := false;
          return;
        }
        current' := Some(map[kv.value.0 := kv.value.1]);
        assert kv.value.0 in current'.value;
      }
      return;
    }
    FindFirst(line, ':');
    if current.Some? && ':' in line {
      var kv := SplitKv(line);
      current' := Some(current.value[kv.value.0 := kv.value.1]);
      assert kv.value.0 in current'.value;
    }
  }

  method ReadLines(lines: seq<string>, ghost kinds: seq<Line>)
      returns (ok: bool, exceptions: seq<Record>, current: Option<Record>)
    requires |kinds| == |lines| && forall i | 0 <= i < |lines| :: kinds[i] == Classify(lines[i])
    ensures ok <==> WellFormed(kinds)
    ensures current.Some? ==> current.value != map[]
    ensures ok ==> RecordsOf(kinds) == Continue(exceptions, current, [])
  {
    ok, exceptions, current := true, [], None;
    assert kinds[0..] == kinds;
    for i := 0 to |lines|
      invariant ok && (current.Some? ==> current.value != map[])
      invariant forall j | 0 <= j < i :: kinds[j] != Item(None)
      invariant RecordsOf(kinds) == Continue(exceptions, current, kinds[i..])
    {
      if kinds[i] != Item(None) {
        ContinueStep(exceptions, current, kinds, i);
      }
      ok, exceptions, current := ReadLine(exceptions, current, lines[i], kinds[i]);
      if !ok {
        assert kinds[i] in kinds;
        current := None;
        return;
      }
    }
    assert kinds[|lines|..] == [];
  }

  method ParseExceptions(lines: seq<string>) returns (r: Option<seq<Record>>)
    ensures r == if WellFormed(Kinds(lines)) then Some(RecordsOf(Kinds(lines))) else None
  {
    var ok, exceptions, current := ReadLines(lines, Kinds(lines));
    if !ok {
      return None;
    }
    ContinueEnd(exceptions, current);
    if current.Some? && current.value != map[] {
      exceptions := exceptions + [current.value];
    }
    r := Some(exceptions);
  }

  // --- Reference: what each line is by itself, and the records as blocks of lines ---

  /** An item starts a record (`Item(None)` is the malformed one), a pair extends the record above it, if any. */
  datatype Line = Skip | Item(kv: Option<(string, string)>) | Pair(k: string, v: string)

  function Classify(raw: string): Line {
    var line := Strip(raw);
    if line == "" || StartsWith(line, "#") || StartsWith(line, "version:") || StartsWith(line, "exceptions:") then Skip
    else if StartsWith(line, "- ") then Item(SplitKv(Strip(line[2..])))
    else match SplitKv(line) case Some(kv) => Pair(kv.0, kv.1) case None => Skip
  }

  function Kinds(lines: seq<string>): (kinds: seq<Line>)
    ensures |kinds| == |lines| && forall i | 0 <= i < |lines| :: kinds[i] == Classify(lines[i])
  {
    seq(|lines|, i requires 0 <= i < |lines| => Classify(lines[i]))
  }

  /** The record after the pairs that come before the next item; a repeated key keeps its last value. */
  function Extend(rec: Record, kinds: seq<Line>): Record
    decreases |kinds|
  {
    if kinds == [] || kinds[0].Item? then rec
    else Extend(if kinds[0].Pair? then rec[kinds[0].k := kinds[0].v] else rec, kinds[1..])
  }

  /** One record per item: its own pair and the pairs up to the next item. */
  function RecordsOf(kinds: seq<Line>): seq<Record> {
    if kinds == [] then []
    else if kinds[0].Item? && kinds[0].kv.Some? then
      [Extend(map[kinds[0].kv.value.0 := kinds[0].kv.value.1], kinds[1..])] + RecordsOf(kinds[1..])
    else RecordsOf(kinds[1..])
  }

  /** The records when `done` are finished, `current` is open and `rest` is still to read. */
  ghost function Continue(done: seq<Record>, current: Option<Record>, rest: seq<Line>): seq<Record> {
    done + (if current.Some? then [Extend(current.value, rest)] else []) + RecordsOf(rest)
  }

  ghost function Advance(done: seq<Record>, current: Option<Record>, line: Line): (seq<Record>, Option<Record>)
    requires line != Item(None)
  {
    match line
    case Skip => (done, current)
    case Item(kv) => (if current.Some? then done + [current.value] else done, Some(map[kv.value.0 := kv.value.1]))
    case Pair(k, v) => (done, if current.Some? then Some(current.value[k := v]) else None)
  }

  lemma ContinueStep(done: seq<Record>, current: Option<Record>, kinds: seq<Line>, i: nat)
    requires i < |kinds| && kinds[i] != Item(None)
    ensures var next := Advance(done, current, kinds[i]);
      Continue(done, current, kinds[i..]) == Continue(next.0, next.1, kinds[i + 1..])
  {
    assert kinds[i..][0] == kinds[i] && kinds[i..][1..] == kinds[i + 1..];
  }

  lemma ContinueEnd(done: seq<Record>, current: Option<Record>)
    ensures Continue(done, current, []) == if current.Some? then done + [current.value] else done
  {
  }

  /** After the dash of an item line there is always text, so every item sets a key. */
  lemma ItemHasText(raw: string)
    requires StartsWith(Strip(raw), "- ")
    ensures Strip(Strip(raw)[2..]) != ""
  {
    var line := Strip(raw);
    StripTrims(raw);
    assert line[1] == ' ';
    StripNonBlank(line[2..], |line| - 3);
  }

  lemma {:induction false} StripNonBlank(s: string, i: nat)
    requires i < |s| && !IsSpace(s[i])
    ensures Strip(s) != ""
  {
    LeftNonBlank(s, i);
    TrimLeftSuffix(s);
    var left := TrimLeft(s);
    RightNonBlank(left, 0);
  }

  lemma {:induction false} LeftNonBlank(s: string, i: nat)
    requires i < |s| && !IsSpace(s[i])
    ensures TrimLeft(s) != ""
    decreases |s|
  {
    if IsSpace(s[0]) {
      LeftNonBlank(s[1..], i - 1);
    }
  }

  lemma {:induction false} RightNonBlank(s: string, i: nat)
    requires i < |s| && !IsSpace(s[i])
    ensures TrimRight(s) != ""
    decreases |s|
  {
    if IsSpace(s[|s| - 1]) {
      RightNonBlank(s[..|s| - 1], i);
    }
  }

  // --- What any line is read as ---

  lemma {:induction false} FindAfter(k: string, rest: string)
    requires ':' !in k
    ensures Find(k + ":" + rest, ':') == |k|
  {
    if k != "" {
      assert (k + ":" + rest)[0] == k[0] && k[0] in k;
      assert (k + ":" + rest)[1..] == k[1..] + ":" + rest;
      FindAfter(k[1..], rest);
    }
  }

  lemma SplitAtColon(a: string, t: string)
    requires ':' !in a
    ensures SplitKv(a + ":" + t) == Some((Strip(a), Unquote(Strip(t))))
  {
    FindAfter(a, t);
    var line := a + ":" + t;
    assert line[..|a|] == a && line[|a| + 1..] == t;
  }

  /** What a line whose text up to the first colon is `b` and whose value reads as `v` is read as. */
  function ReadAs(b: string, v: string): Line {
    if StartsWith(b, "#") || b == "version" || b == "exceptions" then Skip
    else if StartsWith(b, "- ") then Item(Some((Strip(b[2..]), v)))
    else Pair(Strip(b), v)
  }

  lemma WordBeforeColon(b: string, t: string, word: string)
    requires ':' !in b && ':' !in word
    ensures StartsWith(b + ":" + t, word + ":") <==> b == word
  {
    var line := b + ":" + t;
    if b == word {
      assert line[..|word + ":"|] == word + ":";
    }
    FindAfter(b, t);
    if StartsWith(line, word + ":") {
      assert line == word + ":" + line[|word| + 1..];
      FindAfter(word, line[|word| + 1..]);
      assert b == line[..|b|] && word == line[..|word|];
    }
  }

  lemma StartBeforeColon(b: string, t: string)
    requires ':' !in b
    ensures StartsWith(b + ":" + t, "#") <==> StartsWith(b, "#")
    ensures StartsWith(b + ":" + t, "- ") <==> StartsWith(b, "- ")
    ensures StartsWith(b + ":" + t, "version:") <==> b == "version"
    ensures StartsWith(b + ":" + t, "exceptions:") <==> b == "exceptions"
  {
    var line := b + ":" + t;
    assert line[0] == if b == "" then ':' else b[0];
    assert |b| >= 2 ==> line[..2] == b[..2];
    assert |b| == 1 ==> line[1] == ':';
    WordBeforeColon(b, t, "version");
    WordBeforeColon(b, t, "exceptions");
    assert "version:" == "version" + ":" && "exceptions:" == "exceptions" + ":";
  }

  lemma ItemAtColon(b: string, t: string)
    requires ':' !in b && StartsWith(b, "- ")
    ensures SplitKv(Strip((b + ":" + t)[2..])) == Some((Strip(b[2..]), Unquote(Strip(t))))
  {
    assert (b + ":" + t)[2..] == b[2..] + ":" + t;
    assert forall c | c in b[2..] :: c in b;
    StripAroundColon(b[2..], t);
    TrimLeftSuffix(b[2..]);
    SplitAtColon(TrimLeft(b[2..]), TrimRight(t));
    StripTrimLeft(b[2..]);
    StripTrimRight(t);
  }

  /** A line with a colon is read by what is before its first colon: as a comment or header, as an item, or as a pair. */
  lemma ClassifyColon(a: string, t: string)
    requires ':' !in a
    ensures Classify(a + ":" + t) == ReadAs(TrimLeft(a), Unquote(Strip(t)))
  {
    var b, u := TrimLeft(a), TrimRight(t);
    StripAroundColon(a, t);
    TrimLeftSuffix(a);
    StartBeforeColon(b, u);
    SplitAtColon(b, u);
    StripTrimRight(t);
    if StartsWith(b, "- ") {
      ItemAtColon(b, u);
    }
  }

  /** A line without one is skipped, unless it is an item, on which the script fails. */
  lemma ClassifyNoColon(raw: string)
    requires ':' !in raw
    ensures Classify(raw) == if StartsWith(Strip(raw), "- ") then Item(None) else Skip
  {
    var line := Strip(raw);
    StripTrims(raw);
    FindFirst(line, ':');
    if StartsWith(line, "- ") {
      StripTrims(line[2..]);
      FindFirst(Strip(line[2..]), ':');
      assert line[0] == '-';
    }
  }

  // --- What a record holds ---

  /** Line j sets `k` in the record that is open: there is no item up to it, and no later line of the record sets `k`. */
  ghost predicate SetsLast(kinds: seq<Line>, j: int, k: string) {
    && 0 <= j < |kinds| && kinds[j].Pair? && kinds[j].k == k && (forall i | 0 <= i < j :: !kinds[i].Item?)
    && forall i | j < i < |kinds| && kinds[i].Pair? && kinds[i].k == k :: exists h :: j < h < i && kinds[h].Item?
  }

  /** Of several pairs with one key the last one counts. */
  lemma {:induction false} LastPairWins(rec: Record, kinds: seq<Line>, j: int, k: string)
    requires SetsLast(kinds, j, k)
    ensures k in Extend(rec, kinds) && Extend(rec, kinds)[k] == kinds[j].v
    decreases |kinds|
  {
    var next := if kinds[0].Pair? then rec[kinds[0].k := kinds[0].v] else rec;
    if j > 0 {
      assert SetsLast(kinds[1..], j - 1, k);
      LastPairWins(next, kinds[1..], j - 1, k);
    } else {
      NothingSets(next, kinds[1..], k);
    }
  }

  lemma {:induction false} NothingSets(rec: Record, kinds: seq<Line>, k: string)
    requires forall i | 0 <= i < |kinds| && kinds[i].Pair? && kinds[i].k == k :: exists h :: 0 <= h < i && kinds[h].Item?
    ensures (k in Extend(rec, kinds) <==> k in rec) && (k in rec ==> Extend(rec, kinds)[k] == rec[k])
    decreases |kinds|
  {
    if kinds != [] && !kinds[0].Item? {
      assert kinds[0].Pair? ==> kinds[0].k != k;
      NothingSets(if kinds[0].Pair? then rec[kinds[0].k := kinds[0].v] else rec, kinds[1..], k);
    }
  }

  // --- Composition ---

  function Items(kinds: seq<Line>): nat {
    if kinds == [] then 0 else (if kinds[0].Item? then 1 else 0) + Items(kinds[1..])
  }

  predicate WellFormed(kinds: seq<Line>) {
    forall l | l in kinds :: l != Item(None)
  }

  lemma {:induction false} OneRecordPerItem(kinds: seq<Line>)
    requires WellFormed(kinds)
    ensures |RecordsOf(kinds)| == Items(kinds)
  {
    if kinds != [] {
      assert kinds[0] in kinds && forall l | l in kinds[1..] :: l in kinds;
      OneRecordPerItem(kinds[1..]);
    }
  }

  lemma {:induction false} ExtendConcat(rec: Record, a: seq<Line>, b: seq<Line>)
    ensures Extend(rec, a + b) == if Items(a) == 0 then Extend(Extend(rec, a), b) else Extend(rec, a)
    decreases |a|
  {
    if a == [] {
      assert a + b == b;
    } else {
      assert (a + b)[1..] == a[1..] + b;
      ExtendConcat(if a[0].Pair? then rec[a[0].k := a[0].v] else rec, a[1..], b);
    }
  }

  ghost function ExtendLast(records: seq<Record>, kinds: seq<Line>): seq<Record> {
    if records == [] then []
    else records[..|records| - 1] + [Extend(records[|records| - 1], kinds)]
  }

  lemma ExtendLastCons(rec: Record, records: seq<Record>, kinds: seq<Line>)
    ensures ExtendLast([rec] + records, kinds) ==
      if records == [] then [Extend(rec, kinds)] else [rec] + ExtendLast(records, kinds)
  {
    if records != [] {
      assert ([rec] + records)[..|records|] == [rec] + records[..|records| - 1];
    }
  }

  /** Parsing a concatenation: the pairs at the head of the second part go to the last record of the first part. */
  lemma {:induction false} RecordsConcat(a: seq<Line>, b: seq<Line>)
    requires WellFormed(a)
    ensures RecordsOf(a + b) == ExtendLast(RecordsOf(a), b) + RecordsOf(b)
    decreases |a|
  {
    if a == [] {
      assert a + b == b;
    } else {
      assert a[0] in a && forall l | l in a[1..] :: l in a;
      assert (a + b)[1..] == a[1..] + b;
      RecordsConcat(a[1..], b);
      if a[0].Item? {
        var rec := map[a[0].kv.value.0 := a[0].kv.value.1];
        OneRecordPerItem(a[1..]);
        assert RecordsOf(a) == [Extend(rec, a[1..])] + RecordsOf(a[1..]);
        assert RecordsOf(a + b) == [Extend(rec, a[1..] + b)] + RecordsOf(a[1..] + b);
        ExtendConcat(rec, a[1..], b);
        ExtendLastCons(Extend(rec, a[1..]), RecordsOf(a[1..]), b);
      }
    }
  }

  lemma ExtendedLast(first: seq<Record>, b: seq<Line>, more: seq<Record>)
    requires first != []
    ensures ExtendLast(first, b) + more == first + more <==> Extend(first[|first| - 1], b) == first[|first| - 1]
  {
    var n := |first| - 1;
    assert (ExtendLast(first, b) + more)[n] == Extend(first[n], b);
    assert (first + more)[n] == first[n];
  }

  /** Concatenation composes exactly when the second part starts with an item (or nothing), or its leading pairs
      repeat what the last record already says, or there is no record to extend. */
  lemma ConcatComposes(a: seq<Line>, b: seq<Line>)
    requires WellFormed(a)
    ensures var first := RecordsOf(a);
      RecordsOf(a + b) == first + RecordsOf(b) <==> first == [] || Extend(first[|first| - 1], b) == first[|first| - 1]
  {
    RecordsConcat(a, b);
    if RecordsOf(a) != [] {
      ExtendedLast(RecordsOf(a), b, RecordsOf(b));
    }
  }

  /** Blank, comment and header lines change nothing wherever they stand. */
  lemma SkipsAreIgnored(a: seq<Line>, b: seq<Line>)
    requires WellFormed(a)
    ensures RecordsOf(a + [Skip] + b) == RecordsOf(a + b)
  {
    RecordsConcat(a, b);
    RecordsConcat(a, [Skip] + b);
    assert ([Skip] + b)[1..] == b;
    assert a + [Skip] + b == a + ([Skip] + b);
    assert forall rec :: Extend(rec, [Skip] + b) == Extend(rec, b);
  }
}
