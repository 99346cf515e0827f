/** A printer for exception records, and exactly which records the parser reads back. */
module ExceptionPrinter {
  import opened Collections
  import opened Text
  import opened ExceptionParser

  /** A value can be written as it is, or between quotes. */
  datatype Style = Plain | Double | Single
  datatype Field = Field(key: string, value: string, style: Style)

  /** A record as its fields in printing order. */
  type Fields = seq<Field>

  function ValueText(f: Field): string {
    match f.style
    case Plain => f.value
    case Double => "\"" + f.value + "\""
    case Single => "'" + f.value + "'"
  }

  function FieldText(f: Field): string {
    f.key + ":" + (" " + ValueText(f))
  }

  /** The fields after the first, indented. */
  function PrintLater(fields: Fields): seq<string> {
    seq(|fields|, i requires 0 <= i < |fields| => " " + (" " + FieldText(fields[i])))
  }

  function Print(rec: Fields): seq<string> {
    if rec == [] then [] else ["- " + FieldText(rec[0])] + PrintLater(rec[1..])
  }

  function PrintAll(recs: seq<Fields>): seq<string> {
    if recs == [] then [] else Print(recs[0]) + PrintAll(recs[1..])
  }

  function Build(acc: Record, fields: Fields): Record
    decreases |fields|
  {
    if fields == [] then acc else Build(acc[fields[0].key := fields[0].value], fields[1..])
  }

  function Records(recs: seq<Fields>): (r: seq<Record>)
    ensures |r| == |recs|
  {
    if recs == [] then [] else [Build(map[], recs[0])] + Records(recs[1..])
  }

  // --- Which keys survive ---

  predicate Clean(k: string) {
    Trimmed(k) && ':' !in k
  }

  predicate IsHeader(k: string) {
    k == "version" || k == "exceptions"
  }

  /** A key after the first must not look like a comment, an item or a header line. */
  predicate LaterOk(k: string) {
    Clean(k) && !StartsWith(k, "#") && !StartsWith(k, "- ") && !IsHeader(k)
  }

  predicate KeysOk(rec: Fields) {
    rec != [] && Clean(rec[0].key) && forall i | 1 <= i < |rec| :: LaterOk(rec[i].key)
  }

  ghost predicate DistinctKeys(rec: Fields) {
    forall i, j | 0 <= i < j < |rec| :: rec[i].key != rec[j].key
  }

  /** Between quotes any value survives; written as it is, one that is trimmed and not itself between equal quotes. */
  predicate ValueOk(f: Field) {
    f.style.Plain? ==> Trimmed(f.value) && !Quoted(f.value)
  }

  ghost predicate ValuesOk(rec: Fields) {
    forall f | f in rec :: ValueOk(f)
  }

  // --- One line ---

  /** The value that the parser reads. */
  function ReadValue(f: Field): string {
    Unquote(Strip(" " + ValueText(f)))
  }

  lemma TextStripped(f: Field)
    ensures Strip(" " + ValueText(f)) == if f.style.Plain? then Strip(f.value) else ValueText(f)
  {
    StripSkipsIndent(ValueText(f));
    assert [' '] + ValueText(f) == " " + ValueText(f);
    if !f.style.Plain? {
      assert !IsSpace('"') && !IsSpace('\'');
      StripKeeps(ValueText(f));
    }
  }

  lemma PlainSurvives(v: string)
    ensures Unquote(Strip(v)) == v <==> Trimmed(v) && !Quoted(v)
  {
    StripTrims(v);
    var front, back := StripSplits(v);
    if Trimmed(v) {
      StripKeeps(v);
      UnquoteMeans(v, '"');
    }
  }

  /** A value is read back as it was written exactly when its style suits it. */
  lemma ReadMeans(f: Field)
    ensures ReadValue(f) == f.value <==> ValueOk(f)
  {
    TextStripped(f);
    match f.style {
      case Plain => PlainSurvives(f.value);
      case Double =>
        assert ValueText(f) == ['"'] + f.value + ['"'];
        UnquoteMeans(f.value, '"');
      case Single =>
        assert ValueText(f) == ['\''] + f.value + ['\''];
        UnquoteMeans(f.value, '\'');
    }
  }

  lemma ClassifyFirst(f: Field)
    requires Clean(f.key)
    ensures Classify("- " + FieldText(f)) == Item(Some((f.key, ReadValue(f))))
  {
    var a := "- " + f.key;
    assert a[0] == '-' && TrimLeft(a) == a && a[2..] == f.key;
    assert "- " + FieldText(f) == a + ":" + (" " + ValueText(f));
    ClassifyColon(a, " " + ValueText(f));
    StripKeeps(f.key);
  }

  /** A continuation line with a clean key is a pair, unless its key reads as a comment, header or item. */
  lemma ClassifyLater(f: Field)
    requires Clean(f.key)
    ensures var l := Classify(" " + (" " + FieldText(f)));
      if StartsWith(f.key, "#") || IsHeader(f.key) then l == Skip
      else if StartsWith(f.key, "- ") then l.Item?
      else l == Pair(f.key, ReadValue(f))
  {
    var a := " " + (" " + f.key);
    assert a[1..][1..] == f.key && TrimLeft(a) == TrimLeft(a[1..]) == TrimLeft(f.key) == f.key;
    assert " " + (" " + FieldText(f)) == a + ":" + (" " + ValueText(f));
    ClassifyColon(a, " " + ValueText(f));
    StripKeeps(f.key);
  }

  /** Whatever the line, a key that the parser stores is trimmed and has no colon. */
  lemma ClassifyClean(raw: string)
    ensures Classify(raw).Item? && Classify(raw).kv.Some? ==> Clean(Classify(raw).kv.value.0)
    ensures Classify(raw).Pair? ==> Clean(Classify(raw).k)
  {
    SplitClean(Strip(raw));
    if |Strip(raw)| >= 2 {
      SplitClean(Strip(Strip(raw)[2..]));
    }
  }

  lemma SplitClean(line: string)
    ensures SplitKv(line).Some? ==> Clean(SplitKv(line).value.0)
  {
    FindFirst(line, ':');
    StripTrims(line[..Find(line, ':')]);
  }

  // --- One record ---

  function LaterKinds(fields: Fields): seq<Line> {
    Kinds(PrintLater(fields))
  }

  lemma LaterKindsCons(fields: Fields)
    requires fields != []
    ensures LaterKinds(fields) == [Classify(" " + (" " + FieldText(fields[0])))] + LaterKinds(fields[1..])
  {
    var first := " " + (" " + FieldText(fields[0]));
    assert PrintLater(fields) == [first] + PrintLater(fields[1..]);
    KindsConcat([first], PrintLater(fields[1..]));
    OneKind(first);
  }

  lemma OneKind(raw: string)
    ensures Kinds([raw]) == [Classify(raw)]
  {
  }

  ghost predicate AllClean(fields: Fields) {
    forall f | f in fields :: Clean(f.key)
  }

  predicate Dash(f: Field) { StartsWith(f.key, "- ") }

  /** Continuation lines add no item exactly when no key looks like one. */
  lemma {:induction false} LaterItems(fields: Fields)
    requires AllClean(fields)
    ensures Items(LaterKinds(fields)) == 0 <==> forall f | f in fields :: !Dash(f)
    decreases |fields|
  {
    if fields != [] {
      assert fields[0] in fields && forall f | f in fields[1..] :: f in fields;
      assert forall f | f in fields :: f == fields[0] || f in fields[1..];
      LaterKindsCons(fields);
      assert LaterKinds(fields)[1..] == LaterKinds(fields[1..]);
      ClassifyLater(fields[0]);
      LaterItems(fields[1..]);
    }
  }

  /** The record with the values that the parser reads. */
  function BuildRead(acc: Record, fields: Fields): Record
    decreases |fields|
  {
    if fields == [] then acc else BuildRead(acc[fields[0].key := ReadValue(fields[0])], fields[1..])
  }

  /** Good continuation keys are all stored. */
  lemma {:induction false} LaterBuilds(acc: Record, fields: Fields)
    requires forall f | f in fields :: LaterOk(f.key)
    ensures Extend(acc, LaterKinds(fields)) == BuildRead(acc, fields)
    decreases |fields|
  {
    if fields != [] {
      assert fields[0] in fields && forall f | f in fields[1..] :: f in fields;
      LaterKindsCons(fields);
      assert LaterKinds(fields)[1..] == LaterKinds(fields[1..]);
      ClassifyLater(fields[0]);
      LaterBuilds(acc[fields[0].key := ReadValue(fields[0])], fields[1..]);
    }
  }

  /** Only the keys of pair lines are stored: a key that reads as a comment or header is lost. */
  lemma {:induction false} LaterKeys(acc: Record, fields: Fields, k: string)
    requires AllClean(fields) && forall f | f in fields :: !Dash(f)
    ensures k in Extend(acc, LaterKinds(fields)) <==>
      k in acc || ((exists f | f in fields :: f.key == k) && !StartsWith(k, "#") && !IsHeader(k))
    decreases |fields|
  {
    if fields != [] {
      assert fields[0] in fields && forall f | f in fields[1..] :: f in fields;
      assert forall f | f in fields :: f == fields[0] || f in fields[1..];
      LaterKindsCons(fields);
      assert LaterKinds(fields)[1..] == LaterKinds(fields[1..]);
      ClassifyLater(fields[0]);
      var skipped := StartsWith(fields[0].key, "#") || IsHeader(fields[0].key);
      LaterKeys(if skipped then acc else acc[fields[0].key := ReadValue(fields[0])], fields[1..], k);
    }
  }

  lemma {:induction false} BuildKeys(acc: Record, fields: Fields, k: string)
    ensures k in Build(acc, fields) <==> k in acc || exists f | f in fields :: f.key == k
    decreases |fields|
  {
    if fields != [] {
      assert forall f | f in fields :: f == fields[0] || f in fields[1..];
      assert fields[0] in fields && forall f | f in fields[1..] :: f in fields;
      BuildKeys(acc[fields[0].key := fields[0].value], fields[1..], k);
    }
  }

  lemma {:induction false} BuildLater(acc: Record, fields: Fields, k: string)
    requires forall f | f in fields :: f.key != k
    ensures Kept(acc, Build(acc, fields), k) && Kept(acc, BuildRead(acc, fields), k)
    decreases |fields|
  {
    if fields != [] {
      assert fields[0] in fields && forall f | f in fields[1..] :: f in fields;
      BuildLater(acc[fields[0].key := fields[0].value], fields[1..], k);
      BuildLater(acc[fields[0].key := ReadValue(fields[0])], fields[1..], k);
    }
  }

  predicate Kept(before: Record, after: Record, k: string) {
    (k in after <==> k in before) && (k in before ==> after[k] == before[k])
  }

  /** With distinct keys every field is found in the built records. */
  lemma {:induction false} BuildHolds(acc: Record, fields: Fields, i: nat)
    requires i < |fields| && DistinctKeys(fields)
    ensures fields[i].key in Build(acc, fields) && Build(acc, fields)[fields[i].key] == fields[i].value
    ensures fields[i].key in BuildRead(acc, fields) && BuildRead(acc, fields)[fields[i].key] == ReadValue(fields[i])
    decreases |fields|
  {
    var a, b := acc[fields[0].key := fields[0].value], acc[fields[0].key := ReadValue(fields[0])];
    if i == 0 {
      forall f | f in fields[1..] ensures f.key != fields[0].key {
        var j :| 0 <= j < |fields[1..]| && fields[1..][j] == f;
        assert fields[j + 1] == f;
      }
      BuildLater(a, fields[1..], fields[0].key);
      BuildLater(b, fields[1..], fields[0].key);
    } else {
      BuildHolds(a, fields[1..], i - 1);
      BuildHolds(b, fields[1..], i - 1);
    }
  }

  lemma {:induction false} SameWhenRead(acc: Record, fields: Fields)
    requires ValuesOk(fields)
    ensures BuildRead(acc, fields) == Build(acc, fields)
    decreases |fields|
  {
    if fields != [] {
      assert fields[0] in fields && forall f | f in fields[1..] :: f in fields;
      ReadMeans(fields[0]);
      SameWhenRead(acc[fields[0].key := fields[0].value], fields[1..]);
    }
  }

  /** The record read is the record written exactly when every value is read back. */
  lemma ReadRecord(fields: Fields)
    requires DistinctKeys(fields)
    ensures BuildRead(map[], fields) == Build(map[], fields) <==> ValuesOk(fields)
  {
    if ValuesOk(fields) {
      SameWhenRead(map[], fields);
    } else {
      var f :| f in fields && !ValueOk(f);
      var i :| 0 <= i < |fields| && fields[i] == f;
      ReadMeans(f);
      BuildHolds(map[], fields, i);
    }
  }

  function FirstKind(rec: Fields): Line
    requires rec != []
  {
    Item(Some((rec[0].key, ReadValue(rec[0]))))
  }

  lemma PrintedKinds(rec: Fields)
    requires rec != [] && Clean(rec[0].key)
    ensures Kinds(Print(rec)) == [FirstKind(rec)] + LaterKinds(rec[1..])
  {
    ClassifyFirst(rec[0]);
    KindsConcat(["- " + FieldText(rec[0])], PrintLater(rec[1..]));
    assert Kinds(["- " + FieldText(rec[0])]) == [Classify("- " + FieldText(rec[0]))];
  }

  // --- All records ---

  lemma {:induction false} ItemsConcat(a: seq<Line>, b: seq<Line>)
    ensures Items(a + b) == Items(a) + Items(b)
    decreases |a|
  {
    if a == [] {
      assert a + b == b;
    } else {
      assert (a + b)[1..] == a[1..] + b;
      ItemsConcat(a[1..], b);
    }
  }

  lemma {:induction false} NoItems(kinds: seq<Line>)
    requires Items(kinds) == 0
    ensures RecordsOf(kinds) == [] && WellFormed(kinds)
  {
    if kinds != [] {
      NoItems(kinds[1..]);
      assert forall l | l in kinds :: l == kinds[0] || l in kinds[1..];
    }
  }

  /** The record of a printed block, and what follows it, when no continuation line starts an item. */
  lemma BlockRecords(first: (string, string), later: seq<Line>, rest: seq<Line>)
    requires Items(later) == 0 && (rest == [] || rest[0].Item?)
    ensures var kinds := [Item(Some(first))] + later + rest;
      && RecordsOf(kinds) == [Extend(map[first.0 := first.1], later)] + RecordsOf(rest)
      && (WellFormed(kinds) <==> WellFormed(rest))
  {
    var block := [Item(Some(first))] + later;
    NoItems(later);
    assert block[1..] == later;
    WellFormedConcat([Item(Some(first))], later);
    WellFormedConcat(block, rest);
    var rec := Extend(map[first.0 := first.1], later);
    assert RecordsOf(block) == [rec];
    RecordsConcat(block, rest);
    LastOnly(rec, rest);
  }

  lemma LastOnly(rec: Record, rest: seq<Line>)
    requires rest == [] || rest[0].Item?
    ensures ExtendLast([rec], rest) == [rec]
  {
  }

  lemma WellFormedConcat(a: seq<Line>, b: seq<Line>)
    ensures WellFormed(a + b) <==> WellFormed(a) && WellFormed(b)
  {
    assert forall l :: l in a + b <==> l in a || l in b;
  }

  predicate Nonempty(recs: seq<Fields>) {
    forall rec | rec in recs :: rec != []
  }

  ghost predicate RoundTrips(recs: seq<Fields>) {
    WellFormed(Kinds(PrintAll(recs))) && RecordsOf(Kinds(PrintAll(recs))) == Records(recs)
  }

  lemma PrintedAll(recs: seq<Fields>)
    requires recs != [] && recs[0] != [] && AllClean(recs[0])
    ensures Kinds(PrintAll(recs)) == [FirstKind(recs[0])] + LaterKinds(recs[0][1..]) + Kinds(PrintAll(recs[1..]))
  {
    assert recs[0][0] in recs[0];
    PrintedKinds(recs[0]);
    KindsConcat(Print(recs[0]), PrintAll(recs[1..]));
  }

  lemma KindsConcat(a: seq<string>, b: seq<string>)
    ensures Kinds(a + b) == Kinds(a) + Kinds(b)
  {
  }

  /** Every record prints at least one item line, the first line of its block. */
  lemma {:induction false} PrintedItems(recs: seq<Fields>)
    requires Nonempty(recs) && forall rec | rec in recs :: AllClean(rec)
    ensures Items(Kinds(PrintAll(recs))) >= |recs|
    ensures recs != [] ==> Kinds(PrintAll(recs)) != [] && Kinds(PrintAll(recs))[0].Item?
    ensures recs == [] ==> Kinds(PrintAll(recs)) == []
  {
    if recs != [] {
      assert recs[0] in recs && forall rec | rec in recs[1..] :: rec in recs;
      PrintedAll(recs);
      PrintedItems(recs[1..]);
      var block := [FirstKind(recs[0])] + LaterKinds(recs[0][1..]);
      assert block[0].Item?;
      ItemsConcat(block, Kinds(PrintAll(recs[1..])));
    }
  }

  lemma GoodBlock(rec: Fields)
    requires KeysOk(rec)
    ensures AllClean(rec[1..]) && Items(LaterKinds(rec[1..])) == 0
    ensures Extend(map[rec[0].key := ReadValue(rec[0])], LaterKinds(rec[1..])) == BuildRead(map[], rec)
  {
    forall f | f in rec[1..] ensures LaterOk(f.key) {
      var i :| 0 <= i < |rec[1..]| && rec[1..][i] == f;
      assert rec[i + 1] == f;
    }
    LaterItems(rec[1..]);
    LaterBuilds(map[rec[0].key := ReadValue(rec[0])], rec[1..]);
  }

  /** A block without item-like keys loses each key that reads as a comment or a header. */
  lemma BadBlock(rec: Fields)
    requires rec != [] && AllClean(rec) && DistinctKeys(rec) && !KeysOk(rec) && Items(LaterKinds(rec[1..])) == 0
    ensures Extend(map[rec[0].key := ReadValue(rec[0])], LaterKinds(rec[1..])) != Build(map[], rec)
  {
    assert forall f | f in rec[1..] :: f in rec;
    assert rec[0] in rec;
    LaterItems(rec[1..]);
    var i :| 1 <= i < |rec| && !LaterOk(rec[i].key);
    var k := rec[i].key;
    assert rec[i] == rec[1..][i - 1] && rec[i] in rec[1..] && rec[i] in rec;
    LaterKeys(map[rec[0].key := ReadValue(rec[0])], rec[1..], k);
    BuildKeys(map[], rec, k);
    assert rec[0].key != k;
  }

  lemma GoodFirst(recs: seq<Fields>)
    requires recs != [] && Nonempty(recs) && (forall rec | rec in recs :: AllClean(rec)) && KeysOk(recs[0]) && DistinctKeys(recs[0])
    ensures RoundTrips(recs) <==> ValuesOk(recs[0]) && RoundTrips(recs[1..])
  {
    assert recs[0] in recs && forall rec | rec in recs[1..] :: rec in recs;
    PrintedItems(recs[1..]);
    PrintedAll(recs);
    GoodBlock(recs[0]);
    var rest := Kinds(PrintAll(recs[1..]));
    BlockRecords((recs[0][0].key, ReadValue(recs[0][0])), LaterKinds(recs[0][1..]), rest);
    ReadRecord(recs[0]);
    SameList(BuildRead(map[], recs[0]), RecordsOf(rest), Build(map[], recs[0]), Records(recs[1..]));
  }

  lemma SameList<T>(x: T, a: seq<T>, y: T, b: seq<T>)
    ensures [x] + a == [y] + b <==> x == y && a == b
  {
    assert ([x] + a)[0] == x && ([y] + b)[0] == y;
    assert ([x] + a)[1..] == a && ([y] + b)[1..] == b;
  }

  /** As many records come out as go in only when the first block holds no further item. */
  lemma BadFirst(recs: seq<Fields>)
    requires recs != [] && Nonempty(recs) && (forall rec | rec in recs :: AllClean(rec))
    requires DistinctKeys(recs[0]) && !KeysOk(recs[0])
    ensures !RoundTrips(recs)
  {
    assert recs[0] in recs && forall rec | rec in recs[1..] :: rec in recs;
    PrintedItems(recs[1..]);
    PrintedAll(recs);
    var first, later, rest := (recs[0][0].key, ReadValue(recs[0][0])), LaterKinds(recs[0][1..]), Kinds(PrintAll(recs[1..]));
    if RoundTrips(recs) {
      BlockItems(first, later, rest, Kinds(PrintAll(recs)), |recs|);
      BlockRecords(first, later, rest);
      BadBlock(recs[0]);
      assert Records(recs)[0] == Build(map[], recs[0]);
    }
  }

  lemma BlockItems(first: (string, string), later: seq<Line>, rest: seq<Line>, kinds: seq<Line>, n: nat)
    requires kinds == [Item(Some(first))] + later + rest && WellFormed(kinds) && |RecordsOf(kinds)| == n
    requires Items(rest) >= n - 1
    ensures Items(later) == 0
  {
    OneRecordPerItem(kinds);
    ItemsConcat([Item(Some(first))] + later, rest);
    assert ([Item(Some(first))] + later)[1..] == later;
  }

  lemma {:induction false} CleanRoundTrip(recs: seq<Fields>)
    requires Nonempty(recs) && forall rec | rec in recs :: DistinctKeys(rec) && AllClean(rec)
    ensures RoundTrips(recs) <==> forall rec | rec in recs :: KeysOk(rec) && ValuesOk(rec)
  {
    if recs != [] {
      assert recs[0] in recs && forall rec | rec in recs[1..] :: rec in recs;
      if KeysOk(recs[0]) {
        assert forall rec | rec in recs :: rec == recs[0] || rec in recs[1..];
        CleanRoundTrip(recs[1..]);
        GoodFirst(recs);
      } else {
        BadFirst(recs);
      }
    }
  }

  // --- Keys that are not clean ---

  lemma {:induction false} StoredClean(rec: Record, kinds: seq<Line>)
    requires (forall k | k in rec :: Clean(k)) && forall l | l in kinds && l.Pair? :: Clean(l.k)
    ensures forall k | k in Extend(rec, kinds) :: Clean(k)
    decreases |kinds|
  {
    if kinds != [] && !kinds[0].Item? {
      assert kinds[0] in kinds && forall l | l in kinds[1..] :: l in kinds;
      StoredClean(if kinds[0].Pair? then rec[kinds[0].k := kinds[0].v] else rec, kinds[1..]);
    }
  }

  lemma {:induction false} RecordsClean(kinds: seq<Line>)
    requires forall l | l in kinds && l.Pair? :: Clean(l.k)
    requires forall l | l in kinds && l.Item? && l.kv.Some? :: Clean(l.kv.value.0)
    ensures forall rec, k | rec in RecordsOf(kinds) && k in rec :: Clean(k)
  {
    if kinds != [] {
      assert kinds[0] in kinds && forall l | l in kinds[1..] :: l in kinds;
      RecordsClean(kinds[1..]);
      if kinds[0].Item? && kinds[0].kv.Some? {
        StoredClean(map[kinds[0].kv.value.0 := kinds[0].kv.value.1], kinds[1..]);
      }
    }
  }

  lemma {:induction false} RecordsHaveKeys(recs: seq<Fields>, rec: Fields, f: Field)
    requires rec in recs && f in rec
    ensures exists r | r in Records(recs) :: f.key in r
  {
    if rec == recs[0] {
      BuildKeys(map[], rec, f.key);
      assert Records(recs)[0] in Records(recs);
    } else {
      RecordsHaveKeys(recs[1..], rec, f);
      var r :| r in Records(recs[1..]) && f.key in r;
      assert r in Records(recs);
    }
  }

  /** Taking every printed line for one line, the parser reads back what is printed exactly when every first key is trimmed
      and colon-free, every later key moreover reads as no comment, item or header, and every value that is written without
      quotes is trimmed and not between equal quotes of its own. */
  lemma LinesRoundTrip(recs: seq<Fields>)
    requires Nonempty(recs) && forall rec | rec in recs :: DistinctKeys(rec)
    ensures RoundTrips(recs) <==> forall rec | rec in recs :: KeysOk(rec) && ValuesOk(rec)
  {
    var kinds := Kinds(PrintAll(recs));
    forall l | l in kinds
      ensures l.Pair? ==> Clean(l.k)
      ensures l.Item? && l.kv.Some? ==> Clean(l.kv.value.0)
    {
      var i :| 0 <= i < |kinds| && kinds[i] == l;
      ClassifyClean(PrintAll(recs)[i]);
    }
    RecordsClean(kinds);
    if RoundTrips(recs) {
      forall rec, f | rec in recs && f in rec ensures Clean(f.key) {
        RecordsHaveKeys(recs, rec, f);
      }
      CleanRoundTrip(recs);
    }
    if forall rec | rec in recs :: KeysOk(rec) && ValuesOk(rec) {
      forall rec, f | rec in recs && f in rec ensures Clean(f.key) {
        var i :| 0 <= i < |rec| && rec[i] == f;
        assert i > 0 ==> LaterOk(rec[i].key);
      }
      CleanRoundTrip(recs);
    }
  }
}
