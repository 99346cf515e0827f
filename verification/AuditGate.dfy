/** The audit-exception gate: the index of exceptions, the scan over the findings and the exit code. */
module AuditGate {
  import opened Collections
  import opened Text
  import opened ExceptionParser
  import opened AuditReport

  /** A package and a lower-cased advisory. */
  type Key = (string, string)

  /** `str.lower` and `date.fromisoformat` (as a day number) are inputs. */
  datatype World = World(lower: string -> string, parseDate: string -> Option<int>)

  datatype Entry = Entry(severity: string, expires: int)

  datatype Problem =
    | Incomplete(exc: Record) | BadDate(exc: Record) | Blank(exc: Record) | Duplicate(exc: Record)
    | NoAdvisory(f: Finding) | Mismatch(f: Finding)

  // --- What single exceptions and findings say ---

  predicate Has(exc: Record, field: string) {
    field in exc && exc[field] != ""
  }

  predicate Complete(exc: Record) {
    Has(exc, "package") && Has(exc, "advisory") && Has(exc, "severity") && Has(exc, "mitigation") && Has(exc, "expires_on")
  }

  function KeyOf(w: World, exc: Record): Key
    requires Complete(exc)
  {
    (Strip(exc["package"]), w.lower(Strip(exc["advisory"])))
  }

  predicate Valid(w: World, exc: Record) {
    && Complete(exc)
    && w.parseDate(exc["expires_on"]).Some?
    && KeyOf(w, exc).0 != "" && KeyOf(w, exc).1 != ""
  }

  function EntryOf(w: World, exc: Record): Entry
    requires Valid(w, exc)
  {
    Entry(w.lower(Strip(exc["severity"])), w.parseDate(exc["expires_on"]).value)
  }

  /** Fails on a severity that is a number, which has no `strip`. */
  function NormalizeSeverity(w: World, severity: Scalar): Option<string> {
    if !Truthy(severity) then Some(w.lower(Strip("")))
    else if severity.Str? then Some(w.lower(Strip(severity.s)))
    else None
  }

  function NormalizePackage(name: Scalar): string {
    Strip(ToText(name))
  }

  function NormalizeAdvisory(w: World, advisory: Scalar): string {
    if advisory == Null then "" else w.lower(Strip(ToText(advisory)))
  }

  function Severity(w: World, f: Finding): string {
    match NormalizeSeverity(w, f.severity) case Some(s) => s case None => ""
  }

  /** A finding that the gate looks at. */
  predicate Relevant(w: World, f: Finding) {
    Severity(w, f) in {"high", "critical"} && Truthy(f.name)
  }

  function FindingKey(w: World, f: Finding): Key {
    (NormalizePackage(f.name), NormalizeAdvisory(w, f.advisory))
  }

  predicate Keyed(w: World, f: Finding) {
    Relevant(w, f) && FindingKey(w, f).1 != ""
  }

  // --- The index of exceptions ---

  /** What a valid exception puts into the index. */
  type Reading = Option<(Key, Entry)>

  function Read(w: World, exc: Record): Reading {
    if Valid(w, exc) then Some((KeyOf(w, exc), EntryOf(w, exc))) else None
  }

  function Readings(w: World, excs: seq<Record>): (r: seq<Reading>)
    ensures |r| == |excs| && forall i | 0 <= i < |excs| :: r[i] == Read(w, excs[i])
  {
    seq(|excs|, i requires 0 <= i < |excs| => Read(w, excs[i]))
  }

  ghost predicate Taken(readings: seq<Reading>, n: nat, key: Key)
    requires n <= |readings|
  {
    exists j | 0 <= j < n :: readings[j].Some? && readings[j].value.0 == key
  }

  /** What the i-th exception adds to the errors; nothing when it is indexed. */
  ghost function ProblemAt(w: World, excs: seq<Record>, i: nat): Option<Problem>
    requires i < |excs|
  {
    var exc := excs[i];
    if !Complete(exc) then Some(Incomplete(exc))
    else if w.parseDate(exc["expires_on"]) == None then Some(BadDate(exc))
    else if !Valid(w, exc) then Some(Blank(exc))
    else if Taken(Readings(w, excs), i, KeyOf(w, exc)) then Some(Duplicate(exc))
    else None
  }

  ghost function Problems(w: World, excs: seq<Record>): (r: seq<Option<Problem>>)
    ensures |r| == |excs| && forall i | 0 <= i < |excs| :: r[i] == ProblemAt(w, excs, i)
  {
    seq(|excs|, i requires 0 <= i < |excs| => ProblemAt(w, excs, i))
  }

  /** The index holds the first valid exception of every key, and nothing else. */
  ghost predicate Indexed(readings: seq<Reading>, n: nat, index: map<Key, Entry>)
    requires n <= |readings|
  {
    && (forall k :: k in index <==> Taken(readings, n, k))
    && (forall j | 0 <= j < n && readings[j].Some? && !Taken(readings, j, readings[j].value.0) ::
          readings[j].value.0 in index && index[readings[j].value.0] == readings[j].value.1)
  }

  lemma TakenStep(readings: seq<Reading>, i: nat, key: Key)
    requires i < |readings|
    ensures Taken(readings, i + 1, key) <==>
      Taken(readings, i, key) || (readings[i].Some? && readings[i].value.0 == key)
  {
  }

  /** A key that is taken keeps its entry. */
  function Insert(index: map<Key, Entry>, reading: Reading): map<Key, Entry> {
    if reading == None || reading.value.0 in index then index else index[reading.value.0 := reading.value.1]
  }

  lemma IndexKeys(readings: seq<Reading>, i: nat, index: map<Key, Entry>, index': map<Key, Entry>, k: Key)
    requires i < |readings| && (k in index <==> Taken(readings, i, k)) && index' == Insert(index, readings[i])
    ensures k in index' <==> Taken(readings, i + 1, k)
  {
    TakenStep(readings, i, k);
  }

  /** An indexed entry stays, and a new key gets its entry. */
  lemma IndexEntry(readings: seq<Reading>, i: nat, j: nat, index: map<Key, Entry>, index': map<Key, Entry>, key: Key, entry: Entry)
    requires i < |readings| && j <= i && readings[j] == Some((key, entry)) && !Taken(readings, j, key)
    requires Indexed(readings, i, index) && index' == Insert(index, readings[i])
    ensures key in index' && index'[key] == entry
  {
    if j < i {
      assert Taken(readings, i, readings[j].value.0);
    }
  }

  lemma IndexStep(readings: seq<Reading>, i: nat, index: map<Key, Entry>)
    requires i < |readings| && Indexed(readings, i, index)
    ensures Indexed(readings, i + 1, Insert(index, readings[i]))
  {
    var index' := Insert(index, readings[i]);
    forall k {
      IndexKeys(readings, i, index, index', k);
    }
    forall j | 0 <= j < i + 1 && readings[j].Some? && !Taken(readings, j, readings[j].value.0)
      ensures readings[j].value.0 in index' && index'[readings[j].value.0] == readings[j].value.1
    {
      IndexEntry(readings, i, j, index, index', readings[j].value.0, readings[j].value.1);
    }
  }

  /** One turn of the loop over the exceptions. */
  method AddException(w: World, ghost excs: seq<Record>, ghost i: nat, exc: Record, index: map<Key, Entry>,
      ghost reading: Reading, ghost expected: Option<Problem>)
      returns (index': map<Key, Entry>, problem: Option<Problem>)
    requires i < |excs| && exc == excs[i] && forall k :: k in index <==> Taken(Readings(w, excs), i, k)
    requires reading == Readings(w, excs)[i] && expected == Problems(w, excs)[i]
    ensures problem == expected
    ensures index' == Insert(index, reading)
  {
    if !Complete(exc) {
      return index, Some(Incomplete(exc));
    }
    var severity := w.lower(Strip(exc["severity"]));
    var key := (Strip(exc["package"]), w.lower(Strip(exc["advisory"])));
    var date := w.parseDate(exc["expires_on"]);
    if date == None {
      return index, Some(BadDate(exc));
    }
    if key.0 == "" || key.1 == "" {
      return index, Some(Blank(exc));
    }
    if key in index {
      return index, Some(Duplicate(exc));
    }
    return index[key := Entry(severity, date.value)], None;
  }

  method BuildIndex(w: World, excs: seq<Record>) returns (index: map<Key, Entry>, errors: seq<Problem>)
    ensures errors == Somes(Problems(w, excs))
    ensures Indexed(Readings(w, excs), |excs|, index)
  {
    index, errors := map[], [];
    ghost var readings, problems := Readings(w, excs), Problems(w, excs);
    for i := 0 to |excs|
      invariant errors == Somes(problems[..i])
      invariant Indexed(readings, i, index)
    {
      IndexStep(readings, i, index);
      SomesStep(problems, i);
      var problem;
      index, problem := AddException(w, excs, i, excs[i], index, readings[i], problems[i]);
      if problem.Some? {
        errors := errors + [problem.value];
      }
    }
    assert problems[..|excs|] == problems;
  }

  // --- The scan over the findings ---

  datatype Verdict = Ignored | Anonymous | Repeated | Missing | Matched(mismatch: bool, expired: bool)

  /** The key of a finding that the gate looks up. */
  function Lookup(w: World, f: Finding): Option<Key> {
    if Keyed(w, f) then Some(FindingKey(w, f)) else None
  }

  function Lookups(w: World, fs: seq<Finding>): (r: seq<Option<Key>>)
    ensures |r| == |fs| && forall i | 0 <= i < |fs| :: r[i] == Lookup(w, fs[i])
  {
    seq(|fs|, i requires 0 <= i < |fs| => Lookup(w, fs[i]))
  }

  /** What the i-th finding counts as. */
  ghost function VerdictAt(w: World, today: int, index: map<Key, Entry>, fs: seq<Finding>, i: nat): Verdict
    requires i < |fs|
  {
    var f := fs[i];
    var key := FindingKey(w, f);
    if !Relevant(w, f) then Ignored
    else if key.1 == "" then Anonymous
    else if Some(key) in Lookups(w, fs)[..i] then Repeated
    else if key !in index then Missing
    else Matched(index[key].severity != "" && index[key].severity != Severity(w, f), index[key].expires < today)
  }

  function NoteOf(v: Verdict, f: Finding): Option<Problem> {
    if v.Anonymous? then Some(NoAdvisory(f)) else if v.Matched? && v.mismatch then Some(Mismatch(f)) else None
  }

  ghost function Verdicts(w: World, today: int, index: map<Key, Entry>, fs: seq<Finding>): (r: seq<Verdict>)
    ensures |r| == |fs| && forall i | 0 <= i < |fs| :: r[i] == VerdictAt(w, today, index, fs, i)
  {
    seq(|fs|, i requires 0 <= i < |fs| => VerdictAt(w, today, index, fs, i))
  }

  predicate Absent(v: Verdict) { v.Missing? }

  predicate Lapsed(v: Verdict) { v.Matched? && v.expired }

  predicate Covered(v: Verdict) { v.Matched? && !v.expired }

  predicate Handled(v: Verdict) { v.Missing? || v.Matched? }

  /** The findings among the first n whose verdict satisfies `p`, in order. */
  ghost function Having(verdicts: seq<Verdict>, fs: seq<Finding>, n: nat, p: Verdict -> bool): seq<Finding>
    requires n <= |verdicts| == |fs|
  {
    if n == 0 then [] else
    var before := Having(verdicts, fs, n - 1, p);
    if p(verdicts[n - 1]) then before + [fs[n - 1]] else before
  }

  /** What the scan collects: problems, findings without exception, findings whose exception is expired. */
  datatype Tally = Tally(errors: seq<Problem>, missing: seq<Finding>, expired: seq<Finding>)

  function Add(t: Tally, v: Verdict, f: Finding): Tally {
    Tally(if NoteOf(v, f).Some? then t.errors + [NoteOf(v, f).value] else t.errors,
          if Absent(v) then t.missing + [f] else t.missing,
          if Lapsed(v) then t.expired + [f] else t.expired)
  }

  ghost function Tallied(verdicts: seq<Verdict>, fs: seq<Finding>, n: nat): Tally
    requires n <= |verdicts| == |fs|
  {
    if n == 0 then Tally([], [], []) else Add(Tallied(verdicts, fs, n - 1), verdicts[n - 1], fs[n - 1])
  }

  lemma {:induction false} TallyLists(verdicts: seq<Verdict>, fs: seq<Finding>, n: nat)
    requires n <= |verdicts| == |fs|
    ensures var t := Tallied(verdicts, fs, n);
      && t.missing == Having(verdicts, fs, n, Absent)
      && t.expired == Having(verdicts, fs, n, Lapsed)
      && (t.errors == [] <==> forall i | 0 <= i < n :: NoteOf(verdicts[i], fs[i]) == None)
  {
    if n > 0 {
      TallyLists(verdicts, fs, n - 1);
    }
  }

  ghost predicate Seen(lookups: seq<Option<Key>>, n: nat, seen: set<Key>)
    requires n <= |lookups|
  {
    forall k :: k in seen <==> Some(k) in lookups[..n]
  }

  function Marked(seen: set<Key>, lookup: Option<Key>): set<Key> {
    if lookup.Some? then seen + {lookup.value} else seen
  }

  lemma SeenStep(lookups: seq<Option<Key>>, i: nat, seen: set<Key>)
    requires i < |lookups| && Seen(lookups, i, seen)
    ensures Seen(lookups, i + 1, Marked(seen, lookups[i]))
  {
    assert lookups[..i + 1] == lookups[..i] + [lookups[i]];
  }

  method Judge(w: World, today: int, index: map<Key, Entry>, ghost fs: seq<Finding>, ghost i: nat, f: Finding, seen: set<Key>,
      ghost lookup: Option<Key>, ghost expected: Verdict)
      returns (ok: bool, seen': set<Key>, verdict: Verdict)
    requires i < |fs| && f == fs[i] && Seen(Lookups(w, fs), i, seen)
    requires lookup == Lookups(w, fs)[i] && expected == Verdicts(w, today, index, fs)[i]
    ensures ok <==> SeverityReads(w, f)
    ensures ok ==> verdict == expected && Seen(Lookups(w, fs), i + 1, seen')
  {
    ok, seen', verdict := true, seen, Ignored;
    SeenStep(Lookups(w, fs), i, seen);
    var sev := NormalizeSeverity(w, f.severity);
    if sev == None {
      ok := false;
      return;
    }
    if sev.value !in {"high", "critical"} || !Truthy(f.name) {
      return;
    }
    var advisory := NormalizeAdvisory(w, f.advisory);
    if advisory == "" {
      verdict := Anonymous;
      return;
    }
    var key := (NormalizePackage(f.name), advisory);
    if key in seen {
      verdict := Repeated;
      return;
    }
    seen' := seen + {key};
    if key !in index {
      verdict := Missing;
      return;
    }
    var entry := index[key];
    verdict := Matched(entry.severity != "" && entry.severity != sev.value, entry.expires < today);
  }

  predicate SeverityReads(w: World, f: Finding) {
    NormalizeSeverity(w, f.severity).Some?
  }

  ghost predicate AllRead(w: World, fs: seq<Finding>, n: nat)
    requires n <= |fs|
  {
    forall i | 0 <= i < n :: SeverityReads(w, fs[i])
  }

  lemma ReadStep(w: World, fs: seq<Finding>, i: nat)
    requires i < |fs| && AllRead(w, fs, i) && SeverityReads(w, fs[i])
    ensures AllRead(w, fs, i + 1)
  {
  }

  /** Puts a finding on the lists that its verdict asks for. */
  method Put(t: Tally, verdict: Verdict, f: Finding) returns (t': Tally)
    ensures t' == Add(t, verdict, f)
  {
    t' := t;
    match verdict
    case Anonymous => t' := t'.(errors := t.errors + [NoAdvisory(f)]);
    case Missing => t' := t'.(missing := t.missing + [f]);
    case Matched(mismatch, lapsed) =>
      if mismatch {
        t' := t'.(errors := t.errors + [Mismatch(f)]);
      }
      if lapsed {
        t' := t'.(expired := t.expired + [f]);
      }
    case _ =>
  }

  /** Fails when a severity cannot be read. */
  method Scan(w: World, today: int, index: map<Key, Entry>, fs: seq<Finding>) returns (ok: bool, tally: Tally)
    ensures ok <==> AllRead(w, fs, |fs|)
    ensures ok ==> tally == Tallied(Verdicts(w, today, index, fs), fs, |fs|)
  {
    ghost var verdicts, lookups := Verdicts(w, today, index, fs), Lookups(w, fs);
    ok, tally := true, Tally([], [], []);
    var seen: set<Key> := {};
    for i := 0 to |fs|
      invariant ok && AllRead(w, fs, i) && Seen(lookups, i, seen)
      invariant tally == Tallied(verdicts, fs, i)
    {
      var verdict;
      ok, seen, verdict := Judge(w, today, index, fs, i, fs[i], seen, lookups[i], verdicts[i]);
      if !ok {
        return;
      }
      ReadStep(w, fs, i);
      tally := Put(tally, verdict, fs[i]);
    }
  }
}
