/** When the gate passes, and what its verdict does not depend on. */
module GateTheorems {
  import opened Collections
  import opened Text
  import opened ExceptionParser
  import opened AuditReport
  import opened AuditGate
  import ExceptionFile
  import ExceptionPrinter

  // --- The condition for exit code 0, without index, scan or error lists ---

  ghost predicate DistinctKeys(w: World, excs: seq<Record>) {
    forall i, j | 0 <= i < j < |excs| && Valid(w, excs[i]) && Valid(w, excs[j]) :: KeyOf(w, excs[i]) != KeyOf(w, excs[j])
  }

  predicate Excuses(w: World, e: Record, f: Finding) {
    Valid(w, e) && KeyOf(w, e) == FindingKey(w, f)
  }

  /** The last day of an exception still counts. */
  predicate Current(w: World, today: int, e: Record)
    requires Valid(w, e)
  {
    today <= w.parseDate(e["expires_on"]).value
  }

  /** A severity that is blank after trimming agrees with every finding. */
  predicate Agrees(w: World, e: Record, f: Finding)
    requires Valid(w, e)
  {
    EntryOf(w, e).severity in {"", Severity(w, f)}
  }

  ghost predicate Excused(w: World, today: int, excs: seq<Record>, f: Finding) {
    exists e | e in excs :: Excuses(w, e, f) && Current(w, today, e)
  }

  /** The first finding of its key. */
  ghost predicate First(w: World, fs: seq<Finding>, i: nat)
    requires i < |fs|
  {
    Keyed(w, fs[i]) && forall j | 0 <= j < i :: Lookup(w, fs[j]) != Lookup(w, fs[i])
  }

  ghost predicate SeverityOk(w: World, excs: seq<Record>, f: Finding) {
    forall e | e in excs && Excuses(w, e, f) :: Agrees(w, e, f)
  }

  ghost predicate GoodList(w: World, excs: seq<Record>) {
    (forall e | e in excs :: Valid(w, e)) && DistinctKeys(w, excs)
  }

  ghost predicate AllExcused(w: World, today: int, excs: seq<Record>, fs: seq<Finding>) {
    forall f | f in fs :: SeverityReads(w, f) && (Relevant(w, f) ==> Keyed(w, f) && Excused(w, today, excs, f))
  }

  ghost predicate Passes(w: World, today: int, excs: seq<Record>, fs: seq<Finding>) {
    && GoodList(w, excs)
    && AllExcused(w, today, excs, fs)
    && forall i | 0 <= i < |fs| && First(w, fs, i) :: SeverityOk(w, excs, fs[i])
  }

  // --- The exceptions ---

  lemma NoProblemAt(w: World, excs: seq<Record>, i: nat)
    requires i < |excs|
    ensures ProblemAt(w, excs, i) == None <==>
      && Valid(w, excs[i])
      && forall j | 0 <= j < i && Valid(w, excs[j]) :: KeyOf(w, excs[j]) != KeyOf(w, excs[i])
  {
    assert forall j | 0 <= j < i :: Readings(w, excs)[j] == Read(w, excs[j]);
  }

  lemma NoProblems(w: World, excs: seq<Record>)
    ensures (forall i | 0 <= i < |excs| :: ProblemAt(w, excs, i) == None) <==> GoodList(w, excs)
  {
    forall i | 0 <= i < |excs| {
      NoProblemAt(w, excs, i);
    }
    assert forall i | 0 <= i < |excs| :: excs[i] in excs;
  }

  /** What the scan sees of a good list. */
  ghost predicate Mirrors(w: World, excs: seq<Record>, index: map<Key, Entry>) {
    && (forall e | e in excs :: Valid(w, e) && KeyOf(w, e) in index && index[KeyOf(w, e)] == EntryOf(w, e))
    && (forall k | k in index :: exists e | e in excs :: KeyOf(w, e) == k)
  }

  lemma IndexMirrors(w: World, excs: seq<Record>, index: map<Key, Entry>)
    requires GoodList(w, excs) && Indexed(Readings(w, excs), |excs|, index)
    ensures Mirrors(w, excs, index)
  {
    var readings := Readings(w, excs);
    forall e | e in excs ensures KeyOf(w, e) in index && index[KeyOf(w, e)] == EntryOf(w, e) {
      var i :| 0 <= i < |excs| && excs[i] == e;
      assert readings[i] == Some((KeyOf(w, e), EntryOf(w, e)));
      assert !Taken(readings, i, KeyOf(w, e));
    }
    forall k | k in index ensures exists e | e in excs :: KeyOf(w, e) == k {
      var j :| 0 <= j < |excs| && readings[j].Some? && readings[j].value.0 == k;
      assert readings[j] == Read(w, excs[j]) && excs[j] in excs;
    }
  }

  // --- The findings ---

  predicate Clean(v: Verdict) {
    v in {Ignored, Repeated, Matched(false, false)}
  }

  lemma FoundMeans(w: World, today: int, excs: seq<Record>, index: map<Key, Entry>, f: Finding)
    requires Mirrors(w, excs, index)
    ensures var key := FindingKey(w, f);
      key in index && today <= index[key].expires && index[key].severity in {"", Severity(w, f)} <==>
        Excused(w, today, excs, f) && SeverityOk(w, excs, f)
  {
    var key := FindingKey(w, f);
    if key in index {
      var e :| e in excs && KeyOf(w, e) == key;
      assert Excuses(w, e, f);
    }
  }

  lemma CleanMeans(w: World, today: int, excs: seq<Record>, index: map<Key, Entry>, fs: seq<Finding>, i: nat)
    requires i < |fs| && Mirrors(w, excs, index)
    ensures var f := fs[i];
      Clean(VerdictAt(w, today, index, fs, i)) <==>
        (Relevant(w, f) ==> Keyed(w, f) && (First(w, fs, i) ==> Excused(w, today, excs, f) && SeverityOk(w, excs, f)))
  {
    FoundMeans(w, today, excs, index, fs[i]);
    if Keyed(w, fs[i]) {
      FirstUnseen(w, fs, i);
    }
  }

  lemma FirstUnseen(w: World, fs: seq<Finding>, i: nat)
    requires i < |fs| && Keyed(w, fs[i])
    ensures First(w, fs, i) <==> Some(FindingKey(w, fs[i])) !in Lookups(w, fs)[..i]
  {
    var lookups, l := Lookups(w, fs), Lookup(w, fs[i]);
    if l in lookups[..i] {
      var j :| 0 <= j < i && lookups[..i][j] == l;
      assert Lookup(w, fs[j]) == l;
    }
    if j :| 0 <= j < i && Lookup(w, fs[j]) == l {
      assert lookups[..i][j] == l;
    }
  }

  lemma {:induction false} FirstOf(w: World, fs: seq<Finding>, i: nat) returns (j: nat)
    requires i < |fs| && Keyed(w, fs[i])
    ensures j <= i && First(w, fs, j) && FindingKey(w, fs[j]) == FindingKey(w, fs[i])
  {
    if First(w, fs, i) {
      j := i;
    } else {
      var h :| 0 <= h < i && Lookup(w, fs[h]) == Lookup(w, fs[i]);
      j := FirstOf(w, fs, h);
    }
  }

  lemma AllClean(w: World, today: int, excs: seq<Record>, index: map<Key, Entry>, fs: seq<Finding>)
    requires Mirrors(w, excs, index) && AllRead(w, fs, |fs|)
    ensures (forall i | 0 <= i < |fs| :: Clean(VerdictAt(w, today, index, fs, i))) <==>
      AllExcused(w, today, excs, fs) && forall i | 0 <= i < |fs| && First(w, fs, i) :: SeverityOk(w, excs, fs[i])
  {
    forall i | 0 <= i < |fs| {
      CleanMeans(w, today, excs, index, fs, i);
    }
    if forall i | 0 <= i < |fs| :: Clean(VerdictAt(w, today, index, fs, i)) {
      forall f | f in fs ensures SeverityReads(w, f) && (Relevant(w, f) ==> Keyed(w, f) && Excused(w, today, excs, f)) {
        var i :| 0 <= i < |fs| && fs[i] == f;
        if Relevant(w, f) {
          var j := FirstOf(w, fs, i);
          var e :| e in excs && Excuses(w, e, fs[j]) && Current(w, today, e);
          assert Excuses(w, e, f);
        }
      }
    }
  }

  lemma {:induction false} TallyEmpty(verdicts: seq<Verdict>, fs: seq<Finding>, n: nat)
    requires n <= |verdicts| == |fs|
    ensures Tallied(verdicts, fs, n) == Tally([], [], []) <==> forall i | 0 <= i < n :: Clean(verdicts[i])
  {
    if n > 0 {
      TallyEmpty(verdicts, fs, n - 1);
    }
  }

  lemma ScanPasses(w: World, today: int, excs: seq<Record>, index: map<Key, Entry>, fs: seq<Finding>)
    requires GoodList(w, excs) && Indexed(Readings(w, excs), |excs|, index) && AllRead(w, fs, |fs|)
    ensures Tallied(Verdicts(w, today, index, fs), fs, |fs|) == Tally([], [], []) <==> Passes(w, today, excs, fs)
  {
    IndexMirrors(w, excs, index);
    AllClean(w, today, excs, index, fs);
    TallyEmpty(Verdicts(w, today, index, fs), fs, |fs|);
  }

  // --- The gate ---

  /** The part of the script after the parsing; fails where a severity cannot be read. */
  method Validate(w: World, today: int, excs: seq<Record>, fs: seq<Finding>) returns (pass: bool)
    ensures pass <==> Passes(w, today, excs, fs)
  {
    var index, errors := BuildIndex(w, excs);
    SomesNone(Problems(w, excs));
    NoProblems(w, excs);
    var ok, tally := Scan(w, today, index, fs);
    if GoodList(w, excs) && ok {
      ScanPasses(w, today, excs, index, fs);
    }
    pass := ok && errors == [] && tally == Tally([], [], []);
  }

  /** The condition for exit code 0, over the text of the exception file and the decoded report. */
  ghost predicate GatePasses(w: World, today: int, text: string, data: Report) {
    var kinds := Kinds(ExceptionFile.Lines(text));
    WellFormed(kinds) && Readable(data) && Passes(w, today, RecordsOf(kinds), Findings(data))
  }

  /** The exit code; an exception that the script does not catch exits with 1 as well. */
  method Gate(w: World, today: int, text: string, data: Report) returns (code: nat)
    ensures code == 0 || code == 1
    ensures code == 0 <==> GatePasses(w, today, text, data)
  {
    var excs := ParseExceptions(ExceptionFile.Lines(text));
    var fs := IterVulns(data);
    if excs == None || fs == None {
      return 1;
    }
    var pass := Validate(w, today, excs.value, fs.value);
    code := if pass then 0 else 1;
  }

  /** A list that can be written down is judged by the records that were written, however their values are quoted. */
  lemma WrittenListJudged(w: World, today: int, recs: seq<ExceptionPrinter.Fields>, data: Report)
    requires ExceptionPrinter.Nonempty(recs)
    requires forall rec | rec in recs :: ExceptionPrinter.DistinctKeys(rec)
    requires forall rec | rec in recs ::
      ExceptionPrinter.KeysOk(rec) && ExceptionPrinter.ValuesOk(rec) && ExceptionFile.PlainFields(rec)
    ensures GatePasses(w, today, ExceptionFile.PrintFile(recs), data) <==>
      Readable(data) && Passes(w, today, ExceptionPrinter.Records(recs), Findings(data))
  {
    ExceptionFile.RoundTripExactly(recs);
    assert ExceptionFile.FileRoundTrips(recs);
  }

  // --- Vulnerabilities that the gate does not see, and reports that it cannot read ---

  /** Whatever its severity, a vulnerability without identifiers changes nothing, unless its titles cannot be joined. */
  lemma SilentIsIgnored(w: World, today: int, text: string, advisories: seq<Advisory>,
      vs: seq<Vulnerability>, v: Vulnerability, vs': seq<Vulnerability>)
    requires Silent(v)
    ensures GatePasses(w, today, text, Report(advisories, vs + [v] + vs')) <==>
      Joins(v) && GatePasses(w, today, text, Report(advisories, vs + vs'))
  {
    SilentVulnerability(vs, v, vs');
    var all, rest := vs + [v] + vs', vs + vs';
    assert forall u :: u in all <==> u == v || u in rest;
  }

  /** For instance a critical vulnerability passes the gate without any exception when its `via` is an empty list. */
  lemma CriticalUnseen(w: World, today: int, name: string)
    ensures GatePasses(w, today, "", Report([], [Vulnerability(name, Str("critical"), Many([]))]))
  {
    var v := Vulnerability(name, Str("critical"), Many([]));
    assert [] + [v] + [] == [v];
    SilentIsIgnored(w, today, "", [], [], v, []);
  }

  /** A number is accepted as the identifier of a vulnerability, but without another title the report is not readable. */
  lemma NumericSource(w: World, today: int, text: string, name: string, severity: Scalar, n: int)
    requires n != 0
    ensures var via := Details(map["source" := Num(n)]);
      && ViaId(via) == Num(n)
      && !GatePasses(w, today, text, Report([], [Vulnerability(name, severity, Many([via]))]))
  {
    var via := Details(map["source" := Num(n)]);
    var v := Vulnerability(name, severity, Many([via]));
    assert via in ViaItems(v.via) && ViaTitle(via) == Num(n);
    assert v in [v] && !Joins(v);
  }

  // --- The condition in terms of the fields ---

  /** All five required fields are given, the date is one, and package and advisory are not blank. */
  ghost predicate GoodException(w: World, e: Record) {
    && (forall field | field in {"package", "advisory", "severity", "mitigation", "expires_on"} :: field in e && e[field] != "")
    && w.parseDate(e["expires_on"]).Some?
    && Strip(e["package"]) != "" && w.lower(Strip(e["advisory"])) != ""
  }

  /** The lower-cased severity of a finding; none counts as blank. */
  function SeverityText(w: World, f: Finding): string {
    w.lower(if f.severity.Str? then Strip(f.severity.s) else "")
  }

  function AdvisoryText(w: World, f: Finding): string {
    if f.advisory == Null then "" else w.lower(Strip(ToText(f.advisory)))
  }

  /** A finding that needs an exception: named, high or critical. */
  ghost predicate Serious(w: World, f: Finding) {
    SeverityText(w, f) in {"high", "critical"} && f.name !in {Null, Str(""), Num(0)}
  }

  /** Packages are compared as they are, advisories in lower case. */
  ghost predicate Fitting(w: World, e: Record, f: Finding)
    requires "package" in e && "advisory" in e
  {
    Strip(e["package"]) == Strip(ToText(f.name)) && w.lower(Strip(e["advisory"])) == AdvisoryText(w, f)
  }

  lemma GoodIsValid(w: World, e: Record)
    ensures GoodException(w, e) <==> Valid(w, e)
  {
    if GoodException(w, e) {
      assert Has(e, "package") && Has(e, "advisory") && Has(e, "severity") && Has(e, "mitigation") && Has(e, "expires_on");
    }
  }

  lemma SeriousIsRelevant(w: World, f: Finding)
    requires SeverityReads(w, f)
    ensures Serious(w, f) <==> Relevant(w, f)
    ensures Severity(w, f) == SeverityText(w, f)
  {
    StripKeeps("");
    assert Strip("") == "";
  }

  lemma ReadsUnlessNumber(w: World, f: Finding)
    ensures SeverityReads(w, f) <==> !(f.severity.Num? && f.severity.n != 0)
  {
  }

  lemma FittingIsExcusing(w: World, e: Record, f: Finding)
    requires Valid(w, e)
    ensures Excuses(w, e, f) <==> Fitting(w, e, f)
  {
  }

  /** An exception that fits, is not expired on the day, and has no other severity. */
  ghost predicate Saves(w: World, today: int, e: Record, f: Finding) {
    GoodException(w, e) && Fitting(w, e, f) && today <= w.parseDate(e["expires_on"]).value
  }

  ghost predicate NoConflict(w: World, e: Record, f: Finding) {
    GoodException(w, e) && Fitting(w, e, f) ==> w.lower(Strip(e["severity"])) in {"", SeverityText(w, f)}
  }

  /** What every finding needs, and what the first of its key needs besides. */
  ghost predicate FindingOk(w: World, today: int, excs: seq<Record>, f: Finding) {
    && !(f.severity.Num? && f.severity.n != 0)
    && (Serious(w, f) ==> AdvisoryText(w, f) != "" && exists e | e in excs :: Saves(w, today, e, f))
  }

  lemma FindingMeans(w: World, today: int, excs: seq<Record>, f: Finding)
    ensures FindingOk(w, today, excs, f) <==>
      SeverityReads(w, f) && (Relevant(w, f) ==> Keyed(w, f) && Excused(w, today, excs, f))
  {
    ReadsUnlessNumber(w, f);
    if SeverityReads(w, f) {
      SeriousIsRelevant(w, f);
    }
    forall e | e in excs ensures Saves(w, today, e, f) <==> Excuses(w, e, f) && Current(w, today, e) {
      GoodIsValid(w, e);
      if Valid(w, e) {
        FittingIsExcusing(w, e, f);
      }
    }
  }

  lemma ConflictMeans(w: World, excs: seq<Record>, f: Finding)
    requires SeverityReads(w, f)
    ensures SeverityOk(w, excs, f) <==> forall e | e in excs :: NoConflict(w, e, f)
  {
    SeriousIsRelevant(w, f);
    forall e | e in excs ensures NoConflict(w, e, f) <==> (Excuses(w, e, f) ==> Agrees(w, e, f)) {
      GoodIsValid(w, e);
      if Valid(w, e) {
        FittingIsExcusing(w, e, f);
      }
    }
  }

  /** A finding that needs an exception, for the same package and advisory. */
  ghost predicate SameKind(w: World, g: Finding, f: Finding) {
    Serious(w, g) && Strip(ToText(g.name)) == Strip(ToText(f.name)) && AdvisoryText(w, g) == AdvisoryText(w, f)
  }

  /** No earlier one is of the same kind. */
  ghost predicate FirstOfItsKind(w: World, fs: seq<Finding>, i: nat)
    requires i < |fs|
  {
    Serious(w, fs[i]) && AdvisoryText(w, fs[i]) != "" && forall g | g in fs[..i] :: !SameKind(w, g, fs[i])
  }

  lemma SameLookup(w: World, g: Finding, f: Finding)
    requires SeverityReads(w, g) && SeverityReads(w, f) && Keyed(w, f)
    ensures Lookup(w, g) == Lookup(w, f) <==> SameKind(w, g, f)
  {
    SeriousIsRelevant(w, g);
  }

  lemma FirstMeans(w: World, fs: seq<Finding>, i: nat)
    requires i < |fs| && forall f | f in fs :: SeverityReads(w, f)
    ensures First(w, fs, i) <==> FirstOfItsKind(w, fs, i)
  {
    assert fs[i] in fs;
    SeriousIsRelevant(w, fs[i]);
    if Keyed(w, fs[i]) {
      forall j | 0 <= j < i ensures Lookup(w, fs[j]) == Lookup(w, fs[i]) <==> SameKind(w, fs[j], fs[i]) {
        assert fs[j] in fs;
        SameLookup(w, fs[j], fs[i]);
      }
      assert forall j | 0 <= j < i :: fs[..i][j] == fs[j];
    }
  }

  /** Different exceptions excuse different packages or advisories. */
  ghost predicate AllDifferent(w: World, excs: seq<Record>) {
    forall i, j | 0 <= i < j < |excs| && GoodException(w, excs[i]) && GoodException(w, excs[j]) ::
      Strip(excs[i]["package"]) != Strip(excs[j]["package"]) ||
      w.lower(Strip(excs[i]["advisory"])) != w.lower(Strip(excs[j]["advisory"]))
  }

  lemma ListMeans(w: World, excs: seq<Record>)
    ensures GoodList(w, excs) <==> (forall e | e in excs :: GoodException(w, e)) && AllDifferent(w, excs)
  {
    forall e | e in excs ensures GoodException(w, e) <==> Valid(w, e) {
      GoodIsValid(w, e);
    }
    forall i | 0 <= i < |excs| ensures GoodException(w, excs[i]) <==> Valid(w, excs[i]) {
      GoodIsValid(w, excs[i]);
    }
  }

  /** No exception contradicts the severity of the first finding that it fits. */
  ghost predicate FirstsAgree(w: World, excs: seq<Record>, fs: seq<Finding>) {
    forall i, e | 0 <= i < |fs| && FirstOfItsKind(w, fs, i) && e in excs :: NoConflict(w, e, fs[i])
  }

  /** The whole condition, field by field: what the gate asks of the exceptions, of every finding, and of the severity that
      the exception of the first finding of each kind has. */
  lemma PassesMeans(w: World, today: int, excs: seq<Record>, fs: seq<Finding>)
    ensures Passes(w, today, excs, fs) <==>
      && (forall e | e in excs :: GoodException(w, e)) && AllDifferent(w, excs)
      && (forall f | f in fs :: FindingOk(w, today, excs, f))
      && FirstsAgree(w, excs, fs)
  {
    ListMeans(w, excs);
    forall f | f in fs {
      FindingMeans(w, today, excs, f);
    }
    if forall f | f in fs :: FindingOk(w, today, excs, f) {
      forall i | 0 <= i < |fs|
        ensures First(w, fs, i) <==> FirstOfItsKind(w, fs, i)
        ensures SeverityOk(w, excs, fs[i]) <==> forall e | e in excs :: NoConflict(w, e, fs[i])
      {
        assert fs[i] in fs;
        FirstMeans(w, fs, i);
        ConflictMeans(w, excs, fs[i]);
      }
    }
  }

  /** The last day of an exception still counts, the next does not. */
  lemma LastDay(w: World, e: Record, f: Finding, d: int)
    requires GoodException(w, e) && w.parseDate(e["expires_on"]) == Some(d)
    requires Fitting(w, e, f) && Serious(w, f) && SeverityReads(w, f) && NoConflict(w, e, f)
    ensures Passes(w, d, [e], [f]) && !Passes(w, d + 1, [e], [f])
  {
    PassesMeans(w, d, [e], [f]);
    PassesMeans(w, d + 1, [e], [f]);
    assert e in [e] && f in [f];
    assert Saves(w, d, e, f) && !Saves(w, d + 1, e, f);
    ReadsUnlessNumber(w, f);
  }

  lemma Prefixes<T>(xs: seq<T>, x: T, ys: seq<T>, i: nat, at: nat)
    requires i < |xs + ys| && at == if i < |xs| then i else i + 1
    ensures (xs + [x] + ys)[at] == (xs + ys)[i]
    ensures forall y :: y in (xs + [x] + ys)[..at] <==> y in (xs + ys)[..i] || (i >= |xs| && y == x)
  {
    if i < |xs| {
      assert (xs + [x] + ys)[..at] == (xs + ys)[..i];
    } else {
      assert (xs + [x] + ys)[..at] == xs + [x] + ys[..i - |xs|];
      assert (xs + ys)[..i] == xs + ys[..i - |xs|];
    }
  }

  lemma OtherFirsts(w: World, fs: seq<Finding>, f: Finding, fs': seq<Finding>, i: nat, at: nat)
    requires i < |fs + fs'| && !Serious(w, f) && at == if i < |fs| then i else i + 1
    ensures (fs + [f] + fs')[at] == (fs + fs')[i]
    ensures FirstOfItsKind(w, fs + fs', i) <==> FirstOfItsKind(w, fs + [f] + fs', at)
  {
    Prefixes(fs, f, fs', i, at);
  }

  lemma AgreesAt(w: World, excs: seq<Record>, fs: seq<Finding>, i: nat, e: Record, f: Finding)
    requires i < |fs| && fs[i] == f && FirstsAgree(w, excs, fs) && FirstOfItsKind(w, fs, i) && e in excs
    ensures NoConflict(w, e, f)
  {
  }

  lemma FirstsWith(w: World, excs: seq<Record>, fs: seq<Finding>, f: Finding, fs': seq<Finding>, i: nat, e: Record)
    requires !Serious(w, f) && FirstsAgree(w, excs, fs + fs') && e in excs
    requires i < |fs + [f] + fs'| && FirstOfItsKind(w, fs + [f] + fs', i)
    ensures NoConflict(w, e, (fs + [f] + fs')[i])
  {
    assert i != |fs|;
    var j := if i < |fs| then i else i - 1;
    OtherFirsts(w, fs, f, fs', j, i);
    AgreesAt(w, excs, fs + fs', j, e, (fs + fs')[j]);
  }

  lemma FirstsIgnore(w: World, excs: seq<Record>, fs: seq<Finding>, f: Finding, fs': seq<Finding>)
    requires !Serious(w, f)
    ensures FirstsAgree(w, excs, fs + [f] + fs') <==> FirstsAgree(w, excs, fs + fs')
  {
    var rest, all := fs + fs', fs + [f] + fs';
    if FirstsAgree(w, excs, rest) {
      forall i, e | 0 <= i < |all| && FirstOfItsKind(w, all, i) && e in excs {
        FirstsWith(w, excs, fs, f, fs', i, e);
      }
    }
    if FirstsAgree(w, excs, all) {
      forall i, e | 0 <= i < |rest| && FirstOfItsKind(w, rest, i) && e in excs ensures NoConflict(w, e, rest[i]) {
        var at := if i < |fs| then i else i + 1;
        OtherFirsts(w, fs, f, fs', i, at);
        AgreesAt(w, excs, all, at, e, rest[i]);
      }
    }
  }

  /** A finding that is not named, or neither high nor critical, changes nothing. */
  lemma OthersAreIgnored(w: World, today: int, excs: seq<Record>, fs: seq<Finding>, f: Finding, fs': seq<Finding>)
    requires SeverityReads(w, f)
    requires SeverityText(w, f) !in {"high", "critical"} || f.name in {Null, Str(""), Num(0)}
    ensures Passes(w, today, excs, fs + [f] + fs') <==> Passes(w, today, excs, fs + fs')
  {
    var rest, all := fs + fs', fs + [f] + fs';
    PassesMeans(w, today, excs, all);
    PassesMeans(w, today, excs, rest);
    ReadsUnlessNumber(w, f);
    FirstsIgnore(w, excs, fs, f, fs');
    assert FindingOk(w, today, excs, f);
    assert forall g :: g in all <==> g == f || g in rest;
  }

  /** Fields other than the five required ones do not matter. */
  lemma OtherFieldsIgnored(w: World, e: Record, field: string, value: string, today: int, f: Finding)
    requires field !in {"package", "advisory", "severity", "mitigation", "expires_on"}
    ensures var e' := e[field := value];
      && (GoodException(w, e) <==> GoodException(w, e'))
      && (Saves(w, today, e, f) <==> Saves(w, today, e', f)) && (NoConflict(w, e, f) <==> NoConflict(w, e', f))
  {
    var e' := e[field := value];
    forall k | k in {"package", "advisory", "severity", "mitigation", "expires_on"}
      ensures k in e <==> k in e'
      ensures k in e ==> e[k] == e'[k]
    {
    }
    var a, b := "package", "advisory";
    GoodIsValid(w, e);
    GoodIsValid(w, e');
  }

  /** An advisory is known by its GHSA identifier, whatever else it carries: an exception for that one excuses it. */
  lemma ExcusedByGhsa(w: World, today: int, e: Record, a: Advisory, p: string, s: string, g: string)
    requires GoodException(w, e) && today <= w.parseDate(e["expires_on"]).value
    requires p != "" && g != "" && Get(a.fields, "module_name") == Str(p) && Get(a.fields, "severity") == Str(s)
    requires Get(a.fields, "github_advisory_id") == Str(g)
    requires Strip(e["package"]) == Strip(p) && w.lower(Strip(e["advisory"])) == w.lower(Strip(g))
    requires w.lower(Strip(e["severity"])) in {"", w.lower(Strip(s))}
    ensures Passes(w, today, [e], Findings(Report([a], [])))
  {
    AdvisoryIdOrder(a, 0);
    AdvisoryNameOrder(a, 0);
    var f := AdvisoryFinding(a);
    assert f == Finding(Str(p), Str(s), Str(g));
    assert Findings(Report([a], [])) == [f];
    PassesMeans(w, today, [e], [f]);
    assert e in [e] && Saves(w, today, e, f);
  }

  // --- What is reported ---

  predicate AllGiven(e: Record) {
    forall field | field in {"package", "advisory", "severity", "mitigation", "expires_on"} :: field in e && e[field] != ""
  }

  lemma GivenIsComplete(e: Record)
    ensures AllGiven(e) <==> Complete(e)
  {
    if AllGiven(e) {
      assert Has(e, "package") && Has(e, "advisory") && Has(e, "severity") && Has(e, "mitigation") && Has(e, "expires_on");
    }
  }

  ghost predicate SamePlace(w: World, a: Record, b: Record)
    requires AllGiven(a) && AllGiven(b)
  {
    Strip(a["package"]) == Strip(b["package"]) && w.lower(Strip(a["advisory"])) == w.lower(Strip(b["advisory"]))
  }

  /** Which error an exception causes: a missing field before a bad date, a bad date before a blank package or advisory, and
      only an exception with none of these is compared with the earlier ones. */
  lemma ProblemMeans(w: World, excs: seq<Record>, i: nat)
    requires i < |excs|
    ensures var e := excs[i]; var problem := ProblemAt(w, excs, i);
      && (problem == Some(Incomplete(e)) <==> !AllGiven(e))
      && (problem == Some(BadDate(e)) <==> AllGiven(e) && w.parseDate(e["expires_on"]) == None)
      && (problem == Some(Blank(e)) <==> AllGiven(e) && w.parseDate(e["expires_on"]).Some? && !GoodException(w, e))
      && (problem == Some(Duplicate(e)) <==>
            GoodException(w, e) && exists j :: 0 <= j < i && GoodException(w, excs[j]) && SamePlace(w, excs[j], e))
  {
    GivenIsComplete(excs[i]);
    GoodIsValid(w, excs[i]);
    NoProblemAt(w, excs, i);
    forall j | 0 <= j < i ensures GoodException(w, excs[j]) <==> Valid(w, excs[j]) {
      GoodIsValid(w, excs[j]);
    }
  }

  ghost predicate Fits(w: World, e: Record, f: Finding) {
    GoodException(w, e) && Fitting(w, e, f)
  }

  /** The exception that counts for a finding: the first good one that fits. */
  ghost predicate FirstFit(w: World, excs: seq<Record>, f: Finding, k: int) {
    0 <= k < |excs| && Fits(w, excs[k], f) && forall j | 0 <= j < k :: !Fits(w, excs[j], f)
  }

  lemma FitIsReading(w: World, e: Record, f: Finding)
    ensures Fits(w, e, f) <==> Read(w, e).Some? && Read(w, e).value.0 == FindingKey(w, f)
  {
    GoodIsValid(w, e);
    if Valid(w, e) {
      FittingIsExcusing(w, e, f);
    }
  }

  lemma {:induction false} EarliestFit(w: World, excs: seq<Record>, f: Finding, j: nat) returns (k: nat)
    requires j < |excs| && Fits(w, excs[j], f)
    ensures FirstFit(w, excs, f, k)
  {
    if FirstFit(w, excs, f, j) {
      k := j;
    } else {
      var h :| 0 <= h < j && Fits(w, excs[h], f);
      k := EarliestFit(w, excs, f, h);
    }
  }

  lemma IndexFinds(w: World, excs: seq<Record>, index: map<Key, Entry>, f: Finding)
    requires Indexed(Readings(w, excs), |excs|, index)
    ensures FindingKey(w, f) in index <==> exists k :: FirstFit(w, excs, f, k)
    ensures forall k | FirstFit(w, excs, f, k) :: Valid(w, excs[k]) && index[FindingKey(w, f)] == EntryOf(w, excs[k])
  {
    var readings, key := Readings(w, excs), FindingKey(w, f);
    forall j | 0 <= j < |excs| ensures Fits(w, excs[j], f) <==> readings[j].Some? && readings[j].value.0 == key {
      FitIsReading(w, excs[j], f);
    }
    forall k | FirstFit(w, excs, f, k) ensures Valid(w, excs[k]) && key in index && index[key] == EntryOf(w, excs[k]) {
      GoodIsValid(w, excs[k]);
      assert readings[k] == Some((key, EntryOf(w, excs[k])));
      assert !Taken(readings, k, readings[k].value.0);
    }
    if key in index {
      var j :| 0 <= j < |readings| && readings[j].Some? && readings[j].value.0 == key;
      var k := EarliestFit(w, excs, f, j);
    }
  }

  ghost predicate ExpiryAndSeverity(w: World, today: int, e: Record, f: Finding, v: Verdict)
  {
    && GoodException(w, e) && v.Matched?
    && (v.expired <==> w.parseDate(e["expires_on"]).value < today)
    && (v.mismatch <==> w.lower(Strip(e["severity"])) !in {"", SeverityText(w, f)})
  }

  /** Which findings are reported or looked up at all: a serious one without identifier, or the first of its kind. */
  lemma HandledIsFirst(w: World, today: int, index: map<Key, Entry>, fs: seq<Finding>, i: nat)
    requires i < |fs| && forall f | f in fs :: SeverityReads(w, f)
    ensures VerdictAt(w, today, index, fs, i).Anonymous? <==> Serious(w, fs[i]) && AdvisoryText(w, fs[i]) == ""
    ensures Handled(VerdictAt(w, today, index, fs, i)) <==> FirstOfItsKind(w, fs, i)
  {
    assert fs[i] in fs;
    SeriousIsRelevant(w, fs[i]);
    FirstMeans(w, fs, i);
    if Keyed(w, fs[i]) {
      FirstUnseen(w, fs, i);
    }
  }

  ghost predicate SomeFits(w: World, excs: seq<Record>, f: Finding) {
    exists e | e in excs :: Fits(w, e, f)
  }

  lemma SomeFitsFirst(w: World, excs: seq<Record>, f: Finding)
    ensures SomeFits(w, excs, f) <==> exists k :: FirstFit(w, excs, f, k)
  {
    if e :| e in excs && Fits(w, e, f) {
      var j :| 0 <= j < |excs| && excs[j] == e;
      var k := EarliestFit(w, excs, f, j);
    }
  }

  lemma HandledVerdict(w: World, today: int, index: map<Key, Entry>, fs: seq<Finding>, i: nat, f: Finding, key: Key)
    requires i < |fs| && fs[i] == f && FindingKey(w, f) == key && Handled(VerdictAt(w, today, index, fs, i))
    ensures VerdictAt(w, today, index, fs, i) == if key !in index then Missing else
      Matched(index[key].severity !in {"", Severity(w, f)}, index[key].expires < today)
  {
  }

  lemma EntryMeans(w: World, today: int, e: Record, f: Finding, v: Verdict)
    requires Valid(w, e) && SeverityReads(w, f)
    requires v == Matched(EntryOf(w, e).severity !in {"", Severity(w, f)}, EntryOf(w, e).expires < today)
    ensures ExpiryAndSeverity(w, today, e, f, v)
  {
    SeriousIsRelevant(w, f);
    GoodIsValid(w, e);
  }

  /** For what the first of its kind is reported: for having no exception, for one with another severity, for an expired one. */
  lemma VerdictMeans(w: World, today: int, excs: seq<Record>, index: map<Key, Entry>, fs: seq<Finding>, i: nat)
    requires i < |fs| && Indexed(Readings(w, excs), |excs|, index) && SeverityReads(w, fs[i])
    requires Handled(VerdictAt(w, today, index, fs, i))
    ensures VerdictAt(w, today, index, fs, i) == Missing <==> !SomeFits(w, excs, fs[i])
    ensures forall k | FirstFit(w, excs, fs[i], k) :: ExpiryAndSeverity(w, today, excs[k], fs[i], VerdictAt(w, today, index, fs, i))
  {
    var f, v := fs[i], VerdictAt(w, today, index, fs, i);
    HandledVerdict(w, today, index, fs, i, f, FindingKey(w, f));
    IndexFinds(w, excs, index, f);
    SomeFitsFirst(w, excs, f);
    forall k | FirstFit(w, excs, f, k) ensures ExpiryAndSeverity(w, today, excs[k], f, v) {
      EntryMeans(w, today, excs[k], f, v);
    }
  }

  // --- What the outcome does not depend on ---

  /** A list that passes today passed on every earlier day. */
  lemma {:induction false} EarlierDayPasses(w: World, day: int, today: int, excs: seq<Record>, fs: seq<Finding>)
    requires day <= today && Passes(w, today, excs, fs)
    ensures Passes(w, day, excs, fs)
  {
    forall f | f in fs && Relevant(w, f) ensures Excused(w, day, excs, f) {
      var e :| e in excs && Excuses(w, e, f) && Current(w, today, e);
      assert Current(w, day, e);
    }
  }

  function KeyOr(w: World, e: Record): Key {
    if Valid(w, e) then KeyOf(w, e) else ("", "")
  }

  lemma PermutedExceptions(w: World, today: int, excs: seq<Record>, excs': seq<Record>, fs: seq<Finding>)
    requires multiset(excs) == multiset(excs')
    ensures Passes(w, today, excs, fs) <==> Passes(w, today, excs', fs)
  {
    if Passes(w, today, excs, fs) {
      PermutedPasses(w, today, excs, excs', fs);
    }
    if Passes(w, today, excs', fs) {
      PermutedPasses(w, today, excs', excs, fs);
    }
  }

  lemma PermutedPasses(w: World, today: int, excs: seq<Record>, excs': seq<Record>, fs: seq<Finding>)
    requires multiset(excs) == multiset(excs') && Passes(w, today, excs, fs)
    ensures Passes(w, today, excs', fs)
  {
    forall e ensures e in excs <==> e in excs' {
      SameElements(excs, excs', e);
    }
    PermutedDistinct(excs, excs', (e: Record) => KeyOr(w, e));
    forall f | f in fs && Relevant(w, f) ensures Excused(w, today, excs', f) {
      assert Excused(w, today, excs, f);
    }
    forall i | 0 <= i < |fs| && First(w, fs, i) ensures SeverityOk(w, excs', fs[i]) {
      assert SeverityOk(w, excs, fs[i]);
    }
  }

  /** The severity check of every finding, first of its key or not. */
  ghost predicate AllSeveritiesOk(w: World, excs: seq<Record>, fs: seq<Finding>) {
    forall f | f in fs && Keyed(w, f) :: SeverityOk(w, excs, f)
  }

  ghost predicate SameSeverityPerKey(w: World, fs: seq<Finding>) {
    forall f, f' | f in fs && f' in fs && Keyed(w, f) && Keyed(w, f') && FindingKey(w, f) == FindingKey(w, f') ::
      Severity(w, f) == Severity(w, f')
  }

  lemma FirstsSpeakForAll(w: World, excs: seq<Record>, fs: seq<Finding>)
    requires SameSeverityPerKey(w, fs)
    ensures AllSeveritiesOk(w, excs, fs) <==> forall i | 0 <= i < |fs| && First(w, fs, i) :: SeverityOk(w, excs, fs[i])
  {
    if forall i | 0 <= i < |fs| && First(w, fs, i) :: SeverityOk(w, excs, fs[i]) {
      forall f | f in fs && Keyed(w, f) ensures SeverityOk(w, excs, f) {
        var i :| 0 <= i < |fs| && fs[i] == f;
        var j := FirstOf(w, fs, i);
        assert Severity(w, fs[j]) == Severity(w, f) && fs[j] in fs;
        assert forall e | e in excs && Excuses(w, e, f) :: Excuses(w, e, fs[j]) && Agrees(w, e, fs[j]);
      }
    }
  }

  /** Order and repetition of the findings do not matter when findings with one key agree on the severity. */
  lemma {:induction false} SameFindings(w: World, today: int, excs: seq<Record>, fs: seq<Finding>, fs': seq<Finding>)
    requires (forall f :: f in fs <==> f in fs') && SameSeverityPerKey(w, fs)
    ensures Passes(w, today, excs, fs) <==> Passes(w, today, excs, fs')
  {
    FirstsSpeakForAll(w, excs, fs);
    FirstsSpeakForAll(w, excs, fs');
  }

  lemma ToFront(fs: seq<Finding>, f: Finding) returns (fs': seq<Finding>)
    requires f in fs
    ensures multiset(fs') == multiset(fs) && fs' != [] && fs'[0] == f
  {
    var i :| 0 <= i < |fs| && fs[i] == f;
    fs' := [f] + fs[..i] + fs[i + 1..];
    assert fs == fs[..i] + [f] + fs[i + 1..];
  }

  /** Without that agreement the gate passes in every order exactly when it passes in one and no finding, first or
      not, has a severity that its exception contradicts. */
  lemma PassesInEveryOrder(w: World, today: int, excs: seq<Record>, fs: seq<Finding>)
    ensures (forall fs' | multiset(fs') == multiset(fs) :: Passes(w, today, excs, fs')) <==>
      Passes(w, today, excs, fs) && AllSeveritiesOk(w, excs, fs)
  {
    if forall fs' | multiset(fs') == multiset(fs) :: Passes(w, today, excs, fs') {
      forall f | f in fs && Keyed(w, f) ensures SeverityOk(w, excs, f) {
        var fs' := ToFront(fs, f);
        assert Passes(w, today, excs, fs');
        assert First(w, fs', 0);
      }
    }
    if Passes(w, today, excs, fs) && AllSeveritiesOk(w, excs, fs) {
      forall fs' | multiset(fs') == multiset(fs) ensures Passes(w, today, excs, fs') {
        forall f ensures f in fs <==> f in fs' {
          SameElements(fs, fs', f);
        }
        assert AllExcused(w, today, excs, fs');
      }
    }
  }

  /** The first of two findings with one key decides. */
  lemma FirstDecides(w: World, today: int, e: Record, a: Finding, b: Finding)
    requires Excuses(w, e, a) && Excuses(w, e, b) && Current(w, today, e)
    requires Relevant(w, a) && Relevant(w, b) && SeverityReads(w, a) && SeverityReads(w, b)
    ensures Passes(w, today, [e], [a, b]) <==> Agrees(w, e, a)
  {
    assert e in [e];
    assert Excused(w, today, [e], a) && Excused(w, today, [e], b);
    assert AllExcused(w, today, [e], [a, b]) && GoodList(w, [e]);
    var fs := [a, b];
    assert First(w, fs, 0) && Lookup(w, fs[1]) == Lookup(w, fs[0]);
    assert !First(w, fs, 1);
  }

  function Plain(severity: string): Finding {
    Finding(Str("p"), Str(severity), Str("a"))
  }

  lemma PlainFinding(w: World, e: Record, severity: string)
    requires severity in {"high", "critical"} && Complete(e) && e["package"] == "p" && e["advisory"] == "a" && e["severity"] == "high"
    requires w.parseDate(e["expires_on"]) == Some(0) && forall s :: w.lower(s) == s
    ensures var f := Plain(severity);
      Relevant(w, f) && SeverityReads(w, f) && Excuses(w, e, f) && Current(w, 0, e) && (Agrees(w, e, f) <==> severity == "high")
  {
    StripKeeps("p");
    StripKeeps("a");
    StripKeeps("high");
    StripKeeps(severity);
  }

  ghost predicate OrderDecides(w: World, today: int, e: Record, a: Finding, b: Finding) {
    Passes(w, today, [e], [a, b]) && !Passes(w, today, [e], [b, a])
  }

  lemma HighThenCritical(w: World, e: Record, a: Finding, b: Finding)
    requires a == Plain("high") && b == Plain("critical")
    requires Complete(e) && e["package"] == "p" && e["advisory"] == "a" && e["severity"] == "high"
    requires w.parseDate(e["expires_on"]) == Some(0) && forall s :: w.lower(s) == s
    ensures OrderDecides(w, 0, e, a, b)
  {
    var high, critical := "high", "critical";
    assert high != critical;
    PlainFinding(w, e, high);
    PlainFinding(w, e, critical);
    FirstDecides(w, 0, e, a, b);
    FirstDecides(w, 0, e, b, a);
  }

  lemma HighExcused() returns (w: World, e: Record)
    ensures Complete(e) && e["package"] == "p" && e["advisory"] == "a" && e["severity"] == "high"
    ensures w.parseDate(e["expires_on"]) == Some(0) && forall s :: w.lower(s) == s
  {
    w := World((s: string) => s, (s: string) => Some(0));
    e := map["package" := "p", "advisory" := "a", "severity" := "high", "mitigation" := "m", "expires_on" := "d"];
  }

  /** So the order matters: a high and a critical finding with one key, excused as high. */
  lemma OrderMatters()
    ensures exists w, e, a, b :: OrderDecides(w, 0, e, a, b)
  {
    var w, e := HighExcused();
    HighThenCritical(w, e, Plain("high"), Plain("critical"));
  }

  // --- Every key is handled once ---

  function KeysOf(w: World, fs: seq<Finding>): (r: seq<Key>)
    ensures |r| == |fs| && forall i | 0 <= i < |fs| :: r[i] == FindingKey(w, fs[i])
  {
    seq(|fs|, i requires 0 <= i < |fs| => FindingKey(w, fs[i]))
  }

  /** What a finding counts as follows from whether its key was looked up before. */
  ghost predicate OnFirstLookup(w: World, verdicts: seq<Verdict>, fs: seq<Finding>, lookups: seq<Option<Key>>)
    requires |verdicts| == |fs| == |lookups|
  {
    forall i | 0 <= i < |fs| ::
      && (Handled(verdicts[i]) <==> lookups[i].Some? && lookups[i] !in lookups[..i])
      && (lookups[i].Some? ==> lookups[i].value == FindingKey(w, fs[i]))
  }

  lemma VerdictsOnFirstLookup(w: World, today: int, index: map<Key, Entry>, fs: seq<Finding>)
    ensures OnFirstLookup(w, Verdicts(w, today, index, fs), fs, Lookups(w, fs))
  {
    forall i | 0 <= i < |fs| {
      HandledMeans(w, today, index, fs, i);
    }
  }

  /** Every key that was looked up is there once. */
  ghost predicate OncePerLookup(keys: seq<Key>, lookups: seq<Option<Key>>) {
    Distinct(keys) && forall k :: k in keys <==> Some(k) in lookups
  }

  /** The findings that reach the index have pairwise different keys, and every key of a finding is among them. */
  lemma {:induction false} EachKeyOnce(w: World, verdicts: seq<Verdict>, fs: seq<Finding>, lookups: seq<Option<Key>>, n: nat)
    requires n <= |verdicts| == |fs| == |lookups| && OnFirstLookup(w, verdicts, fs, lookups)
    ensures OncePerLookup(KeysOf(w, Having(verdicts, fs, n, Handled)), lookups[..n])
  {
    if n > 0 {
      EachKeyOnce(w, verdicts, fs, lookups, n - 1);
      KeyStep(w, verdicts, fs, n - 1, lookups);
    }
  }

  lemma HandledMeans(w: World, today: int, index: map<Key, Entry>, fs: seq<Finding>, i: nat)
    requires i < |fs|
    ensures var lookups := Lookups(w, fs);
      Handled(VerdictAt(w, today, index, fs, i)) <==> lookups[i].Some? && lookups[i] !in lookups[..i]
  {
  }

  lemma KeyStep(w: World, verdicts: seq<Verdict>, fs: seq<Finding>, i: nat, lookups: seq<Option<Key>>)
    requires i < |verdicts| == |fs| == |lookups|
    requires Handled(verdicts[i]) <==> lookups[i].Some? && lookups[i] !in lookups[..i]
    requires lookups[i].Some? ==> lookups[i].value == FindingKey(w, fs[i])
    requires OncePerLookup(KeysOf(w, Having(verdicts, fs, i, Handled)), lookups[..i])
    ensures OncePerLookup(KeysOf(w, Having(verdicts, fs, i + 1, Handled)), lookups[..i + 1])
  {
    var before := Having(verdicts, fs, i, Handled);
    assert lookups[..i + 1] == lookups[..i] + [lookups[i]];
    if Handled(verdicts[i]) {
      var key := FindingKey(w, fs[i]);
      assert KeysOf(w, before + [fs[i]]) == KeysOf(w, before) + [key];
      DistinctAppend(KeysOf(w, before), key);
    }
  }

  /** Missing, expired and covered are disjoint and together account for every handled key. */
  lemma {:induction false} Classified(verdicts: seq<Verdict>, fs: seq<Finding>, n: nat)
    requires n <= |verdicts| == |fs|
    ensures |Having(verdicts, fs, n, Absent)| + |Having(verdicts, fs, n, Lapsed)| + |Having(verdicts, fs, n, Covered)|
      == |Having(verdicts, fs, n, Handled)|
  {
    if n > 0 {
      Classified(verdicts, fs, n - 1);
    }
  }

  ghost function KeySet(w: World, fs: seq<Finding>): set<Key> {
    set f | f in fs && Keyed(w, f) :: FindingKey(w, f)
  }

  lemma {:induction false} DistinctCount(keys: seq<Key>, all: set<Key>)
    requires Distinct(keys) && forall k :: k in keys <==> k in all
    ensures |keys| == |all|
    decreases |keys|
  {
    if keys == [] {
      assert all == {};
    } else {
      var n := |keys| - 1;
      assert keys == keys[..n] + [keys[n]];
      DistinctCount(keys[..n], all - {keys[n]});
    }
  }

  /** However often a key repeats, it is counted once, as missing, expired or covered. */
  lemma CountsConserve(w: World, today: int, index: map<Key, Entry>, fs: seq<Finding>)
    ensures var t := Tallied(Verdicts(w, today, index, fs), fs, |fs|);
      |t.missing| + |t.expired| + |Having(Verdicts(w, today, index, fs), fs, |fs|, Covered)| == |KeySet(w, fs)|
  {
    var verdicts, lookups := Verdicts(w, today, index, fs), Lookups(w, fs);
    TallyLists(verdicts, fs, |fs|);
    Classified(verdicts, fs, |fs|);
    VerdictsOnFirstLookup(w, today, index, fs);
    EachKeyOnce(w, verdicts, fs, lookups, |fs|);
    var handled := KeysOf(w, Having(verdicts, fs, |fs|, Handled));
    assert lookups[..|fs|] == lookups;
    forall k ensures k in handled <==> k in KeySet(w, fs) {
      if k in KeySet(w, fs) {
        var f :| f in fs && Keyed(w, f) && FindingKey(w, f) == k;
        var i :| 0 <= i < |fs| && fs[i] == f;
        assert lookups[i] == Some(k);
      }
      if Some(k) in lookups {
        var i :| 0 <= i < |lookups| && lookups[i] == Some(k);
        assert fs[i] in fs;
      }
    }
    DistinctCount(handled, KeySet(w, fs));
  }
}
