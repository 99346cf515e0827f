/** The decoded report of `pnpm audit` and the findings that the script reads from it. */
module AuditReport {
  import opened Collections

  /** A JSON scalar; whole numbers only. */
  datatype Scalar = Null | Str(s: string) | Num(n: int)

  /** The scalar fields of a JSON object. */
  type Fields = map<string, Scalar>

  datatype Advisory = Advisory(fields: Fields, cves: seq<Scalar>)
  datatype Via = Details(fields: Fields) | Named(name: string) | Other
  datatype ViaField = Many(items: seq<Via>) | One(name: string) | Neither
  datatype Vulnerability = Vulnerability(name: string, severity: Scalar, via: ViaField)

  /** A section that is absent or no object is empty here. */
  datatype Report = Report(advisories: seq<Advisory>, vulnerabilities: seq<Vulnerability>)

  datatype Finding = Finding(name: Scalar, severity: Scalar, advisory: Scalar)

  predicate Truthy(x: Scalar) {
    match x
    case Null => false
    case Str(s) => s != ""
    case Num(n) => n != 0
  }

  /** Python's `or`. */
  function Or(x: Scalar, y: Scalar): Scalar {
    if Truthy(x) then x else y
  }

  function Get(fields: Fields, name: string): Scalar {
    if name in fields then fields[name] else Null
  }

  function Decimal(n: nat): string {
    (if n < 10 then "" else Decimal(n / 10)) + ["0123456789"[n % 10]]
  }

  /** Python's `str`; never applied to null. */
  function ToText(x: Scalar): string {
    match x
    case Null => ""
    case Str(s) => s
    case Num(n) => if n < 0 then "-" + Decimal(-n) else Decimal(n)
  }

  function PickAdvisoryId(a: Advisory): Scalar {
    Or(Get(a.fields, "github_advisory_id"),
    Or(Get(a.fields, "url"),
    Or(if a.cves == [] then Null else a.cves[0],
    Or(if Get(a.fields, "id") == Null then Null else Str(ToText(Get(a.fields, "id"))),
    Or(Get(a.fields, "title"),
    Or(Get(a.fields, "advisory"), Get(a.fields, "overview")))))))
  }

  function AdvisoryFinding(a: Advisory): Finding {
    Finding(Or(Get(a.fields, "module_name"), Get(a.fields, "name")), Get(a.fields, "severity"), PickAdvisoryId(a))
  }

  function ViaId(via: Via): Scalar {
    match via
    case Details(o) => Or(Get(o, "github_advisory_id"), Or(Get(o, "url"), Or(Get(o, "source"), Or(Get(o, "title"), Get(o, "name")))))
    case Named(s) => Str(s)
    case Other => Null
  }

  function ViaTitle(via: Via): Scalar {
    match via
    case Details(o) => Or(Get(o, "title"), Or(Get(o, "url"), Or(Get(o, "advisory"), Get(o, "source"))))
    case Named(s) => Str(s)
    case Other => Null
  }

  // --- Which of several fields is taken ---

  /** The i-th candidate is the first that is neither absent, null, empty nor zero. */
  ghost predicate FirstGiven(candidates: seq<Scalar>, i: nat)
    requires i < |candidates|
  {
    candidates[i] !in {Null, Str(""), Num(0)} && forall j | 0 <= j < i :: candidates[j] in {Null, Str(""), Num(0)}
  }

  lemma OrMeans(x: Scalar, y: Scalar)
    ensures Or(x, y) == if x in {Null, Str(""), Num(0)} then y else x
  {
  }

  /** A chain of `or` gives its first operand that is given. */
  lemma OrChain(a: Scalar, b: Scalar, c: Scalar, d: Scalar, e: Scalar, f: Scalar, g: Scalar, i: nat)
    requires i < 7 && FirstGiven([a, b, c, d, e, f, g], i)
    ensures Or(a, Or(b, Or(c, Or(d, Or(e, Or(f, g)))))) == [a, b, c, d, e, f, g][i]
  {
    var s := [a, b, c, d, e, f, g];
    OrMeans(f, g);
    var f' := Or(f, g);
    OrMeans(e, f');
    var e' := Or(e, f');
    OrMeans(d, e');
    var d' := Or(d, e');
    OrMeans(c, d');
    var c' := Or(c, d');
    OrMeans(b, c');
    OrMeans(a, Or(b, c'));
    assert s[0] == a && s[1] == b && s[2] == c && s[3] == d && s[4] == e && s[5] == f && s[6] == g;
  }

  lemma ShorterChain(a: Scalar, b: Scalar, c: Scalar, d: Scalar, e: Scalar, i: nat)
    requires i < 5 && FirstGiven([a, b, c, d, e], i)
    ensures Or(a, Or(b, Or(c, Or(d, e)))) == [a, b, c, d, e][i]
  {
    var s, t := [a, b, c, d, e], [Null, Null, a, b, c, d, e];
    assert t[i + 2] == s[i];
    forall j | 0 <= j < i + 2 ensures t[j] in {Null, Str(""), Num(0)} {
      assert j < 2 || t[j] == s[j - 2];
    }
    OrChain(Null, Null, a, b, c, d, e, i + 2);
  }

  /** The identifier of an advisory. */
  lemma AdvisoryIdOrder(a: Advisory, i: nat)
    requires i < 7
    ensures var id := Get(a.fields, "id"); var candidates :=
      [Get(a.fields, "github_advisory_id"), Get(a.fields, "url"), if a.cves == [] then Null else a.cves[0],
       if id == Null then Null else Str(ToText(id)), Get(a.fields, "title"), Get(a.fields, "advisory"), Get(a.fields, "overview")];
      FirstGiven(candidates, i) ==> PickAdvisoryId(a) == candidates[i]
  {
    var id := Get(a.fields, "id");
    var x, y := Get(a.fields, "github_advisory_id"), Get(a.fields, "url");
    var z, t := if a.cves == [] then Null else a.cves[0], if id == Null then Null else Str(ToText(id));
    var u, v, o := Get(a.fields, "title"), Get(a.fields, "advisory"), Get(a.fields, "overview");
    if FirstGiven([x, y, z, t, u, v, o], i) {
      OrChain(x, y, z, t, u, v, o, i);
    }
  }

  lemma AdvisoryNameOrder(a: Advisory, i: nat)
    requires i < 2
    ensures var names := [Get(a.fields, "module_name"), Get(a.fields, "name")];
      FirstGiven(names, i) ==> AdvisoryFinding(a).name == names[i]
    ensures AdvisoryFinding(a).severity == Get(a.fields, "severity") && AdvisoryFinding(a).advisory == PickAdvisoryId(a)
  {
    var x, y := Get(a.fields, "module_name"), Get(a.fields, "name");
    assert [x, y][0] == x && [x, y][1] == y;
    OrMeans(x, y);
  }

  /** The identifier and the title of an entry of a vulnerability. */
  lemma ViaOrder(o: Fields, i: nat)
    requires i < 5
    ensures var ids := [Get(o, "github_advisory_id"), Get(o, "url"), Get(o, "source"), Get(o, "title"), Get(o, "name")];
      FirstGiven(ids, i) ==> ViaId(Details(o)) == ids[i]
    ensures var titles := [Get(o, "title"), Get(o, "url"), Get(o, "advisory"), Get(o, "source")];
      i < 4 && FirstGiven(titles, i) ==> ViaTitle(Details(o)) == titles[i]
  {
    var x, y, z, t, n := Get(o, "github_advisory_id"), Get(o, "url"), Get(o, "source"), Get(o, "title"), Get(o, "name");
    if FirstGiven([x, y, z, t, n], i) {
      ShorterChain(x, y, z, t, n, i);
    }
    var v := Get(o, "advisory");
    var s, s' := [t, y, v, z], [Null, t, y, v, z];
    if i < 4 && FirstGiven(s, i) {
      assert s'[i + 1] == s[i];
      forall j | 0 <= j < i + 1 ensures s'[j] in {Null, Str(""), Num(0)} {
        assert j == 0 || s'[j] == s[j - 1];
      }
      ShorterChain(Null, t, y, v, z, i + 1);
    }
  }

  // --- Numbers as text ---

  function DigitValue(c: char): nat {
    if '0' <= c <= '9' then c as nat - '0' as nat else 0
  }

  function Numeral(s: string): nat {
    if s == "" then 0 else 10 * Numeral(s[..|s| - 1]) + DigitValue(s[|s| - 1])
  }

  predicate Digits(s: string) {
    forall c | c in s :: '0' <= c <= '9'
  }

  /** A whole number is written in digits, without leading zeros, and reads as itself. */
  lemma {:induction false} DecimalReads(n: nat)
    ensures Numeral(Decimal(n)) == n && Decimal(n) != "" && Digits(Decimal(n)) && (n > 0 ==> Decimal(n)[0] != '0')
  {
    var front, c := if n < 10 then "" else Decimal(n / 10), "0123456789"[n % 10];
    assert Decimal(n) == front + [c];
    DigitReads(n % 10);
    NumeralSnoc(front, c);
    if n < 10 {
      assert c != '0' || n == 0;
    } else {
      DecimalReads(n / 10);
      assert Decimal(n)[0] == front[0];
    }
  }

  lemma NumeralSnoc(front: string, c: char)
    ensures Numeral(front + [c]) == 10 * Numeral(front) + DigitValue(c)
    ensures Digits(front) && '0' <= c <= '9' ==> Digits(front + [c])
  {
    assert (front + [c])[..|front|] == front;
  }

  lemma DigitReads(d: nat)
    requires d < 10
    ensures var c := "0123456789"[d]; '0' <= c <= '9' && DigitValue(c) == d
  {
  }

  function ViaItems(via: ViaField): seq<Via> {
    match via
    case Many(items) => items
    case One(name) => [Named(name)]
    case Neither => []
  }

  function Each(items: seq<Via>, f: Via -> Scalar): seq<Scalar> {
    seq(|items|, i requires 0 <= i < |items| => f(items[i]))
  }

  /** What `[x for x in xs if x]` keeps. */
  function Kept(items: seq<Via>, f: Via -> Scalar): seq<Scalar> {
    Filter(Each(items, f), Truthy)
  }

  lemma KeptStep(items: seq<Via>, f: Via -> Scalar, i: nat)
    requires i < |items|
    ensures Kept(items[..i + 1], f) ==
      if Truthy(f(items[i])) then Kept(items[..i], f) + [f(items[i])] else Kept(items[..i], f)
  {
    assert Each(items[..i + 1], f)[..i] == Each(items[..i], f);
  }

  lemma KeptMember(items: seq<Via>, f: Via -> Scalar, x: Scalar)
    ensures x in Kept(items, f) <==> Truthy(x) && exists v | v in items :: f(v) == x
  {
    FilterMember(Each(items, f), Truthy, x);
    if v :| v in items && f(v) == x {
      var i :| 0 <= i < |items| && items[i] == v;
      assert Each(items, f)[i] == x;
    }
    if x in Each(items, f) {
      var i :| 0 <= i < |items| && Each(items, f)[i] == x;
      assert items[i] in items && f(items[i]) == x;
    }
  }

  /** The two lists that the script collects from a `via` list. */
  method CollectVia(items: seq<Via>) returns (ids: seq<Scalar>, titles: seq<Scalar>)
    ensures Filter(ids, Truthy) == Kept(items, ViaId)
    ensures Filter(titles, Truthy) == Kept(items, ViaTitle)
  {
    ids, titles := [], [];
    for i := 0 to |items|
      invariant Filter(ids, Truthy) == Kept(items[..i], ViaId)
      invariant Filter(titles, Truthy) == Kept(items[..i], ViaTitle)
    {
      KeptStep(items, ViaId, i);
      KeptStep(items, ViaTitle, i);
      if !items[i].Other? {
        var id, title := ViaId(items[i]), ViaTitle(items[i]);
        FilterSnoc(ids, Truthy, id);
        FilterSnoc(titles, Truthy, title);
        ids, titles := ids + [id], titles + [title];
      }
    }
    assert items[..|items|] == items;
  }

  /** Joining the titles of a vulnerability raises when one of them is a number. */
  ghost predicate Joins(v: Vulnerability) {
    forall item | item in ViaItems(v.via) :: !(Truthy(ViaTitle(item)) && ViaTitle(item).Num?)
  }

  function Under(v: Vulnerability, ids: seq<Scalar>): seq<Finding> {
    seq(|ids|, i requires 0 <= i < |ids| => Finding(Str(v.name), v.severity, ids[i]))
  }

  method ReadVulnerability(v: Vulnerability) returns (r: Option<seq<Finding>>)
    ensures r == if Joins(v) then Some(FromOne(v)) else None
  {
    var ids, titles := CollectVia(ViaItems(v.via));
    titles := Filter(titles, Truthy);
    for i := 0 to |titles|
      invariant forall j | 0 <= j < i :: !titles[j].Num?
    {
      if titles[i].Num? {
        KeptMember(ViaItems(v.via), ViaTitle, titles[i]);
        return None;
      }
    }
    forall item | item in ViaItems(v.via) ensures !(Truthy(ViaTitle(item)) && ViaTitle(item).Num?) {
      KeptMember(ViaItems(v.via), ViaTitle, ViaTitle(item));
    }
    ids := Filter(ids, Truthy);
    var out := [];
    for i := 0 to |ids|
      invariant out == Under(v, ids[..i])
    {
      out := out + [Finding(Str(v.name), v.severity, ids[i])];
    }
    assert ids[..|ids|] == ids;
    r := Some(out);
  }

  // --- The whole report ---

  /** One finding per identifier. */
  ghost function FromOne(v: Vulnerability): seq<Finding> {
    Under(v, Kept(ViaItems(v.via), ViaId))
  }

  ghost function FromVulnerabilities(vs: seq<Vulnerability>): seq<Finding> {
    if vs == [] then [] else FromVulnerabilities(vs[..|vs| - 1]) + FromOne(vs[|vs| - 1])
  }

  function FromAdvisories(advisories: seq<Advisory>): seq<Finding> {
    seq(|advisories|, i requires 0 <= i < |advisories| => AdvisoryFinding(advisories[i]))
  }

  ghost function Findings(data: Report): seq<Finding> {
    FromAdvisories(data.advisories) + FromVulnerabilities(data.vulnerabilities)
  }

  ghost predicate Readable(data: Report) {
    forall v | v in data.vulnerabilities :: Joins(v)
  }

  method ReadVulnerabilities(vs: seq<Vulnerability>) returns (r: Option<seq<Finding>>)
    ensures r == if forall v | v in vs :: Joins(v) then Some(FromVulnerabilities(vs)) else None
  {
    var out := [];
    for i := 0 to |vs|
      invariant forall v | v in vs[..i] :: Joins(v)
      invariant out == FromVulnerabilities(vs[..i])
    {
      assert vs[..i + 1][..i] == vs[..i] && vs[i] in vs;
      var found := ReadVulnerability(vs[i]);
      if found == None {
        return None;
      }
      out := out + found.value;
    }
    assert vs[..|vs|] == vs;
    r := Some(out);
  }

  method IterVulns(data: Report) returns (r: Option<seq<Finding>>)
    ensures r == if Readable(data) then Some(Findings(data)) else None
  {
    var out := [];
    for i := 0 to |data.advisories|
      invariant out == FromAdvisories(data.advisories[..i])
    {
      out := out + [AdvisoryFinding(data.advisories[i])];
    }
    assert data.advisories[..|data.advisories|] == data.advisories;
    var more := ReadVulnerabilities(data.vulnerabilities);
    r := if more == None then None else Some(out + more.value);
  }

  /** What a finding of the second section is: one non-empty identifier of one vulnerability. */
  lemma {:induction false} FromVulnerabilitiesMember(vs: seq<Vulnerability>, f: Finding)
    ensures f in FromVulnerabilities(vs) <==>
      Truthy(f.advisory) && exists v, item | v in vs && item in ViaItems(v.via) ::
        f == Finding(Str(v.name), v.severity, ViaId(item))
  {
    if vs != [] {
      var n := |vs| - 1;
      FromVulnerabilitiesMember(vs[..n], f);
      assert vs == vs[..n] + [vs[n]];
      UnderMember(vs[n], f);
    }
  }

  lemma UnderMember(v: Vulnerability, f: Finding)
    ensures f in FromOne(v) <==>
      Truthy(f.advisory) && exists item | item in ViaItems(v.via) :: f == Finding(Str(v.name), v.severity, ViaId(item))
  {
    var ids := Kept(ViaItems(v.via), ViaId);
    KeptMember(ViaItems(v.via), ViaId, f.advisory);
    if f.name == Str(v.name) && f.severity == v.severity && f.advisory in ids {
      var i :| 0 <= i < |ids| && ids[i] == f.advisory;
      assert Under(v, ids)[i] == f;
    }
  }

  lemma FromSnoc(vs: seq<Vulnerability>, v: Vulnerability)
    ensures FromVulnerabilities(vs + [v]) == FromVulnerabilities(vs) + FromOne(v)
  {
    assert (vs + [v])[..|vs|] == vs;
  }

  lemma FromAppendOne(vs: seq<Vulnerability>, vs': seq<Vulnerability>, v: Vulnerability, a: seq<Finding>, b: seq<Finding>)
    requires FromVulnerabilities(vs + vs') == a + b && FromVulnerabilities(vs') == b
    ensures FromVulnerabilities(vs + (vs' + [v])) == a + FromVulnerabilities(vs' + [v])
  {
    var c := FromOne(v);
    FromSnoc(vs', v);
    FromSnoc(vs + vs', v);
    Reassociate(vs, vs', [v]);
    Reassociate(a, b, c);
  }

  lemma {:induction false} FromAppend(vs: seq<Vulnerability>, vs': seq<Vulnerability>)
    ensures FromVulnerabilities(vs + vs') == FromVulnerabilities(vs) + FromVulnerabilities(vs')
    decreases |vs'|
  {
    if vs' == [] {
      assert vs + vs' == vs;
    } else {
      var before, last := vs'[..|vs'| - 1], vs'[|vs'| - 1];
      assert vs' == before + [last];
      FromAppend(vs, before);
      FromAppendOne(vs, before, last, FromVulnerabilities(vs), FromVulnerabilities(before));
    }
  }

  ghost predicate Silent(v: Vulnerability) {
    forall item | item in ViaItems(v.via) :: !Truthy(ViaId(item))
  }

  lemma SilentKeepsNone(v: Vulnerability)
    ensures Kept(ViaItems(v.via), ViaId) == [] <==> Silent(v)
  {
    var ids := Kept(ViaItems(v.via), ViaId);
    if ids != [] {
      KeptMember(ViaItems(v.via), ViaId, ids[0]);
    } else if !Silent(v) {
      var item :| item in ViaItems(v.via) && Truthy(ViaId(item));
      KeptMember(ViaItems(v.via), ViaId, ViaId(item));
    }
  }

  /** A vulnerability leaves the findings of a report as they are exactly when no entry of its `via` has an identifier. */
  lemma SilentVulnerability(vs: seq<Vulnerability>, v: Vulnerability, vs': seq<Vulnerability>)
    ensures FromVulnerabilities(vs + [v] + vs') == FromVulnerabilities(vs + vs') <==> Silent(v)
  {
    FromAppend(vs + [v], vs');
    FromAppend(vs, vs');
    FromSnoc(vs, v);
    SilentKeepsNone(v);
  }

  // --- The order of the findings, and the forms of `via` ---

  /** The advisories come first, in their order. */
  lemma AdvisoriesFirst(data: Report, i: nat)
    requires i < |data.advisories|
    ensures |Findings(data)| == |data.advisories| + |FromVulnerabilities(data.vulnerabilities)|
    ensures Findings(data)[i] == AdvisoryFinding(data.advisories[i])
  {
  }

  /** The findings of a vulnerability are in the order of its entries. */
  lemma ConcatViaItems(name: string, severity: Scalar, xs: seq<Via>, ys: seq<Via>)
    ensures FromOne(Vulnerability(name, severity, Many(xs + ys))) ==
      FromOne(Vulnerability(name, severity, Many(xs))) + FromOne(Vulnerability(name, severity, Many(ys)))
  {
    KeptConcat(xs, ys, ViaId);
    UnderConcat(Vulnerability(name, severity, Neither), Kept(xs, ViaId), Kept(ys, ViaId));
  }

  lemma KeptConcat(xs: seq<Via>, ys: seq<Via>, f: Via -> Scalar)
    ensures Kept(xs + ys, f) == Kept(xs, f) + Kept(ys, f)
  {
    assert Each(xs + ys, f) == Each(xs, f) + Each(ys, f);
    FilterConcat(Each(xs, f), Each(ys, f), Truthy);
  }

  lemma UnderConcat(v: Vulnerability, ids: seq<Scalar>, ids': seq<Scalar>)
    ensures Under(v, ids + ids') == Under(v, ids) + Under(v, ids')
  {
  }

  lemma OneKept(item: Via)
    ensures Kept([item], ViaId) == if Truthy(ViaId(item)) then [ViaId(item)] else []
  {
    assert Each([item], ViaId) == [] + [ViaId(item)];
    FilterSnoc([], Truthy, ViaId(item));
  }

  /** A text stands for a list with that text; an empty one, and what is neither text nor list, for no entry at all. */
  lemma ViaForms(name: string, severity: Scalar, text: string)
    ensures FromOne(Vulnerability(name, severity, One(text))) == FromOne(Vulnerability(name, severity, Many([Named(text)])))
    ensures FromOne(Vulnerability(name, severity, One(text))) == if text == "" then [] else [Finding(Str(name), severity, Str(text))]
    ensures FromOne(Vulnerability(name, severity, Neither)) == [] == FromOne(Vulnerability(name, severity, Many([Other])))
  {
    OneKept(Named(text));
    OneKept(Other);
    assert Kept([], ViaId) == [];
  }
}
