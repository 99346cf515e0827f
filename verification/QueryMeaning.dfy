/** What the configuring methods of a query builder do to the rows that its query returns. */
module QueryMeaning {
  import opened Collections
  import opened Schema
  import opened SqlGraph
  import opened Projection
  import opened QueryBuilder

  /** The rows that the builder's own query returns. */
  ghost function RowsOf(db: Database, v: View): seq<Row> {
    QueryNodes(db, QueryOf(v))
  }

  ghost predicate Windowless(v: View) {
    v.limit in {None, Some(0)} && v.offset in {None, Some(0)}
  }

  /** Before any step the query returns the whole table. */
  lemma FreshQuery(db: Database, t: Entity)
    ensures RowsOf(db, Empty(t)) == db.enumerate(t, [])
    ensures QueryOf(Empty(t)) == Query(t, [], [], [], 0, 0, Subqueries(map[]))
  {
    FilterAll(db.enumerate(t, []), row => Sat(db, [], row));
    assert QueryOf(Empty(t)).edges.of == map[];
  }

  /** `Limit` keeps the first n rows. */
  lemma LimitMeans(db: Database, v: View, n: nat)
    requires Windowless(v) && n > 0
    ensures var all := RowsOf(db, v); RowsOf(db, Stepped(v, Limit(n))) == if n <= |all| then all[..n] else all
  {
    assert RowsOf(db, v)[0..] == RowsOf(db, v);
  }

  /** `Offset` skips the first n rows. */
  lemma OffsetMeans(db: Database, v: View, n: nat)
    requires Windowless(v)
    ensures var all := RowsOf(db, v); RowsOf(db, Stepped(v, Offset(n))) == if n <= |all| then all[n..] else []
  {
    WindowlessRows(db, v);
  }

  function Page<T>(all: seq<T>, m: nat, n: nat): seq<T> {
    if m + n <= |all| then all[m..m + n] else if m <= |all| then all[m..] else []
  }

  lemma WindowIsPage<T>(rows: seq<T>, m: nat, n: nat)
    requires n > 0
    ensures Window(rows, m, n) == Page(rows, m, n)
  {
    if m + n <= |rows| {
      assert rows[m..][..n] == rows[m..m + n];
    }
  }

  /** Together, in either order: n rows after the first m. */
  lemma PageMeans(db: Database, v: View, m: nat, n: nat)
    requires Windowless(v) && n > 0
    ensures Stepped(Stepped(v, Limit(n)), Offset(m)) == Stepped(Stepped(v, Offset(m)), Limit(n))
    ensures RowsOf(db, Stepped(Stepped(v, Offset(m)), Limit(n))) == Page(RowsOf(db, v), m, n)
  {
    WindowlessRows(db, v);
    WindowIsPage(RowsOf(db, v), m, n);
  }

  lemma WindowlessRows(db: Database, v: View)
    requires Windowless(v)
    ensures RowsOf(db, v) == Filter(db.enumerate(v.entity, v.order), row => Sat(db, v.preds, row))
  {
    var rows := Filter(db.enumerate(v.entity, v.order), row => Sat(db, v.preds, row));
    assert rows[0..] == rows;
  }

  lemma SatBoth(db: Database, ps: seq<Pred>, qs: seq<Pred>, row: Row)
    ensures Sat(db, ps + qs, row) <==> Sat(db, ps, row) && Sat(db, qs, row)
  {
    assert forall p :: p in ps + qs <==> p in ps || p in qs;
  }

  /** `Where` keeps, in order, the rows that pass the further predicates too. */
  lemma WhereMeans(db: Database, v: View, ps: seq<Pred>)
    requires Windowless(v)
    ensures RowsOf(db, Stepped(v, Where(ps))) == Filter(RowsOf(db, v), row => Passes(db, ps, row))
  {
    var table := db.enumerate(v.entity, v.order);
    WindowlessRows(db, v);
    WindowlessRows(db, Stepped(v, Where(ps)));
    forall row | row in table ensures Sat(db, v.preds + ps, row) == (Sat(db, v.preds, row) && Passes(db, ps, row)) {
      SatBoth(db, v.preds, ps, row);
      SatIsPasses(db, ps, row);
    }
    FilterTwice(table, row => Sat(db, v.preds, row), row => Passes(db, ps, row), row => Sat(db, v.preds + ps, row));
  }

  /** `Order` asks the database for the table in the longer order; without predicates that is all it does. */
  lemma OrderMeans(db: Database, v: View, os: seq<nat>)
    requires Windowless(v) && v.preds == []
    ensures RowsOf(db, Stepped(v, Order(os))) == db.enumerate(v.entity, v.order + os)
  {
    WindowlessRows(db, Stepped(v, Order(os)));
    FilterAll(db.enumerate(v.entity, v.order + os), row => Sat(db, [], row));
  }

  /** The first `Select` replaces the list of all columns; whatever is selected, at once or in turn, is read. */
  lemma SelectMeans(db: Database, v: View, cols: seq<Column>, c: Column)
    requires v.fields + cols != []
    ensures var q := QueryOf(Stepped(v, Select(cols)));
      c in ColumnsOf(db, q.entity, q.fields, q.edges) <==>
        (c == Id && HasId(v.entity)) || c in v.fields || c in cols || exists e | Owner(e) == v.entity :: NeedsKey(q.edges, e, c)
  {
    var q := QueryOf(Stepped(v, Select(cols)));
    SelectedColumns(db, q.entity, q.fields, q.edges, c);
  }

  lemma UnselectedMeans(db: Database, v: View, c: Column)
    requires v.fields == []
    ensures var q := QueryOf(v); c in ColumnsOf(db, q.entity, q.fields, q.edges) <==> c in db.columns(v.entity)
  {
  }

  /** `With*` requests its edge, and no other, by a query for all rows of the target, without edges of its own. */
  lemma WithMeans(v: View, e: Edge)
    requires Owner(e) == v.entity
    ensures QueryOf(Stepped(v, With(e))) ==
      QueryOf(v).(edges := Subqueries(QueryOf(v).edges.of[e := Query(Target(e), [], [], [], 0, 0, Subqueries(map[]))]))
  {
    var after := QueryOf(Stepped(v, With(e)));
    assert QueryOf(Empty(Target(e))).edges.of == map[];
    assert after.edges.of == QueryOf(v).edges.of[e := Query(Target(e), [], [], [], 0, 0, Subqueries(map[]))];
  }

  // --- Sequences of steps ---

  function After(v: View, steps: seq<Step>): View {
    if steps == [] then v else Stepped(After(v, steps[..|steps| - 1]), steps[|steps| - 1])
  }

  /** The k-th step is the last one of which `p` holds. */
  ghost predicate LastSuch(steps: seq<Step>, p: Step -> bool, k: int) {
    0 <= k < |steps| && p(steps[k]) && forall j | k < j < |steps| :: !p(steps[j])
  }

  predicate IsLimit(step: Step) { step.Limit? }

  predicate IsOffset(step: Step) { step.Offset? }

  predicate IsUnique(step: Step) { step.Unique? }

  lemma LastSuchSnoc(steps: seq<Step>, step: Step, p: Step -> bool, k: int)
    ensures LastSuch(steps + [step], p, k) <==> if k == |steps| then p(step) else LastSuch(steps, p, k) && !p(step)
  {
    var all := steps + [step];
    assert all[|steps|] == step && forall j | 0 <= j < |steps| :: all[j] == steps[j];
  }

  /** Of several Limits, Offsets or Uniques the last one counts, whatever comes between. */
  lemma {:induction false} LastCounts(v: View, steps: seq<Step>, k: int)
    ensures LastSuch(steps, IsLimit, k) ==> After(v, steps).limit == Some(steps[k].n)
    ensures LastSuch(steps, IsOffset, k) ==> After(v, steps).offset == Some(steps[k].n)
    ensures LastSuch(steps, IsUnique, k) ==> After(v, steps).unique == Some(steps[k].on)
  {
    if steps != [] {
      var before, last := steps[..|steps| - 1], steps[|steps| - 1];
      assert steps == before + [last];
      LastCounts(v, before, k);
      LastSuchSnoc(before, last, IsLimit, k);
      LastSuchSnoc(before, last, IsOffset, k);
      LastSuchSnoc(before, last, IsUnique, k);
    }
  }

  /** Everything that the steps of one kind bring, in order. */
  function Brought<T>(steps: seq<Step>, part: Step -> seq<T>): seq<T> {
    if steps == [] then [] else Brought(steps[..|steps| - 1], part) + part(steps[|steps| - 1])
  }

  function Predicates(step: Step): seq<Pred> {
    if step.Where? then step.ps else []
  }

  function Terms(step: Step): seq<nat> {
    if step.Order? then step.os else []
  }

  function Columns(step: Step): seq<Column> {
    if step.Select? then step.cols else []
  }

  function Modifiers(step: Step): seq<nat> {
    if step.Modify? then step.ms else []
  }

  lemma StepAdds(v: View, step: Step)
    ensures var r := Stepped(v, step);
      && r.preds == v.preds + Predicates(step) && r.order == v.order + Terms(step)
      && r.fields == v.fields + Columns(step) && r.modifiers == v.modifiers + Modifiers(step)
      && r.entity == v.entity && r.inters == v.inters && r.sql == v.sql && r.path == v.path
  {
  }

  /** Predicates, order terms, selected columns and modifiers add up in the order of the calls; the path, the intermediate
      query and the interceptors stay. */
  lemma {:induction false} StepsAddUp(v: View, steps: seq<Step>)
    ensures var r := After(v, steps);
      && r.preds == v.preds + Brought(steps, Predicates)
      && r.order == v.order + Brought(steps, Terms)
      && r.fields == v.fields + Brought(steps, Columns)
      && r.modifiers == v.modifiers + Brought(steps, Modifiers)
      && r.entity == v.entity && r.inters == v.inters && r.sql == v.sql && r.path == v.path
  {
    if steps != [] {
      var before, last := steps[..|steps| - 1], steps[|steps| - 1];
      StepsAddUp(v, before);
      StepAdds(After(v, before), last);
      Reassociate(v.preds, Brought(before, Predicates), Predicates(last));
      Reassociate(v.order, Brought(before, Terms), Terms(last));
      Reassociate(v.fields, Brought(before, Columns), Columns(last));
      Reassociate(v.modifiers, Brought(before, Modifiers), Modifiers(last));
    }
  }

  // --- Steps on sub-builders ---

  /** The sub-builder at the end of a path of edges. */
  function ViewAt(v: View, at: seq<Edge>): Option<View>
    decreases |at|
  {
    if at == [] then Some(v)
    else if at[0] in v.subs.of then ViewAt(v.subs.of[at[0]], at[1..])
    else None
  }

  /** A step reaches the sub-builder that its path leads to; a path that leads nowhere does nothing. */
  lemma {:induction false} StepReaches(v: View, at: seq<Edge>, step: Step)
    ensures ViewAt(v, at) == None ==> SteppedAt(v, at, step) == v
    ensures ViewAt(v, at).Some? ==> ViewAt(SteppedAt(v, at, step), at) == Some(Stepped(ViewAt(v, at).value, step))
    decreases |at|
  {
    if at != [] && at[0] in v.subs.of {
      StepReaches(v.subs.of[at[0]], at[1..], step);
      assert v.subs.of[at[0] := v.subs.of[at[0]]] == v.subs.of;
    }
  }

  /** The builder without what is below it. */
  function Alone(v: Option<View>): Option<View> {
    match v case Some(view) => Some(view.(subs := Subviews(map[]))) case None => None
  }

  /** A builder that is neither there nor further down keeps its own configuration. */
  lemma {:induction false} StepSpares(v: View, at: seq<Edge>, step: Step, other: seq<Edge>)
    requires !(at <= other)
    ensures Alone(ViewAt(SteppedAt(v, at, step), other)) == Alone(ViewAt(v, other))
    decreases |at|
  {
    if at[0] in v.subs.of && other != [] && other[0] == at[0] {
      assert at == [at[0]] + at[1..] && other == [at[0]] + other[1..];
      StepSpares(v.subs.of[at[0]], at[1..], step, other[1..]);
    }
  }

  /** The sub-query at the end of a path of edges. */
  function QueryAt(q: Query, at: seq<Edge>): Option<Query>
    decreases |at|
  {
    if at == [] then Some(q)
    else if at[0] in q.edges.of then QueryAt(q.edges.of[at[0]], at[1..])
    else None
  }

  lemma {:induction false} QueryOfAt(v: View, at: seq<Edge>)
    ensures QueryAt(QueryOf(v), at) == match ViewAt(v, at) case Some(w) => Some(QueryOf(w)) case None => None
    decreases |at|
  {
    if at != [] && at[0] in v.subs.of {
      QueryOfAt(v.subs.of[at[0]], at[1..]);
    }
  }

  /** So configuring the builder at a path configures the sub-query at that path, which is what eager loading runs there. */
  lemma ConfiguredQuery(v: View, at: seq<Edge>, step: Step)
    requires ViewAt(v, at).Some?
    ensures QueryAt(QueryOf(SteppedAt(v, at, step)), at) == Some(QueryOf(Stepped(ViewAt(v, at).value, step)))
  {
    StepReaches(v, at, step);
    QueryOfAt(SteppedAt(v, at, step), at);
  }
}
