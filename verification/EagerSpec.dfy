/** What eager loading returns, by value: batched (one query per edge) and naive (one lookup per node and edge). */
module EagerSpec {
  import opened Collections
  import opened Schema
  import opened SqlGraph
  import opened Projection
  import opened Trees

  function Ids(rows: seq<Row>): seq<int> {
    seq(|rows|, i requires 0 <= i < |rows| => IdOf(rows[i]))
  }

  /** Whether a foreign key connects the two rows. */
  predicate Relates(e: Edge, owner: Row, x: Row)
    requires !ShapeOf(e).ManyToMany?
  {
    match ShapeOf(e)
    case ManyToOne(fk, _) => Key(owner, fk) == Some(IdOf(x))
    case OneToMany(fk, _) => Key(x, fk) == Some(IdOf(owner))
  }

  /** The join rows that a many-to-many load receives for a batch of owners. */
  function JoinRows(db: Database, q: Query, e: Edge, batch: seq<Row>): seq<(int, Row)> {
    Window(db.joined(e, Ids(batch), q.preds, q.order), q.offset, q.limit)
  }

  ghost predicate Wanted(db: Database, q: Query, e: Edge, batch: seq<Row>, x: Row)
    requires !ShapeOf(e).ManyToMany?
  {
    Sat(db, q.preds, x) && exists owner | owner in batch :: Relates(e, owner, x)
  }

  /** The neighbours that one query for the whole batch returns. */
  ghost function Fetched(db: Database, q: Query, e: Edge, batch: seq<Row>): seq<Row> {
    if ShapeOf(e).ManyToMany? then FirstRows(JoinRows(db, q, e, batch))
    else Window(Filter(db.enumerate(q.entity, q.order), x => Wanted(db, q, e, batch, x)), q.offset, q.limit)
  }

  /** Whether a fetched neighbour goes into the slot of `owner`. */
  ghost predicate Owns(db: Database, q: Query, e: Edge, batch: seq<Row>, owner: Row, x: Row) {
    if ShapeOf(e).ManyToMany? then exists y :: (IdOf(owner), y) in JoinRows(db, q, e, batch) && IdOf(y) == IdOf(x)
    else Relates(e, owner, x)
  }

  ghost function Owned(db: Database, q: Query, e: Edge, batch: seq<Row>, owner: Row): seq<Row> {
    Filter(Fetched(db, q, e, batch), x => Owns(db, q, e, batch, owner, x))
  }

  function ColumnsVia(db: Database, e: Edge, q: Query): seq<Column> {
    ColumnsOf(db, q.entity, LinkedFields(e, q.fields), q.edges)
  }

  /** The graph below `row`, loaded together with the other rows of `batch`. */
  ghost function BatchTree(db: Database, subs: Subqueries, cols: seq<Column>, batch: seq<Row>, row: Row): Tree
    decreases subs, 0
  {
    Tree(Project(row, cols),
         map e | e in subs.of ::
           SlotOf(e, BatchTrees(db, subs.of[e].edges, ColumnsVia(db, e, subs.of[e]), Fetched(db, subs.of[e], e, batch),
                                Owned(db, subs.of[e], e, batch, row))))
  }

  ghost function BatchTrees(db: Database, subs: Subqueries, cols: seq<Column>, batch: seq<Row>, rows: seq<Row>): seq<Tree>
    decreases subs, 1
  {
    seq(|rows|, i requires 0 <= i < |rows| => BatchTree(db, subs, cols, batch, rows[i]))
  }

  /** The graph below `row`, each edge of each node looked up for that node alone. */
  ghost function NaiveTree(db: Database, subs: Subqueries, cols: seq<Column>, row: Row): Tree
    decreases subs, 0
  {
    Tree(Project(row, cols),
         map e | e in subs.of ::
           SlotOf(e, NaiveTrees(db, subs.of[e].edges, ColumnsVia(db, e, subs.of[e]), Fetched(db, subs.of[e], e, [row]))))
  }

  ghost function NaiveTrees(db: Database, subs: Subqueries, cols: seq<Column>, rows: seq<Row>): seq<Tree>
    decreases subs, 1
  {
    seq(|rows|, i requires 0 <= i < |rows| => NaiveTree(db, subs, cols, rows[i]))
  }

  // --- Errors: prepareQuery rejects a field that is no column of the entity ---

  predicate BadFields(db: Database, q: Query) {
    exists c | c in q.fields :: c !in db.columns(q.entity)
  }

  /** A load step queries its edge unless there is no key to look up. */
  predicate Performed(e: Edge, batch: seq<Row>) {
    if ShapeOf(e).ManyToOne? then exists row | row in batch :: Key(row, ShapeOf(e).fk).Some? else batch != []
  }

  ghost predicate BatchFails(db: Database, subs: Subqueries, batch: seq<Row>)
    decreases subs
  {
    exists e | e in subs.of :: EdgeFails(db, subs.of[e], e, batch)
  }

  ghost predicate EdgeFails(db: Database, q: Query, e: Edge, batch: seq<Row>)
    decreases q
  {
    Performed(e, batch) && (BadFields(db, q) || BatchFails(db, q.edges, Fetched(db, q, e, batch)))
  }

  ghost predicate NaiveFails(db: Database, subs: Subqueries, row: Row)
    decreases subs
  {
    exists e | e in subs.of :: NaiveEdgeFails(db, subs.of[e], e, row)
  }

  ghost predicate NaiveEdgeFails(db: Database, q: Query, e: Edge, row: Row)
    decreases q
  {
    Performed(e, [row]) && (BadFields(db, q) || exists x | x in Fetched(db, q, e, [row]) :: NaiveFails(db, q.edges, x))
  }

  // --- How many queries a load runs ---

  /** The queries below one query that returned `batch`: each performed load step runs one, and those below it. */
  ghost function Runs(db: Database, t: Entity, subs: Subqueries, batch: seq<Row>): nat
    decreases subs, 1, 0
  {
    RunsOver(db, EdgesOf(t), subs, batch)
  }

  ghost function RunsOver(db: Database, edges: seq<Edge>, subs: Subqueries, batch: seq<Row>): nat
    decreases subs, 0, |edges|
  {
    if edges == [] then 0 else
    var e := edges[|edges| - 1];
    RunsOver(db, edges[..|edges| - 1], subs, batch) + if e in subs.of then EdgeRuns(db, subs.of[e], e, batch) else 0
  }

  ghost function EdgeRuns(db: Database, q: Query, e: Edge, batch: seq<Row>): nat
    decreases q, 0, 0
  {
    if Performed(e, batch) then 1 + Runs(db, Target(e), q.edges, Fetched(db, q, e, batch)) else 0
  }

  /** The number of sub-queries, at all depths. */
  function Size(t: Entity, subs: Subqueries): nat
    decreases subs, 1, 0
  {
    SizeOver(EdgesOf(t), subs)
  }

  function SizeOver(edges: seq<Edge>, subs: Subqueries): nat
    decreases subs, 0, |edges|
  {
    if edges == [] then 0 else
    var e := edges[|edges| - 1];
    SizeOver(edges[..|edges| - 1], subs) + if e in subs.of then 1 + Size(Target(e), subs.of[e].edges) else 0
  }

  /** However many rows there are, no sub-query runs more than once. */
  lemma {:induction false} RunsAtMostSize(db: Database, t: Entity, subs: Subqueries, batch: seq<Row>)
    ensures Runs(db, t, subs, batch) <= Size(t, subs)
    decreases subs, 1, 0
  {
    RunsOverAtMostSize(db, EdgesOf(t), subs, batch);
  }

  lemma {:induction false} RunsOverAtMostSize(db: Database, edges: seq<Edge>, subs: Subqueries, batch: seq<Row>)
    ensures RunsOver(db, edges, subs, batch) <= SizeOver(edges, subs)
    decreases subs, 0, |edges|
  {
    if edges != [] {
      var e := edges[|edges| - 1];
      RunsOverAtMostSize(db, edges[..|edges| - 1], subs, batch);
      if e in subs.of {
        RunsAtMostSize(db, Target(e), subs.of[e].edges, Fetched(db, subs.of[e], e, batch));
      }
    }
  }

  lemma {:induction false} NoRows(db: Database, edges: seq<Edge>, subs: Subqueries)
    ensures RunsOver(db, edges, subs, []) == 0
    decreases |edges|
  {
    if edges != [] {
      NoRows(db, edges[..|edges| - 1], subs);
    }
  }

  // --- Fetched rows meet the contract ---

  lemma {:induction false} FirstRowsDistinct(pairs: seq<(int, Row)>)
    ensures DistinctIds(FirstRows(pairs)) && forall x | x in FirstRows(pairs) :: IdOf(x) in SeenIds(pairs)
  {
    if pairs != [] {
      FirstRowsDistinct(pairs[..|pairs| - 1]);
    }
  }

  lemma {:induction false} FirstRowsFrom(pairs: seq<(int, Row)>, x: Row) returns (p: (int, Row))
    requires x in FirstRows(pairs)
    ensures p in pairs && p.1 == x
  {
    p := pairs[|pairs| - 1];
    if p.1 != x {
      p := FirstRowsFrom(pairs[..|pairs| - 1], x);
    }
  }

  lemma JoinRowsMember(db: Database, q: Query, e: Edge, batch: seq<Row>, a: int, x: Row)
    requires Honest(db) && ShapeOf(e).ManyToMany? && q.entity == Target(e)
    requires (a, x) in JoinRows(db, q, e, batch)
    ensures a in Ids(batch) && x in db.enumerate(q.entity, q.order) && RowOk(db, q.entity, x)
  {
    assert JoinOk(db, e, Ids(batch), q.preds, q.order);
    assert (a, x) in db.joined(e, Ids(batch), q.preds, q.order);
    assert RowsOk(db, q.entity, db.enumerate(q.entity, q.order));
  }

  lemma FetchedRowsOk(db: Database, q: Query, e: Edge, batch: seq<Row>)
    requires Honest(db) && q.entity == Target(e)
    ensures RowsOk(db, q.entity, Fetched(db, q, e, batch))
  {
    var table := db.enumerate(q.entity, q.order);
    if ShapeOf(e).ManyToMany? {
      var pairs := JoinRows(db, q, e, batch);
      EdgeEnds(e);
      FirstRowsDistinct(pairs);
      forall x | x in FirstRows(pairs) ensures RowOk(db, q.entity, x) {
        var p := FirstRowsFrom(pairs, x);
        JoinRowsMember(db, q, e, batch, p.0, p.1);
      }
    } else {
      FilterRowsOk(db, q.entity, table, x => Wanted(db, q, e, batch, x));
      WindowRowsOk(db, q.entity, Filter(table, x => Wanted(db, q, e, batch, x)), q.offset, q.limit);
    }
  }
}
