/** The contract assumed of the graph library and the database behind it. */
module SqlGraph {
  import opened Collections
  import opened Schema

  /** `enumerate(t, order)` is table `t` in the given order; `holds` decides a caller's predicate on a row;
      `joined` answers the join of a many-to-many load with pairs (owner id, target row). */
  datatype Database = Database(
    columns: Entity -> seq<Column>,
    enumerate: (Entity, seq<nat>) -> seq<Row>,
    holds: (nat, Row) -> bool,
    joined: (Edge, seq<int>, seq<Pred>, seq<nat>) -> seq<(int, Row)>)

  predicate Meets(db: Database, p: Pred, row: Row) {
    match p
    case User(token) => db.holds(token, row)
    case IdIn(ids) => IdOf(row) in ids
    case KeyIn(fk, keys) => Key(row, fk).Some? && Key(row, fk).value in keys
  }

  predicate Sat(db: Database, preds: seq<Pred>, row: Row) {
    forall p | p in preds :: Meets(db, p, row)
  }

  /** The predicates of a query, cell by cell; the join entity has no id, which reads as zero. */
  ghost predicate Passes(db: Database, preds: seq<Pred>, x: Row) {
    && (forall token | User(token) in preds :: db.holds(token, x))
    && (forall ids | IdIn(ids) in preds :: (if Id in x && x[Id].Int? then x[Id].n else 0) in ids)
    && (forall fk, keys | KeyIn(fk, keys) in preds :: fk in x && x[fk].Int? && x[fk].n in keys)
  }

  lemma SatIsPasses(db: Database, preds: seq<Pred>, x: Row)
    ensures Sat(db, preds, x) <==> Passes(db, preds, x)
  {
    if Passes(db, preds, x) {
      forall p | p in preds ensures Meets(db, p, x) {
        assert p.User? ==> User(p.token) in preds;
        assert p.IdIn? ==> IdIn(p.ids) in preds;
        assert p.KeyIn? ==> KeyIn(p.fk, p.keys) in preds;
      }
    }
  }

  /** QueryNodes: the rows meeting every predicate, in order, cut by Offset and Limit. */
  function QueryNodes(db: Database, q: Query): seq<Row> {
    Window(Filter(db.enumerate(q.entity, q.order), row => Sat(db, q.preds, row)), q.offset, q.limit)
  }

  /** The join table links owner `a` to target `b` along a many-to-many edge. */
  ghost predicate Linked(db: Database, e: Edge, a: int, b: int)
    requires ShapeOf(e).ManyToMany?
  {
    exists link | link in db.enumerate(AccountGroup, []) ::
      Key(link, ShapeOf(e).outer) == Some(a) && Key(link, ShapeOf(e).inner) == Some(b)
  }

  ghost function SeenIds(pairs: seq<(int, Row)>): set<int> {
    if pairs == [] then {} else SeenIds(pairs[..|pairs| - 1]) + {IdOf(pairs[|pairs| - 1].1)}
  }

  /** The joined rows, each target kept at its first appearance. */
  ghost function FirstRows(pairs: seq<(int, Row)>): seq<Row> {
    if pairs == [] then [] else
    var rest := FirstRows(pairs[..|pairs| - 1]);
    var x := pairs[|pairs| - 1].1;
    if IdOf(x) in SeenIds(pairs[..|pairs| - 1]) then rest else rest + [x]
  }

  // --- What is assumed of a database ---

  ghost predicate RowOk(db: Database, t: Entity, row: Row) {
    && (forall c | c in db.columns(t) :: c in row)
    && (HasId(t) ==> Id in row && row[Id].Int?)
    && (forall c | c in row && Required(t, c) :: row[c].Int?)
  }

  ghost predicate DistinctIds(rows: seq<Row>) {
    forall i, j | 0 <= i < j < |rows| :: IdOf(rows[i]) != IdOf(rows[j])
  }

  /** The primary key of the join entity. */
  function PairOf(row: Row): (Option<int>, Option<int>) {
    (Key(row, AccountId), Key(row, GroupId))
  }

  ghost predicate DistinctPairs(rows: seq<Row>) {
    forall i, j | 0 <= i < j < |rows| :: PairOf(rows[i]) != PairOf(rows[j])
  }

  /** Different primary keys. */
  ghost predicate DistinctKeys(t: Entity, rows: seq<Row>) {
    if HasId(t) then DistinctIds(rows) else DistinctPairs(rows)
  }

  /** Well-formed rows with different primary keys. */
  ghost predicate RowsOk(db: Database, t: Entity, rows: seq<Row>) {
    && (forall row | row in rows :: RowOk(db, t, row))
    && DistinctKeys(t, rows)
  }

  /** The tables have the columns that ids and foreign keys are read from, the id column first. */
  ghost predicate ColumnsOk(db: Database) {
    && (forall t | HasId(t) :: db.columns(t) != [] && db.columns(t)[0] == Id && Id !in db.columns(t)[1..])
    && (forall e | ShapeOf(e).ManyToOne? :: ShapeOf(e).fk in db.columns(Owner(e)))
    && (forall e | ShapeOf(e).OneToMany? :: ShapeOf(e).fk in db.columns(Target(e)))
  }

  /** A join answers with exactly the linked pairs of requested owners and satisfying targets: any number of
      times each and in any order, except that targets first appear in the query's order. */
  ghost predicate JoinOk(db: Database, e: Edge, ids: seq<int>, preds: seq<Pred>, order: seq<nat>)
    requires ShapeOf(e).ManyToMany?
  {
    var answer := db.joined(e, ids, preds, order);
    var table := db.enumerate(Target(e), order);
    && (forall a, row :: (a, row) in answer <==>
          a in ids && row in table && Sat(db, preds, row) && Linked(db, e, a, IdOf(row)))
    && FirstRows(answer) == Filter(table, row => exists a :: (a, row) in answer)
  }

  ghost predicate Honest(db: Database) {
    && ColumnsOk(db)
    && (forall t, order :: RowsOk(db, t, db.enumerate(t, order)))
    && (forall e, ids, preds, order | ShapeOf(e).ManyToMany? :: JoinOk(db, e, ids, preds, order))
  }

  lemma WindowRowsOk(db: Database, t: Entity, rows: seq<Row>, offset: nat, limit: nat)
    requires RowsOk(db, t, rows)
    ensures RowsOk(db, t, Window(rows, offset, limit))
  {
  }

  lemma FilterRowsOk(db: Database, t: Entity, rows: seq<Row>, p: Row -> bool)
    requires RowsOk(db, t, rows)
    ensures RowsOk(db, t, Filter(rows, p))
  {
    forall row | row in Filter(rows, p) ensures RowOk(db, t, row) {
      FilterMember(rows, p, row);
    }
    if HasId(t) {
      FilterDistinctBy(rows, p, IdOf);
    } else {
      FilterDistinctBy(rows, p, PairOf);
    }
  }

  lemma QueryRowsOk(db: Database, q: Query)
    requires Honest(db)
    ensures RowsOk(db, q.entity, QueryNodes(db, q))
  {
    var table := db.enumerate(q.entity, q.order);
    FilterRowsOk(db, q.entity, table, row => Sat(db, q.preds, row));
    WindowRowsOk(db, q.entity, Filter(table, row => Sat(db, q.preds, row)), q.offset, q.limit);
  }
}
