/** Batched eager loading returns the naive graph; exactly when a sub-query's Limit breaks this. */
module EagerTheorems {
  import opened Collections
  import opened Schema
  import opened SqlGraph
  import opened Projection
  import opened EagerSpec
  import opened Trees

  lemma SameIdSameRow(db: Database, t: Entity, order: seq<nat>, x: Row, y: Row)
    requires Honest(db) && HasId(t) && IdOf(x) == IdOf(y)
    requires x in db.enumerate(t, order) && y in db.enumerate(t, order)
    ensures x == y
  {
    var table := db.enumerate(t, order);
    assert RowsOk(db, t, table);
    var i :| 0 <= i < |table| && table[i] == x;
    var j :| 0 <= j < |table| && table[j] == y;
  }

  lemma JoinedPair(db: Database, q: Query, e: Edge, batch: seq<Row>, row: Row, x: Row)
    requires Honest(db) && ShapeOf(e).ManyToMany? && q.entity == Target(e) && q.limit == 0 && q.offset == 0
    requires row in batch && x in db.enumerate(q.entity, q.order)
    ensures Owns(db, q, e, batch, row, x) <==> Sat(db, q.preds, x) && Linked(db, e, IdOf(row), IdOf(x))
    ensures Owns(db, q, e, batch, row, x) ==> (IdOf(row), x) in JoinRows(db, q, e, batch)
  {
    assert JoinOk(db, e, Ids(batch), q.preds, q.order);
    var i :| 0 <= i < |batch| && batch[i] == row;
    assert Ids(batch)[i] == IdOf(row);
    if Owns(db, q, e, batch, row, x) {
      var y :| (IdOf(row), y) in JoinRows(db, q, e, batch) && IdOf(y) == IdOf(x);
      EdgeEnds(e);
      SameIdSameRow(db, q.entity, q.order, x, y);
    }
  }

  /** Without a window, the joined targets are the satisfying rows linked to some owner of the batch. */
  lemma JoinFetched(db: Database, q: Query, e: Edge, batch: seq<Row>)
    requires Honest(db) && ShapeOf(e).ManyToMany? && q.entity == Target(e) && q.limit == 0 && q.offset == 0
    ensures Fetched(db, q, e, batch) ==
      Filter(db.enumerate(q.entity, q.order), x => exists row | row in batch :: Owns(db, q, e, batch, row, x))
  {
    var table := db.enumerate(q.entity, q.order);
    var answer := db.joined(e, Ids(batch), q.preds, q.order);
    assert JoinOk(db, e, Ids(batch), q.preds, q.order);
    forall x | x in table
      ensures (exists a :: (a, x) in answer) <==> exists row | row in batch :: Owns(db, q, e, batch, row, x)
    {
      if a :| (a, x) in answer {
        var i :| 0 <= i < |Ids(batch)| && Ids(batch)[i] == a;
        JoinedPair(db, q, e, batch, batch[i], x);
      }
      if row :| row in batch && Owns(db, q, e, batch, row, x) {
        JoinedPair(db, q, e, batch, row, x);
      }
    }
    FilterSame(table, x => exists a :: (a, x) in answer,
               x => exists row | row in batch :: Owns(db, q, e, batch, row, x));
  }

  /** Along a join, the batch's targets that are paired with a node are those of the node's own join. */
  lemma JoinedIsLookup(db: Database, q: Query, e: Edge, batch: seq<Row>, row: Row)
    requires Honest(db) && q.entity == Target(e) && q.limit == 0 && q.offset == 0 && row in batch && ShapeOf(e).ManyToMany?
    ensures Owned(db, q, e, batch, row) == Fetched(db, q, e, [row])
  {
    var table := db.enumerate(q.entity, q.order);
    JoinFetched(db, q, e, batch);
    JoinFetched(db, q, e, [row]);
    forall x | x in table
      ensures Owns(db, q, e, batch, row, x) == exists r | r in [row] :: Owns(db, q, e, [row], r, x)
    {
      JoinedPair(db, q, e, batch, row, x);
      JoinedPair(db, q, e, [row], row, x);
      assert row in [row];
    }
    FilterTwice(table, x => exists r | r in batch :: Owns(db, q, e, batch, r, x), x => Owns(db, q, e, batch, row, x),
                x => exists r | r in [row] :: Owns(db, q, e, [row], r, x));
  }

  /** Scattering the batch's neighbours gives each node what its own lookup returns, in the same order. */
  lemma OwnedIsLookup(db: Database, q: Query, e: Edge, batch: seq<Row>, row: Row)
    requires Honest(db) && q.entity == Target(e) && q.limit == 0 && q.offset == 0 && row in batch
    ensures Owned(db, q, e, batch, row) == Fetched(db, q, e, [row])
  {
    if ShapeOf(e).ManyToMany? {
      JoinedIsLookup(db, q, e, batch, row);
    } else {
      assert row in [row];
      FilterTwice(db.enumerate(q.entity, q.order), x => Wanted(db, q, e, batch, x), x => Owns(db, q, e, batch, row, x),
                  x => Wanted(db, q, e, [row], x));
    }
  }

  /** Every fetched neighbour is wanted by some node of the batch. */
  lemma FetchedHasOwner(db: Database, q: Query, e: Edge, batch: seq<Row>, x: Row) returns (row: Row)
    requires Honest(db) && q.entity == Target(e) && q.limit == 0 && q.offset == 0
    requires x in Fetched(db, q, e, batch)
    ensures row in batch && x in Fetched(db, q, e, [row]) && Performed(e, [row])
  {
    var table := db.enumerate(q.entity, q.order);
    if ShapeOf(e).ManyToMany? {
      JoinFetched(db, q, e, batch);
      FilterMember(table, x => exists r | r in batch :: Owns(db, q, e, batch, r, x), x);
      row :| row in batch && Owns(db, q, e, batch, row, x);
    } else {
      FilterMember(table, x => Wanted(db, q, e, batch, x), x);
      row :| row in batch && Relates(e, row, x);
    }
    assert row in [row];
    OwnedIsLookup(db, q, e, batch, row);
    FilterMember(Fetched(db, q, e, batch), x => Owns(db, q, e, batch, row, x), x);
  }

  /** The trees of one edge, loaded for a whole batch, are those that the node's own lookup gives. */
  lemma {:induction false} EdgeIsNaive(db: Database, e: Edge, q: Query, batch: seq<Row>, row: Row)
    requires Honest(db) && q.entity == Target(e) && q.limit == 0 && q.offset == 0 && row in batch
    requires WellTyped(Target(e), q.edges) && Unbounded(q.edges)
    ensures BatchTrees(db, q.edges, ColumnsVia(db, e, q), Fetched(db, q, e, batch), Owned(db, q, e, batch, row)) ==
            NaiveTrees(db, q.edges, ColumnsVia(db, e, q), Fetched(db, q, e, [row]))
    decreases q
  {
    var owned, fetched, cols := Owned(db, q, e, batch, row), Fetched(db, q, e, batch), ColumnsVia(db, e, q);
    OwnedIsLookup(db, q, e, batch, row);
    forall i | 0 <= i < |owned|
      ensures BatchTree(db, q.edges, cols, fetched, owned[i]) == NaiveTree(db, q.edges, cols, owned[i])
    {
      FilterMember(fetched, x => Owns(db, q, e, batch, row, x), owned[i]);
      BatchIsNaive(db, Target(e), q.edges, cols, fetched, owned[i]);
    }
  }

  lemma SlotIsNaive(db: Database, subs: Subqueries, cols: seq<Column>, batch: seq<Row>, row: Row, e: Edge, q: Query)
    requires e in subs.of && subs.of[e] == q
    requires BatchTrees(db, q.edges, ColumnsVia(db, e, q), Fetched(db, q, e, batch), Owned(db, q, e, batch, row)) ==
             NaiveTrees(db, q.edges, ColumnsVia(db, e, q), Fetched(db, q, e, [row]))
    ensures BatchTree(db, subs, cols, batch, row).slots[e] == NaiveTree(db, subs, cols, row).slots[e]
  {
  }

  lemma SameTree(a: Tree, b: Tree)
    requires a.row == b.row && a.slots.Keys == b.slots.Keys && forall e | e in a.slots :: a.slots[e] == b.slots[e]
    ensures a == b
  {
    assert a.slots == b.slots;
  }

  /** Main result: for every tree of sub-queries without Limit or Offset, one query per edge returns the graph of
      one lookup per node and edge. */
  lemma {:induction false} BatchIsNaive(db: Database, t: Entity, subs: Subqueries, cols: seq<Column>,
                                        batch: seq<Row>, row: Row)
    requires Honest(db) && WellTyped(t, subs) && Unbounded(subs) && row in batch
    ensures BatchTree(db, subs, cols, batch, row) == NaiveTree(db, subs, cols, row)
    decreases subs
  {
    forall e | e in subs.of
      ensures BatchTree(db, subs, cols, batch, row).slots[e] == NaiveTree(db, subs, cols, row).slots[e]
    {
      EdgeIsNaive(db, e, subs.of[e], batch, row);
      SlotIsNaive(db, subs, cols, batch, row, e, subs.of[e]);
    }
    SameTree(BatchTree(db, subs, cols, batch, row), NaiveTree(db, subs, cols, row));
  }

  /** The batched load fails exactly when some node's naive lookups do. */
  lemma {:induction false} BatchFailsIffNaive(db: Database, t: Entity, subs: Subqueries, batch: seq<Row>)
    requires Honest(db) && WellTyped(t, subs) && Unbounded(subs)
    ensures BatchFails(db, subs, batch) <==> exists row | row in batch :: NaiveFails(db, subs, row)
    decreases subs
  {
    forall e | e in subs.of
      ensures EdgeFails(db, subs.of[e], e, batch) <==> exists row | row in batch :: NaiveEdgeFails(db, subs.of[e], e, row)
    {
      var q := subs.of[e];
      BatchFailsIffNaive(db, Target(e), q.edges, Fetched(db, q, e, batch));
      if EdgeFails(db, q, e, batch) {
        var row := NaiveNodeFails(db, q, e, batch);
      }
      if row :| row in batch && NaiveEdgeFails(db, q, e, row) {
        BatchNodeFails(db, q, e, batch, row);
      }
    }
    if BatchFails(db, subs, batch) {
      var e :| e in subs.of && EdgeFails(db, subs.of[e], e, batch);
      var row :| row in batch && NaiveEdgeFails(db, subs.of[e], e, row);
      assert NaiveFails(db, subs, row);
    }
    if row :| row in batch && NaiveFails(db, subs, row) {
      var e :| e in subs.of && NaiveEdgeFails(db, subs.of[e], e, row);
      assert EdgeFails(db, subs.of[e], e, batch);
    }
  }

  lemma NaiveNodeFails(db: Database, q: Query, e: Edge, batch: seq<Row>) returns (row: Row)
    requires Honest(db) && q.entity == Target(e) && q.limit == 0 && q.offset == 0 && EdgeFails(db, q, e, batch)
    requires BatchFails(db, q.edges, Fetched(db, q, e, batch)) ==>
      exists x | x in Fetched(db, q, e, batch) :: NaiveFails(db, q.edges, x)
    ensures row in batch && NaiveEdgeFails(db, q, e, row)
  {
    if !BadFields(db, q) {
      var x :| x in Fetched(db, q, e, batch) && NaiveFails(db, q.edges, x);
      row := FetchedHasOwner(db, q, e, batch, x);
    } else if ShapeOf(e).ManyToOne? {
      row :| row in batch && Key(row, ShapeOf(e).fk).Some?;
      assert row in [row];
      assert Performed(e, [row]);
    } else {
      row := batch[0];
      assert Performed(e, [row]);
    }
  }

  lemma BatchNodeFails(db: Database, q: Query, e: Edge, batch: seq<Row>, row: Row)
    requires Honest(db) && q.entity == Target(e) && q.limit == 0 && q.offset == 0
    requires row in batch && NaiveEdgeFails(db, q, e, row)
    requires (exists x | x in Fetched(db, q, e, batch) :: NaiveFails(db, q.edges, x)) ==>
      BatchFails(db, q.edges, Fetched(db, q, e, batch))
    ensures EdgeFails(db, q, e, batch)
  {
    assert Performed(e, batch);
    if !BadFields(db, q) {
      var x :| x in Fetched(db, q, e, [row]) && NaiveFails(db, q.edges, x);
      OwnedIsLookup(db, q, e, batch, row);
      FilterMember(Fetched(db, q, e, batch), x => Owns(db, q, e, batch, row, x), x);
    }
  }

  // --- What the trees hold, without column lists ---

  /** Every column that was asked for, all of them without a selection, was read. */
  ghost predicate HasColumns(db: Database, t: Entity, fields: seq<Column>, row: Row, read: Row) {
    forall c | c in db.columns(t) && (fields == [] || c in fields) :: c in row && c in read && read[c] == row[c]
  }

  lemma CoveredColumns(db: Database, t: Entity, fields: seq<Column>, cols: seq<Column>, row: Row)
    requires RowOk(db, t, row) && Covers(db, t, fields, cols)
    ensures HasColumns(db, t, fields, row, Project(row, cols))
  {
  }

  /** The tree has every column of the row that was asked for, and in each requested slot what the edge's lookup finds for
      the row alone: the first row or none on a to-one edge, all rows in order on a list edge. */
  ghost predicate Depicts(db: Database, t: Entity, fields: seq<Column>, subs: Subqueries, row: Row, tree: Tree)
    decreases subs, 1
  {
    && HasColumns(db, t, fields, row, tree.row)
    && tree.slots.Keys == subs.of.Keys
    && forall e | e in subs.of :: SlotDepicts(db, e, subs.of[e], Fetched(db, subs.of[e], e, [row]), tree.slots[e])
  }

  ghost predicate SlotDepicts(db: Database, e: Edge, q: Query, found: seq<Row>, slot: Slot)
    decreases q, 0
  {
    if ShapeOf(e).ManyToOne? then
      if found == [] then slot == Missing
      else slot.Single? && Depicts(db, Target(e), q.fields, q.edges, found[0], slot.tree)
    else
      slot.Many? && |slot.trees| == |found| &&
      forall i | 0 <= i < |found| :: Depicts(db, Target(e), q.fields, q.edges, found[i], slot.trees[i])
  }

  ghost predicate Covers(db: Database, t: Entity, fields: seq<Column>, cols: seq<Column>) {
    forall c | c in db.columns(t) && (fields == [] || c in fields) :: c in cols
  }

  lemma CoversLinked(db: Database, e: Edge, q: Query)
    requires q.entity == Target(e)
    ensures Covers(db, Target(e), q.fields, ColumnsVia(db, e, q))
  {
    forall c | c in db.columns(Target(e)) && (q.fields == [] || c in q.fields) ensures c in ColumnsVia(db, e, q) {
      LinkedKept(db, e, q.fields, q.edges, map[c := Null], c);
    }
  }

  lemma CoversOwn(db: Database, t: Entity, fields: seq<Column>, subs: Subqueries)
    ensures Covers(db, t, fields, ColumnsOf(db, t, fields, subs))
  {
    forall c | c in db.columns(t) && (fields == [] || c in fields) ensures c in ColumnsOf(db, t, fields, subs) {
      RequestedKept(db, t, fields, subs, map[c := Null], c);
    }
  }

  /** The naive tree is such a tree. */
  lemma {:induction false} NaiveDepicts(db: Database, t: Entity, fields: seq<Column>, subs: Subqueries, cols: seq<Column>, row: Row)
    requires Honest(db) && WellTyped(t, subs) && RowOk(db, t, row) && Covers(db, t, fields, cols)
    ensures Depicts(db, t, fields, subs, row, NaiveTree(db, subs, cols, row))
    decreases subs, 1
  {
    CoveredColumns(db, t, fields, cols, row);
    forall e | e in subs.of
      ensures SlotDepicts(db, e, subs.of[e], Fetched(db, subs.of[e], e, [row]), NaiveTree(db, subs, cols, row).slots[e])
    {
      NaiveSlotDepicts(db, e, subs.of[e], Fetched(db, subs.of[e], e, [row]), [row]);
    }
  }

  lemma {:induction false} NaiveSlotDepicts(db: Database, e: Edge, q: Query, found: seq<Row>, batch: seq<Row>)
    requires Honest(db) && q.entity == Target(e) && WellTyped(Target(e), q.edges) && found == Fetched(db, q, e, batch)
    ensures SlotDepicts(db, e, q, found, SlotOf(e, NaiveTrees(db, q.edges, ColumnsVia(db, e, q), found)))
    decreases q, 0
  {
    FetchedRowsOk(db, q, e, batch);
    CoversLinked(db, e, q);
    forall i | 0 <= i < |found|
      ensures Depicts(db, Target(e), q.fields, q.edges, found[i], NaiveTrees(db, q.edges, ColumnsVia(db, e, q), found)[i])
    {
      assert found[i] in found;
      NaiveDepicts(db, Target(e), q.fields, q.edges, ColumnsVia(db, e, q), found[i]);
    }
  }

  /** The same of a batch, where a node's list is its part of what the batch fetched. */
  ghost predicate BatchDepicts(db: Database, t: Entity, fields: seq<Column>, subs: Subqueries, batch: seq<Row>, row: Row, tree: Tree)
    decreases subs, 1
  {
    && HasColumns(db, t, fields, row, tree.row)
    && tree.slots.Keys == subs.of.Keys
    && forall e | e in subs.of ::
         BatchSlotDepicts(db, e, subs.of[e], Fetched(db, subs.of[e], e, batch), Owned(db, subs.of[e], e, batch, row), tree.slots[e])
  }

  ghost predicate BatchSlotDepicts(db: Database, e: Edge, q: Query, batch: seq<Row>, found: seq<Row>, slot: Slot)
    decreases q, 0
  {
    if ShapeOf(e).ManyToOne? then
      if found == [] then slot == Missing
      else slot.Single? && BatchDepicts(db, Target(e), q.fields, q.edges, batch, found[0], slot.tree)
    else
      slot.Many? && |slot.trees| == |found| &&
      forall i | 0 <= i < |found| :: BatchDepicts(db, Target(e), q.fields, q.edges, batch, found[i], slot.trees[i])
  }

  lemma {:induction false} BatchTreeDepicts(db: Database, t: Entity, fields: seq<Column>, subs: Subqueries, cols: seq<Column>,
                                            batch: seq<Row>, row: Row)
    requires Honest(db) && WellTyped(t, subs) && RowOk(db, t, row) && Covers(db, t, fields, cols)
    ensures BatchDepicts(db, t, fields, subs, batch, row, BatchTree(db, subs, cols, batch, row))
    decreases subs, 1
  {
    CoveredColumns(db, t, fields, cols, row);
    forall e | e in subs.of
      ensures BatchSlotDepicts(db, e, subs.of[e], Fetched(db, subs.of[e], e, batch), Owned(db, subs.of[e], e, batch, row),
                               BatchTree(db, subs, cols, batch, row).slots[e])
    {
      BatchSlotDepicted(db, e, subs.of[e], batch, row);
    }
  }

  lemma {:induction false} BatchSlotDepicted(db: Database, e: Edge, q: Query, batch: seq<Row>, row: Row)
    requires Honest(db) && q.entity == Target(e) && WellTyped(Target(e), q.edges)
    ensures var fetched, found := Fetched(db, q, e, batch), Owned(db, q, e, batch, row);
      BatchSlotDepicts(db, e, q, fetched, found, SlotOf(e, BatchTrees(db, q.edges, ColumnsVia(db, e, q), fetched, found)))
    decreases q, 0
  {
    var fetched, found, cols := Fetched(db, q, e, batch), Owned(db, q, e, batch, row), ColumnsVia(db, e, q);
    FetchedRowsOk(db, q, e, batch);
    CoversLinked(db, e, q);
    forall i | 0 <= i < |found|
      ensures BatchDepicts(db, Target(e), q.fields, q.edges, fetched, found[i], BatchTrees(db, q.edges, cols, fetched, found)[i])
    {
      FilterMember(fetched, x => Owns(db, q, e, batch, row, x), found[i]);
      BatchTreeDepicts(db, Target(e), q.fields, q.edges, cols, fetched, found[i]);
    }
  }

  // --- What a lookup finds, in terms of cells ---

  /** The cells that connect two rows along an edge. */
  ghost predicate Connected(db: Database, e: Edge, row: Row, x: Row) {
    match ShapeOf(e)
    case ManyToOne(fk, _) => fk in row && row[fk].Int? && Id in x && x[Id] == row[fk]
    case OneToMany(fk, _) => fk in x && Id in row && x[fk] == row[Id]
    case ManyToMany(outer, inner) =>
      exists link | link in db.enumerate(AccountGroup, []) ::
        outer in link && inner in link && Id in row && Id in x && link[outer] == row[Id] && link[inner] == x[Id]
  }

  lemma JoinedFinds(db: Database, q: Query, e: Edge, row: Row, x: Row)
    requires Honest(db) && q.entity == Target(e) && ShapeOf(e).ManyToMany? && q.limit == 0 && q.offset == 0
    requires x in db.enumerate(q.entity, q.order) && RowOk(db, Owner(e), row)
    ensures x in Fetched(db, q, e, [row]) <==> Sat(db, q.preds, x) && Connected(db, e, row, x)
  {
    EdgeEnds(e);
    assert RowsOk(db, q.entity, db.enumerate(q.entity, q.order));
    assert RowsOk(db, AccountGroup, db.enumerate(AccountGroup, []));
    JoinFetched(db, q, e, [row]);
    assert row in [row];
    JoinedPair(db, q, e, [row], row, x);
    FilterMember(db.enumerate(q.entity, q.order), x => exists r | r in [row] :: Owns(db, q, e, [row], r, x), x);
    LinkedCells(db, e, row, x);
  }

  lemma LinkedCells(db: Database, e: Edge, row: Row, x: Row)
    requires ShapeOf(e).ManyToMany? && Id in row && row[Id].Int? && Id in x && x[Id].Int?
    ensures Linked(db, e, IdOf(row), IdOf(x)) <==> Connected(db, e, row, x)
  {
  }

  lemma RelatedCells(db: Database, e: Edge, row: Row, x: Row)
    requires !ShapeOf(e).ManyToMany? && RowOk(db, Owner(e), row) && RowOk(db, Target(e), x)
    ensures Relates(e, row, x) <==> Connected(db, e, row, x)
  {
    EdgeEnds(e);
  }

  lemma KeyedFinds(db: Database, q: Query, e: Edge, row: Row, x: Row)
    requires Honest(db) && q.entity == Target(e) && !ShapeOf(e).ManyToMany? && q.limit == 0 && q.offset == 0
    requires x in db.enumerate(q.entity, q.order) && RowOk(db, Owner(e), row)
    ensures x in Fetched(db, q, e, [row]) <==> Sat(db, q.preds, x) && Connected(db, e, row, x)
  {
    assert RowsOk(db, q.entity, db.enumerate(q.entity, q.order));
    assert row in [row];
    FilterMember(db.enumerate(q.entity, q.order), x => Wanted(db, q, e, [row], x), x);
    RelatedCells(db, e, row, x);
  }

  lemma FetchedInTable(db: Database, q: Query, e: Edge, batch: seq<Row>, x: Row)
    requires Honest(db) && q.entity == Target(e) && x in Fetched(db, q, e, batch)
    ensures x in db.enumerate(q.entity, q.order)
  {
    if ShapeOf(e).ManyToMany? {
      var p := FirstRowsFrom(JoinRows(db, q, e, batch), x);
      JoinRowsMember(db, q, e, batch, p.0, p.1);
    } else {
      FilterMember(db.enumerate(q.entity, q.order), x => Wanted(db, q, e, batch, x), x);
    }
  }

  /** A lookup for one row finds exactly the rows of the edge's target that pass the query's predicates and are connected
      to it: by the foreign key, or by a row of the join table. */
  lemma LookupFinds(db: Database, q: Query, e: Edge, row: Row, x: Row)
    requires Honest(db) && q.entity == Target(e) && q.limit == 0 && q.offset == 0 && RowOk(db, Owner(e), row)
    ensures x in Fetched(db, q, e, [row]) <==>
      x in db.enumerate(Target(e), q.order) && Passes(db, q.preds, x) && Connected(db, e, row, x)
  {
    SatIsPasses(db, q.preds, x);
    if x in Fetched(db, q, e, [row]) {
      FetchedInTable(db, q, e, [row], x);
    }
    if x in db.enumerate(q.entity, q.order) {
      if ShapeOf(e).ManyToMany? {
        JoinedFinds(db, q, e, row, x);
      } else {
        KeyedFinds(db, q, e, row, x);
      }
    }
  }

  /** Without a window it finds them in the order of the query. */
  lemma LookupOrdered(db: Database, q: Query, e: Edge, row: Row)
    requires Honest(db) && q.entity == Target(e) && q.limit == 0 && q.offset == 0 && RowOk(db, Owner(e), row)
    ensures Fetched(db, q, e, [row]) ==
      Filter(db.enumerate(Target(e), q.order), x => Passes(db, q.preds, x) && Connected(db, e, row, x))
  {
    var table, found := db.enumerate(q.entity, q.order), Fetched(db, q, e, [row]);
    forall x | x in table ensures x in found <==> Passes(db, q.preds, x) && Connected(db, e, row, x) {
      LookupFinds(db, q, e, row, x);
    }
    if ShapeOf(e).ManyToMany? {
      JoinFetched(db, q, e, [row]);
      FilterOfMembers(table, x => exists r | r in [row] :: Owns(db, q, e, [row], r, x), found);
    } else {
      assert found == Filter(table, x => Wanted(db, q, e, [row], x));
      FilterOfMembers(table, x => Wanted(db, q, e, [row], x), found);
    }
    FilterSame(table, x => x in found, x => Passes(db, q.preds, x) && Connected(db, e, row, x));
  }

  lemma FilterOfMembers<T>(xs: seq<T>, p: T -> bool, found: seq<T>)
    requires found == Filter(xs, p)
    ensures found == Filter(xs, x => x in found)
  {
    forall x | x in xs ensures p(x) <==> x in found {
      FilterMember(xs, p, x);
    }
    FilterSame(xs, p, x => x in found);
  }

  /** Some lookup for one of the rows fails. */
  ghost predicate SomeFails(db: Database, subs: Subqueries, rows: seq<Row>) {
    exists x, e | x in rows && e in subs.of :: NaiveEdgeFails(db, subs.of[e], e, x)
  }

  lemma NodesFail(db: Database, subs: Subqueries, rows: seq<Row>)
    ensures SomeFails(db, subs, rows) <==> exists x | x in rows :: NaiveFails(db, subs, x)
  {
    if x, e :| x in rows && e in subs.of && NaiveEdgeFails(db, subs.of[e], e, x) {
      assert NaiveFails(db, subs, x);
    }
  }

  lemma OnePerformed(e: Edge, row: Row)
    ensures Performed(e, [row]) <==> (ShapeOf(e).ManyToOne? ==> ShapeOf(e).fk in row && row[ShapeOf(e).fk].Int?)
  {
    assert row in [row] && [row] != [];
  }

  /** A lookup fails when it is made, which on a to-one edge takes a key, and names a field that its target does not have,
      or when a lookup below fails for a row that it finds. */
  lemma FailureMeans(db: Database, q: Query, e: Edge, row: Row)
    requires q.entity == Target(e)
    ensures NaiveEdgeFails(db, q, e, row) <==>
      && (ShapeOf(e).ManyToOne? ==> ShapeOf(e).fk in row && row[ShapeOf(e).fk].Int?)
      && ((exists c | c in q.fields :: c !in db.columns(Target(e))) || SomeFails(db, q.edges, Fetched(db, q, e, [row])))
  {
    OnePerformed(e, row);
    NodesFail(db, q.edges, Fetched(db, q, e, [row]));
  }

  // --- What the slots of a batch hold together ---

  /** No list holds a neighbour twice, and each keeps the fetched order (it is a filter of the fetched list). */
  lemma OwnedDistinct(db: Database, q: Query, e: Edge, batch: seq<Row>, owner: Row)
    requires Honest(db) && q.entity == Target(e)
    ensures DistinctKeys(q.entity, Owned(db, q, e, batch, owner))
  {
    FetchedRowsOk(db, q, e, batch);
    FilterRowsOk(db, q.entity, Fetched(db, q, e, batch), x => Owns(db, q, e, batch, owner, x));
  }

  ghost function OwnerTests(db: Database, q: Query, e: Edge, batch: seq<Row>): (r: seq<Row -> bool>)
    ensures |r| == |batch| && forall i | 0 <= i < |batch| :: r[i] == (x => Owns(db, q, e, batch, batch[i], x))
  {
    seq(|batch|, i requires 0 <= i < |batch| => x => Owns(db, q, e, batch, batch[i], x))
  }

  /** One-to-many: every fetched row goes into exactly one list, so the list lengths add up to the fetched rows, with
      or without a Limit. */
  lemma OneToManyPartitions(db: Database, q: Query, e: Edge, batch: seq<Row>)
    requires ShapeOf(e).OneToMany? && DistinctIds(batch)
    ensures Spread(Fetched(db, q, e, batch), OwnerTests(db, q, e, batch)) == |Fetched(db, q, e, batch)|
  {
    var fetched, tests := Fetched(db, q, e, batch), OwnerTests(db, q, e, batch);
    var table := db.enumerate(q.entity, q.order);
    forall x | x in fetched ensures Hits(x, tests) == 1 {
      WindowMember(Filter(table, x => Wanted(db, q, e, batch, x)), q.offset, q.limit, x);
      FilterMember(table, x => Wanted(db, q, e, batch, x), x);
      var owner :| owner in batch && Relates(e, owner, x);
      var i :| 0 <= i < |batch| && batch[i] == owner;
      OneHit(x, tests, i);
    }
    SpreadIsWhole(fetched, tests);
  }

  // --- Windows on sub-queries ---

  /** Cutting a list to `n` and then filtering gives the same as filtering and then cutting: nothing is cut off, or
      nothing relevant, or everything before the cut is relevant. Zero is no limit. */
  ghost predicate CutsAgree<T>(xs: seq<T>, n: nat, p: T -> bool) {
    || n == 0
    || |xs| <= n
    || (forall x | x in xs[n..] :: !p(x))
    || (forall x | x in xs[..n] :: p(x))
  }

  lemma CutCommutes<T>(xs: seq<T>, n: nat, p: T -> bool)
    ensures Filter(Window(xs, 0, n), p) == Window(Filter(xs, p), 0, n) <==> CutsAgree(xs, n, p)
  {
    if 0 < n < |xs| {
      assert xs == xs[..n] + xs[n..];
      FilterConcat(xs[..n], xs[n..], p);
      FilterNone(xs[n..], p);
      FilterAll(xs[..n], p);
      var kept := Filter(xs[..n], p);
      if Filter(xs[n..], p) == [] {
        assert Filter(xs, p) == kept;
      } else {
        assert Filter(xs, p)[..|kept|] == kept;
      }
    }
  }

  lemma WindowSkips<T>(before: seq<T>, rest: seq<T>, offset: nat, n: nat)
    requires |before| <= offset
    ensures Window(before + rest, offset, n) == Window(rest, offset - |before|, n)
  {
    if offset <= |before + rest| {
      assert (before + rest)[offset..] == rest[offset - |before|..];
    }
  }

  lemma WindowEmpty<T>(xs: seq<T>, offset: nat, n: nat)
    ensures Window(xs, offset, n) == [] <==> |xs| <= offset
    ensures Window(xs, offset, n) != [] ==> Window(xs, offset, n)[0] == xs[offset]
  {
  }

  lemma {:induction false} FilterDistinct<T>(xs: seq<T>, p: T -> bool)
    requires Distinct(xs)
    ensures Distinct(Filter(xs, p))
  {
    FilterDistinctBy(xs, p, (x: T) => x);
  }

  lemma FilterCut<T>(xs: seq<T>, n: nat, p: T -> bool)
    ensures Filter(Window(xs, 0, n), p) <= Filter(xs, p)
  {
    if 0 < n < |xs| {
      assert xs == xs[..n] + xs[n..];
      FilterConcat(xs[..n], xs[n..], p);
    } else {
      assert xs[0..] == xs;
    }
  }

  /** When less than the offset is relevant before it, filtering first skips more: the two lists differ, unless both are
      empty. */
  lemma SkipsMore<T>(rest: seq<T>, more: nat, n: nat, p: T -> bool)
    requires more > 0 && Distinct(rest)
    ensures Filter(Window(rest, 0, n), p) == Window(Filter(rest, p), more, n) <==>
      Filter(Window(rest, 0, n), p) == [] && |Filter(rest, p)| <= more
  {
    var cut, all := Filter(Window(rest, 0, n), p), Filter(rest, p);
    FilterCut(rest, n, p);
    FilterDistinct(rest, p);
    WindowEmpty(all, more, n);
    if cut != [] && |all| > more {
      assert cut[0] == all[0] && all[0] != all[more];
    }
  }

  /** When the window of a list, filtered, is the window of the filtered list. */
  ghost predicate WindowsAgree<T>(xs: seq<T>, offset: nat, n: nat, p: T -> bool) {
    || (offset <= |xs| && (forall x | x in xs[..offset] :: p(x)) && CutsAgree(xs[offset..], n, p))
    || ((forall x | x in Window(xs, offset, n) :: !p(x)) && |Filter(xs, p)| <= offset)
  }

  lemma SplitCommutes<T>(before: seq<T>, rest: seq<T>, n: nat, p: T -> bool)
    requires Distinct(rest)
    ensures Filter(Window(rest, 0, n), p) == Window(Filter(before, p) + Filter(rest, p), |before|, n) <==>
      || (|Filter(before, p)| == |before| && CutsAgree(rest, n, p))
      || (Filter(Window(rest, 0, n), p) == [] && |Filter(before, p)| + |Filter(rest, p)| <= |before|)
  {
    var skipped := |Filter(before, p)|;
    WindowSkips(Filter(before, p), Filter(rest, p), |before|, n);
    if skipped < |before| {
      SkipsMore(rest, |before| - skipped, n, p);
    } else {
      CutCommutes(rest, n, p);
      WindowEmpty(Filter(rest, p), 0, n);
    }
  }

  lemma WindowCommutes<T>(xs: seq<T>, offset: nat, n: nat, p: T -> bool)
    requires Distinct(xs)
    ensures Filter(Window(xs, offset, n), p) == Window(Filter(xs, p), offset, n) <==> WindowsAgree(xs, offset, n, p)
  {
    FilterNone(Window(xs, offset, n), p);
    if offset <= |xs| {
      var before, rest := xs[..offset], xs[offset..];
      assert xs == before + rest && Distinct(rest);
      FilterConcat(before, rest, p);
      FilterAll(before, p);
      WindowSkips(before, rest, offset, n);
      SplitCommutes(before, rest, n, p);
    } else {
      WindowEmpty(xs, offset, n);
      WindowEmpty(Filter(xs, p), offset, n);
    }
  }

  /** The rows that the batch wants along a foreign key, before Offset and Limit. */
  ghost function AllWanted(db: Database, q: Query, e: Edge, batch: seq<Row>): seq<Row>
    requires !ShapeOf(e).ManyToMany?
  {
    Filter(db.enumerate(q.entity, q.order), x => Wanted(db, q, e, batch, x))
  }

  lemma DistinctRows(t: Entity, rows: seq<Row>)
    requires DistinctKeys(t, rows)
    ensures Distinct(rows)
  {
  }

  /** A node gets what its own lookup with the same Offset and Limit returns exactly when, in the batch's neighbours,
      everything before the offset is the node's and the cuts at the limit agree; or nothing in the window is the node's,
      and it has no more neighbours than the offset skips. */
  lemma WindowedForeignKey(db: Database, q: Query, e: Edge, batch: seq<Row>, row: Row)
    requires Honest(db) && q.entity == Target(e) && !ShapeOf(e).ManyToMany? && row in batch
    ensures Owned(db, q, e, batch, row) == Fetched(db, q, e, [row]) <==>
      WindowsAgree(AllWanted(db, q, e, batch), q.offset, q.limit, x => Relates(e, row, x))
  {
    var table := db.enumerate(q.entity, q.order);
    var all, p := AllWanted(db, q, e, batch), x => Relates(e, row, x);
    assert row in [row];
    FilterTwice(table, x => Wanted(db, q, e, batch, x), p, x => Wanted(db, q, e, [row], x));
    FilterRowsOk(db, q.entity, table, x => Wanted(db, q, e, batch, x));
    DistinctRows(q.entity, all);
    FilterSame(Window(all, q.offset, q.limit), p, x => Owns(db, q, e, batch, row, x));
    WindowCommutes(all, q.offset, q.limit, p);
  }

  /** In particular, with a Limit alone: the batch's neighbours fit in it, or none of the node's is beyond it, or all before
      it are the node's. */
  lemma LimitedForeignKey(db: Database, q: Query, e: Edge, batch: seq<Row>, row: Row)
    requires Honest(db) && q.entity == Target(e) && !ShapeOf(e).ManyToMany? && q.offset == 0 && row in batch
    ensures Owned(db, q, e, batch, row) == Fetched(db, q, e, [row]) <==>
      CutsAgree(AllWanted(db, q, e, batch), q.limit, x => Relates(e, row, x))
  {
    var all, p := AllWanted(db, q, e, batch), x => Relates(e, row, x);
    WindowedForeignKey(db, q, e, batch, row);
    assert all[0..] == all;
    FilterNone(all, p);
  }

  predicate Fits<T>(xs: seq<T>, limit: nat) {
    limit == 0 || |xs| <= limit
  }

  /** Along a join, a Limit that cuts neither the batch's answer nor the node's own does not show. */
  lemma LimitedJoin(db: Database, q: Query, e: Edge, batch: seq<Row>, row: Row)
    requires Honest(db) && q.entity == Target(e) && ShapeOf(e).ManyToMany? && q.offset == 0 && row in batch
    requires Fits(db.joined(e, Ids(batch), q.preds, q.order), q.limit)
    requires Fits(db.joined(e, Ids([row]), q.preds, q.order), q.limit)
    ensures Owned(db, q, e, batch, row) == Fetched(db, q, e, [row])
  {
    var q0 := q.(limit := 0);
    OwnedIsLookup(db, q0, e, batch, row);
    assert JoinRows(db, q0, e, batch) == JoinRows(db, q, e, batch) && JoinRows(db, q0, e, [row]) == JoinRows(db, q, e, [row]);
    FilterSame(Fetched(db, q, e, batch), x => Owns(db, q, e, batch, row, x), x => Owns(db, q0, e, batch, row, x));
  }

  lemma {:induction false} FirstRowsKeepIds(pairs: seq<(int, Row)>, p: (int, Row)) returns (x: Row)
    requires p in pairs
    ensures x in FirstRows(pairs) && IdOf(x) == IdOf(p.1)
  {
    var before, last := pairs[..|pairs| - 1], pairs[|pairs| - 1];
    assert pairs == before + [last];
    if p in before {
      x := FirstRowsKeepIds(before, p);
    } else if IdOf(last.1) in SeenIds(before) {
      var p' := SeenPair(before, IdOf(last.1));
      x := FirstRowsKeepIds(before, p');
    } else {
      x := last.1;
    }
  }

  lemma {:induction false} SeenPair(pairs: seq<(int, Row)>, k: int) returns (p: (int, Row))
    requires k in SeenIds(pairs)
    ensures p in pairs && IdOf(p.1) == k
  {
    p := pairs[|pairs| - 1];
    if IdOf(p.1) != k {
      p := SeenPair(pairs[..|pairs| - 1], k);
    }
  }

  /** A node's list is empty exactly when no joined row that the window leaves is the node's. */
  lemma JoinedNothing(db: Database, q: Query, e: Edge, batch: seq<Row>, row: Row)
    requires ShapeOf(e).ManyToMany?
    ensures Owned(db, q, e, batch, row) == [] <==> forall p | p in JoinRows(db, q, e, batch) :: p.0 != IdOf(row)
  {
    var pairs := JoinRows(db, q, e, batch);
    FilterNone(FirstRows(pairs), x => Owns(db, q, e, batch, row, x));
    if p :| p in pairs && p.0 == IdOf(row) {
      var x := FirstRowsKeepIds(pairs, p);
      assert (IdOf(row), p.1) in pairs;
      assert Owns(db, q, e, batch, row, x);
    }
    if x :| x in FirstRows(pairs) && Owns(db, q, e, batch, row, x) {
      var y :| (IdOf(row), y) in pairs && IdOf(y) == IdOf(x);
    }
  }

  lemma FetchedNothing(db: Database, q: Query, e: Edge, batch: seq<Row>)
    requires ShapeOf(e).ManyToMany?
    ensures Fetched(db, q, e, batch) == [] <==> |db.joined(e, Ids(batch), q.preds, q.order)| <= q.offset
  {
    var pairs := JoinRows(db, q, e, batch);
    WindowEmpty(db.joined(e, Ids(batch), q.preds, q.order), q.offset, q.limit);
    if pairs != [] {
      var x := FirstRowsKeepIds(pairs, pairs[0]);
    }
  }

  /** Where an Offset skips the whole answer, for the batch or for the node alone, the two agree exactly when both are
      empty: it then skips the whole of both, or leaves the batch no joined row of the node. */
  lemma SkippedJoin(db: Database, q: Query, e: Edge, batch: seq<Row>, row: Row)
    requires ShapeOf(e).ManyToMany?
    ensures var whole, own := db.joined(e, Ids(batch), q.preds, q.order), db.joined(e, Ids([row]), q.preds, q.order);
      var agree := Owned(db, q, e, batch, row) == Fetched(db, q, e, [row]);
      && (|whole| <= q.offset ==> (agree <==> |own| <= q.offset))
      && (|own| <= q.offset ==> (agree <==> forall p | p in JoinRows(db, q, e, batch) :: p.0 != IdOf(row)))
  {
    JoinedNothing(db, q, e, batch, row);
    FetchedNothing(db, q, e, [row]);
    WindowEmpty(db.joined(e, Ids(batch), q.preds, q.order), q.offset, q.limit);
  }

  // --- A database for which a sub-query's Limit changes the graph ---

  function DemoColumns(t: Entity): seq<Column> {
    match t
    case Account => [Id, ProxyId, ParentAccountId]
    case AccountGroup => [AccountId, GroupId]
    case UsageLog => [Id, AccountId, GroupId]
    case _ => [Id]
  }

  /** Accounts 1 and 2, and a usage log of each. */
  function DemoTable(t: Entity): seq<Row> {
    match t
    case Account => [map[Id := Int(1), ProxyId := Null, ParentAccountId := Null],
                     map[Id := Int(2), ProxyId := Null, ParentAccountId := Null]]
    case UsageLog => [map[Id := Int(10), AccountId := Int(1), GroupId := Null],
                      map[Id := Int(11), AccountId := Int(2), GroupId := Null]]
    case _ => []
  }

  function DemoDatabase(): Database {
    Database(DemoColumns, (t, order) => DemoTable(t), (token, row) => true, (e, ids, preds, order) => [])
  }

  lemma DemoRowsOk(t: Entity)
    ensures RowsOk(DemoDatabase(), t, DemoTable(t))
  {
  }

  lemma DemoHonest()
    ensures Honest(DemoDatabase())
  {
    var db := DemoDatabase();
    forall t, order ensures RowsOk(db, t, db.enumerate(t, order)) {
      DemoRowsOk(t);
    }
    forall e, ids, preds, order | ShapeOf(e).ManyToMany? ensures JoinOk(db, e, ids, preds, order) {
      assert db.joined(e, ids, preds, order) == [];
      FilterNone(db.enumerate(Target(e), order), row => exists a :: (a, row) in db.joined(e, ids, preds, order));
    }
  }

  const DemoLogs := Query(UsageLog, [], [], [], 1, 0, Subqueries(map[]))
  const DemoBatch := DemoTable(Account)

  /** Of two rows that the batch wants, a Limit of 1 keeps the first. */
  lemma FirstOfTwo(db: Database, q: Query, e: Edge, batch: seq<Row>, x: Row, y: Row)
    requires !ShapeOf(e).ManyToMany? && |batch| == 2 && Relates(e, batch[0], x) && Relates(e, batch[1], y)
    requires db.enumerate(q.entity, q.order) == [x, y] && q.preds == [] && q.offset == 0 && q.limit == 1
    ensures Fetched(db, q, e, batch) == [x]
  {
    assert batch[0] in batch && batch[1] in batch;
    FilterAll([x, y], z => Wanted(db, q, e, batch, z));
  }

  lemma DemoRelates()
    ensures |DemoBatch| == 2 && |DemoTable(UsageLog)| == 2
    ensures Relates(AccountToUsageLogs, DemoBatch[0], DemoTable(UsageLog)[0])
    ensures Relates(AccountToUsageLogs, DemoBatch[1], DemoTable(UsageLog)[1])
  {
  }

  lemma {:induction false} DemoFetched()
    ensures Fetched(DemoDatabase(), DemoLogs, AccountToUsageLogs, DemoBatch) == [DemoTable(UsageLog)[0]]
  {
    var table := DemoTable(UsageLog);
    DemoRelates();
    assert table == [table[0], table[1]];
    FirstOfTwo(DemoDatabase(), DemoLogs, AccountToUsageLogs, DemoBatch, table[0], table[1]);
  }

  lemma OnlyForeign(db: Database, q: Query, e: Edge, batch: seq<Row>, owner: Row, x: Row)
    requires !ShapeOf(e).ManyToMany? && Fetched(db, q, e, batch) == [x] && !Relates(e, owner, x)
    ensures Owned(db, q, e, batch, owner) == []
  {
    FilterNone([x], y => Owns(db, q, e, batch, owner, y));
  }

  lemma DemoForeign()
    ensures !Relates(AccountToUsageLogs, DemoBatch[1], DemoTable(UsageLog)[0])
  {
  }

  lemma {:induction false} DemoLost()
    ensures Owned(DemoDatabase(), DemoLogs, AccountToUsageLogs, DemoBatch, DemoBatch[1]) == []
  {
    var db, e, first, second := DemoDatabase(), AccountToUsageLogs, DemoTable(UsageLog)[0], DemoBatch[1];
    DemoFetched();
    DemoForeign();
    OnlyForeign(db, DemoLogs, e, DemoBatch, second, first);
  }

  lemma {:induction false} DemoAlone()
    ensures Fetched(DemoDatabase(), DemoLogs, AccountToUsageLogs, [DemoBatch[1]]) != []
  {
    var db, e, table, second := DemoDatabase(), AccountToUsageLogs, DemoTable(UsageLog), DemoBatch[1];
    assert second in [second] && Relates(e, second, table[1]);
    FilterMember(table, x => Wanted(db, DemoLogs, e, [second], x), table[1]);
  }

  /** Eager-loading at most one usage log per account: account 2's is lost, although its own lookup finds it. */
  lemma SubLimitLosesRows()
    ensures
      var db, subs := DemoDatabase(), Subqueries(map[AccountToUsageLogs := DemoLogs]);
      && Honest(db) && WellTyped(Account, subs)
      && BatchTree(db, subs, [Id], DemoBatch, DemoBatch[1]).slots[AccountToUsageLogs] == Many([])
      && NaiveTree(db, subs, [Id], DemoBatch[1]).slots[AccountToUsageLogs] != Many([])
  {
    DemoHonest();
    DemoLost();
    DemoAlone();
  }
}
