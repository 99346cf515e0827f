/** The batched loader on the heap: each load step runs one query for its edge and fills that edge's slot of every
    node in place. */
module EagerLoading {
  import opened Collections
  import opened Schema
  import opened SqlGraph
  import opened Projection
  import opened Trees
  import opened EagerSpec
  import opened EagerTheorems
  import opened Nodes
  import opened Graphs

  datatype Outcome<+T> = Ok(value: T) | Err(error: LoadError)

  // --- One level: a batch of nodes decoded from `rows`, and one edge of it ---

  ghost function SlotTree(db: Database, q: Query, e: Edge, rows: seq<Row>, row: Row): Slot {
    SlotOf(e, BatchTrees(db, q.edges, ColumnsVia(db, e, q), Fetched(db, q, e, rows), Owned(db, q, e, rows, row)))
  }

  /** The nodes carry what the edge reads of their rows: the id for a list edge, the foreign key for a to-one edge. */
  ghost predicate Level(db: Database, q: Query, e: Edge, nodes: seq<Node>, rows: seq<Row>) {
    && Honest(db) && q.entity == Target(e) && WellTyped(Target(e), q.edges)
    && nodes != [] && |nodes| == |rows|
    && (ShapeOf(e).ManyToOne? ==> forall i | 0 <= i < |nodes| ::
          ForeignKey(nodes[i].row, ShapeOf(e).fk, ShapeOf(e).nullable) == Key(rows[i], ShapeOf(e).fk))
    && (!ShapeOf(e).ManyToOne? ==> DistinctIds(rows) && forall i | 0 <= i < |nodes| :: IdOf(nodes[i].row) == IdOf(rows[i]))
  }

  ghost predicate Filled(db: Database, q: Query, e: Edge, nodes: seq<Node>, rows: seq<Row>, graph: set<Node>)
    requires |nodes| == |rows|
    reads nodes, graph
  {
    forall i | 0 <= i < |nodes| :: SlotShows(nodes[i], e, SlotTree(db, q, e, rows, rows[i]), graph)
  }

  /** The key read from a decoded row is the row's: a required key is never nil, so no zero is invented. */
  lemma KeyRead(db: Database, e: Edge, fields: seq<Column>, subs: Subqueries, row: Row)
    requires ColumnsOk(db) && ShapeOf(e).ManyToOne? && e in subs.of && RowOk(db, Owner(e), row)
    ensures ForeignKey(Project(row, ColumnsOf(db, Owner(e), fields, subs)), ShapeOf(e).fk, ShapeOf(e).nullable) ==
            Key(row, ShapeOf(e).fk)
  {
    EdgeEnds(e);
    ProjectionKeepsKeys(db, Owner(e), fields, subs, row);
  }

  lemma ByIdsIsFetched(db: Database, q: Query, e: Edge, rows: seq<Row>, ids: seq<int>)
    requires ShapeOf(e).ManyToOne?
    requires forall k :: k in ids <==> exists row | row in rows :: Key(row, ShapeOf(e).fk) == Some(k)
    ensures QueryNodes(db, q.(preds := q.preds + [IdIn(ids)])) == Fetched(db, q, e, rows)
  {
    var more := q.(preds := q.preds + [IdIn(ids)]);
    var table := db.enumerate(q.entity, q.order);
    forall x | x in table ensures Sat(db, more.preds, x) == Wanted(db, q, e, rows, x) {
      SatAppend(db, q.preds, IdIn(ids), x);
      if IdOf(x) in ids {
        var owner :| owner in rows && Key(owner, ShapeOf(e).fk) == Some(IdOf(x));
        assert Relates(e, owner, x);
      }
      if owner :| owner in rows && Relates(e, owner, x) {
        assert Key(owner, ShapeOf(e).fk) == Some(IdOf(x));
      }
    }
    FilterSame(table, x => Sat(db, more.preds, x), x => Wanted(db, q, e, rows, x));
  }

  lemma ByKeysIsFetched(db: Database, q: Query, e: Edge, rows: seq<Row>, fields: seq<Column>)
    requires ShapeOf(e).OneToMany?
    ensures QueryNodes(db, q.(preds := q.preds + [KeyIn(ShapeOf(e).fk, Ids(rows))], fields := fields)) == Fetched(db, q, e, rows)
  {
    var p := KeyIn(ShapeOf(e).fk, Ids(rows));
    var more := q.(preds := q.preds + [p], fields := fields);
    var table := db.enumerate(q.entity, q.order);
    forall x | x in table ensures Sat(db, more.preds, x) == Wanted(db, q, e, rows, x) {
      SatAppend(db, q.preds, p, x);
      if Meets(db, p, x) {
        var i :| 0 <= i < |Ids(rows)| && Ids(rows)[i] == Key(x, ShapeOf(e).fk).value;
        assert rows[i] in rows && Relates(e, rows[i], x);
      }
      if owner :| owner in rows && Relates(e, owner, x) {
        var i :| 0 <= i < |rows| && rows[i] == owner;
        assert Ids(rows)[i] == IdOf(owner);
      }
    }
    FilterSame(table, x => Sat(db, more.preds, x), x => Wanted(db, q, e, rows, x));
  }

  lemma SatAppend(db: Database, preds: seq<Pred>, p: Pred, row: Row)
    ensures Sat(db, preds + [p], row) <==> Sat(db, preds, row) && Meets(db, p, row)
  {
    assert forall r | r in preds :: r in preds + [p];
    assert p in preds + [p];
  }

  /** A neighbour object carries its row's id and the foreign key that names its owner. */
  lemma NeighborKeys(db: Database, q: Query, e: Edge, x: Row, row: Row)
    requires ColumnsOk(db) && q.entity == Target(e) && RowOk(db, q.entity, x) && row == Project(x, ColumnsVia(db, e, q))
    ensures HasId(Target(e)) ==> IdOf(row) == IdOf(x)
    ensures ShapeOf(e).OneToMany? ==> ForeignKey(row, ShapeOf(e).fk, ShapeOf(e).nullable) == Key(x, ShapeOf(e).fk)
  {
    ProjectionKeepsKeys(db, q.entity, LinkedFields(e, q.fields), q.edges, x);
    if ShapeOf(e).OneToMany? {
      ProjectionKeepsLink(db, e, q.fields, q.edges, x);
      EdgeEnds(e);
      assert ShapeOf(e).fk in x;
    }
  }

  ghost function NeighborTrees(db: Database, q: Query, e: Edge, rows: seq<Row>): seq<Tree> {
    BatchTrees(db, q.edges, ColumnsVia(db, e, q), Fetched(db, q, e, rows), Fetched(db, q, e, rows))
  }

  /** The neighbours, in fetched order, show the trees that one query for the whole batch loads. */
  ghost predicate Neighbors(db: Database, q: Query, e: Edge, rows: seq<Row>, neighbors: seq<Node>, graph: set<Node>)
    reads graph
  {
    AllShow(neighbors, NeighborTrees(db, q, e, rows), graph)
  }

  lemma {:induction false} PickTrees(db: Database, subs: Subqueries, cols: seq<Column>, batch: seq<Row>, rows: seq<Row>, keep: seq<bool>)
    requires |keep| == |rows|
    ensures Pick(BatchTrees(db, subs, cols, batch, rows), keep) == BatchTrees(db, subs, cols, batch, Pick(rows, keep))
    decreases |rows|
  {
    if rows != [] {
      var k := |rows| - 1;
      PickTrees(db, subs, cols, batch, rows[..k], keep[..k]);
      assert BatchTrees(db, subs, cols, batch, rows)[..k] == BatchTrees(db, subs, cols, batch, rows[..k]);
    }
  }

  /** A node's share of the neighbours is the slot of the rows that it owns. */
  lemma ShareIsSlotTree(db: Database, q: Query, e: Edge, rows: seq<Row>, row: Row, n: Node, neighbors: seq<Node>,
                        mine: (Node, Node) -> bool)
    requires |neighbors| == |Fetched(db, q, e, rows)|
    requires forall j | 0 <= j < |neighbors| :: mine(n, neighbors[j]) == Owns(db, q, e, rows, row, Fetched(db, q, e, rows)[j])
    ensures |NeighborTrees(db, q, e, rows)| == |neighbors|
    ensures Share(e, n, neighbors, NeighborTrees(db, q, e, rows), mine) == SlotTree(db, q, e, rows, row)
  {
    var fetched := Fetched(db, q, e, rows);
    var keep := Mask(neighbors, (m: Node) => mine(n, m));
    FilterIsPick(fetched, x => Owns(db, q, e, rows, row, x));
    assert keep == Mask(fetched, x => Owns(db, q, e, rows, row, x));
    PickTrees(db, q.edges, ColumnsVia(db, e, q), fetched, fetched, keep);
  }

  lemma SharedIsFilled(db: Database, q: Query, e: Edge, nodes: seq<Node>, rows: seq<Row>, neighbors: seq<Node>,
                       mine: (Node, Node) -> bool, graph: set<Node>)
    requires |nodes| == |rows| && |neighbors| == |Fetched(db, q, e, rows)| == |NeighborTrees(db, q, e, rows)|
    requires Shared(e, nodes, neighbors, NeighborTrees(db, q, e, rows), mine, graph)
    requires forall i, j | 0 <= i < |nodes| && 0 <= j < |neighbors| ::
      mine(nodes[i], neighbors[j]) == Owns(db, q, e, rows, rows[i], Fetched(db, q, e, rows)[j])
    ensures Filled(db, q, e, nodes, rows, graph)
  {
    forall i | 0 <= i < |nodes| ensures SlotShows(nodes[i], e, SlotTree(db, q, e, rows, rows[i]), graph) {
      assert nodes[i] in nodes;
      ShareIsSlotTree(db, q, e, rows, rows[i], nodes[i], neighbors, mine);
    }
  }

  lemma NeighborsDistinct(db: Database, q: Query, e: Edge, rows: seq<Row>, neighbors: seq<Node>, id: Node -> int)
    requires Honest(db) && q.entity == Target(e) && HasId(Target(e)) && |neighbors| == |Fetched(db, q, e, rows)|
    requires forall j | 0 <= j < |neighbors| :: id(neighbors[j]) == IdOf(Fetched(db, q, e, rows)[j])
    ensures DistinctBy(neighbors, id)
  {
    FetchedRowsOk(db, q, e, rows);
  }

  lemma KeysOfRows(nodes: seq<Node>, rows: seq<Row>, fk: Column, key: Node -> Option<int>, nodeids: map<int, seq<Node>>)
    requires |nodes| == |rows| && forall i | 0 <= i < |nodes| :: key(nodes[i]) == Key(rows[i], fk)
    requires forall k :: k in nodeids <==> WithKey(nodes, |nodes|, key, k) != []
    requires forall k | k in nodeids :: nodeids[k] == WithKey(nodes, |nodes|, key, k)
    ensures Indexed(nodes, key, nodeids)
    ensures forall k :: k in nodeids <==> exists row | row in rows :: Key(row, fk) == Some(k)
  {
    forall k | k in nodeids
      ensures forall n | n in nodeids[k] :: n in nodes && key(n) == Some(k)
      ensures forall n | n in nodes && key(n) == Some(k) :: n in nodeids[k]
    {
      WithKeyMember(nodes, |nodes|, key, k);
    }
    forall k ensures k in nodeids <==> exists row | row in rows :: Key(row, fk) == Some(k) {
      WithKeyMember(nodes, |nodes|, key, k);
      if k in nodeids {
        var n := nodeids[k][0];
        assert n in nodeids[k];
        var i :| 0 <= i < |nodes| && nodes[i] == n;
        assert rows[i] in rows;
      }
      if row :| row in rows && Key(row, fk) == Some(k) {
        var i :| 0 <= i < |rows| && rows[i] == row;
        assert nodes[i] in WithKey(nodes, |nodes|, key, k);
      }
    }
  }

  /** When no node has a key the step is skipped, and rightly: every slot stays missing. */
  lemma NothingOwned(db: Database, q: Query, e: Edge, rows: seq<Row>, row: Row)
    requires ShapeOf(e).ManyToOne? && Key(row, ShapeOf(e).fk) == None
    ensures SlotTree(db, q, e, rows, row) == Missing
  {
    FilterNone(Fetched(db, q, e, rows), x => Owns(db, q, e, rows, row, x));
  }

  lemma ShownRows(db: Database, subs: Subqueries, cols: seq<Column>, rows: seq<Row>, ns: seq<Node>, graph: set<Node>)
    requires AllShow(ns, BatchTrees(db, subs, cols, rows, rows), graph)
    ensures |ns| == |rows| && forall j | 0 <= j < |ns| :: ns[j] in graph && ns[j].row == Project(rows[j], cols)
  {
    forall j | 0 <= j < |ns| ensures ns[j] in graph && ns[j].row == Project(rows[j], cols) {
      assert Shows(ns[j], BatchTrees(db, subs, cols, rows, rows)[j], graph);
      assert BatchTree(db, subs, cols, rows, rows[j]).row == Project(rows[j], cols);
    }
  }

  /** The id read from a to-one neighbour is its row's id, and was asked for. */
  lemma NeighborId(db: Database, q: Query, e: Edge, rows: seq<Row>, x: Row, row: Row, ids: seq<int>)
    requires Honest(db) && q.entity == Target(e) && ShapeOf(e).ManyToOne?
    requires x in Fetched(db, q, e, rows) && row == Project(x, ColumnsVia(db, e, q))
    requires forall k :: k in ids <==> exists row | row in rows :: Key(row, ShapeOf(e).fk) == Some(k)
    ensures IdOf(row) == IdOf(x) && IdOf(row) in ids
  {
    FetchedRowsOk(db, q, e, rows);
    EdgeEnds(e);
    NeighborKeys(db, q, e, x, row);
    FilterMember(db.enumerate(q.entity, q.order), x => Wanted(db, q, e, rows, x), x);
    var owner :| owner in rows && Relates(e, owner, x);
    assert Key(owner, ShapeOf(e).fk) == Some(IdOf(x));
  }

  // --- Many-to-one ---

  function IdReader(): Node -> int {
    (n: Node) => IdOf(n.row)
  }

  function KeyOf(e: Edge): Node -> Option<int>
    requires !ShapeOf(e).ManyToMany?
  {
    (n: Node) => ForeignKey(n.row, ShapeOf(e).fk, ShapeOf(e).nullable)
  }

  method PrepareQuery(db: Database, q: Query) returns (bad: Option<Column>)
    ensures bad.Some? <==> BadFields(db, q)
    ensures bad == None <==> forall c | c in q.fields :: c in db.columns(q.entity)
    ensures bad.Some? ==> bad.value in q.fields && bad.value !in db.columns(q.entity)
  {
    for i := 0 to |q.fields|
      invariant forall c | c in q.fields[..i] :: c in db.columns(q.entity)
    {
      if q.fields[i] !in db.columns(q.entity) {
        return Some(q.fields[i]);
      }
    }
    assert q.fields[..|q.fields|] == q.fields;
    bad := None;
  }

  lemma NoneFilled(db: Database, q: Query, e: Edge, nodes: seq<Node>, rows: seq<Row>)
    requires |nodes| == |rows| && Unset(e, nodes) && ShapeOf(e).ManyToOne?
    requires forall row | row in rows :: Key(row, ShapeOf(e).fk) == None
    ensures Filled(db, q, e, nodes, rows, {}) && !EdgeFails(db, q, e, rows)
  {
    forall i | 0 <= i < |nodes| ensures SlotShows(nodes[i], e, SlotTree(db, q, e, rows, rows[i]), {}) {
      assert rows[i] in rows && nodes[i] in nodes;
      NothingOwned(db, q, e, rows, rows[i]);
    }
  }

  lemma KeyPerforms(e: Edge, rows: seq<Row>, k: int)
    requires ShapeOf(e).ManyToOne? && exists row | row in rows :: Key(row, ShapeOf(e).fk) == Some(k)
    ensures Performed(e, rows)
  {
  }

  /** What a performed step fails on, and how many queries it runs. */
  lemma PerformedStep(db: Database, q: Query, e: Edge, rows: seq<Row>)
    requires Performed(e, rows)
    ensures EdgeFails(db, q, e, rows) <==> BadFields(db, q) || BatchFails(db, q.edges, Fetched(db, q, e, rows))
    ensures EdgeRuns(db, q, e, rows) == 1 + Runs(db, Target(e), q.edges, Fetched(db, q, e, rows))
  {
  }

  lemma NeighborIds(db: Database, q: Query, e: Edge, rows: seq<Row>, ids: seq<int>, neighbors: seq<Node>, graph: set<Node>)
    requires Honest(db) && q.entity == Target(e) && ShapeOf(e).ManyToOne?
    requires forall k :: k in ids <==> exists row | row in rows :: Key(row, ShapeOf(e).fk) == Some(k)
    requires Neighbors(db, q, e, rows, neighbors, graph)
    ensures |neighbors| == |Fetched(db, q, e, rows)|
    ensures forall j | 0 <= j < |neighbors| ::
      IdOf(neighbors[j].row) == IdOf(Fetched(db, q, e, rows)[j]) && IdOf(neighbors[j].row) in ids
  {
    var fetched := Fetched(db, q, e, rows);
    ShownRows(db, q.edges, ColumnsVia(db, e, q), fetched, neighbors, graph);
    forall j | 0 <= j < |neighbors| ensures IdOf(neighbors[j].row) == IdOf(fetched[j]) && IdOf(neighbors[j].row) in ids {
      NeighborId(db, q, e, rows, fetched[j], neighbors[j].row, ids);
    }
  }

  /** One query for all the keys: `IDIn(ids...)` on the sub-query. */
  method FetchByIds(db: Database, q: Query, e: Edge, ids: seq<int>, ghost rows: seq<Row>)
      returns (r: Outcome<seq<Node>>, ghost graph: set<Node>, ghost queries: nat)
    requires Honest(db) && q.entity == Target(e) && WellTyped(Target(e), q.edges) && ShapeOf(e).ManyToOne? && Performed(e, rows)
    requires forall k :: k in ids <==> exists row | row in rows :: Key(row, ShapeOf(e).fk) == Some(k)
    ensures fresh(graph)
    ensures r.Err? <==> EdgeFails(db, q, e, rows)
    ensures r.Err? ==> r.error.InvalidField?
    ensures r.Ok? ==> Neighbors(db, q, e, rows, r.value, graph) && |r.value| == |Fetched(db, q, e, rows)|
    ensures r.Ok? ==> queries == EdgeRuns(db, q, e, rows)
    ensures r.Ok? ==> forall j | 0 <= j < |r.value| ::
      IdOf(r.value[j].row) == IdOf(Fetched(db, q, e, rows)[j]) && IdOf(r.value[j].row) in ids
    decreases q.edges, 5
  {
    ByIdsIsFetched(db, q, e, rows, ids);
    r, graph, queries := All(db, q.(preds := q.preds + [IdIn(ids)]));
    PerformedStep(db, q, e, rows);
    if r.Ok? {
      NeighborIds(db, q, e, rows, ids, r.value, graph);
    }
  }

  method StoreManyToOne(db: Database, q: Query, e: Edge, nodes: seq<Node>, ghost rows: seq<Row>,
                        key: Node -> Option<int>, id: Node -> int, nodeids: map<int, seq<Node>>,
                        neighbors: seq<Node>, ghost graph: set<Node>) returns (failed: bool)
    requires Honest(db) && q.entity == Target(e) && ShapeOf(e).ManyToOne? && |nodes| == |rows|
    requires Unset(e, nodes) && forall n | n in nodes :: n !in graph
    requires Neighbors(db, q, e, rows, neighbors, graph) && Indexed(nodes, key, nodeids)
    requires forall i | 0 <= i < |nodes| :: key(nodes[i]) == Key(rows[i], ShapeOf(e).fk)
    requires |neighbors| == |Fetched(db, q, e, rows)|
    requires forall j | 0 <= j < |neighbors| :: id(neighbors[j]) == IdOf(Fetched(db, q, e, rows)[j]) && id(neighbors[j]) in nodeids
    modifies nodes
    ensures !failed && OnlySlot(e, nodes) && Filled(db, q, e, nodes, rows, graph) && SharesByKey(e, nodes, key)
  {
    EdgeEnds(e);
    NeighborsDistinct(db, q, e, rows, neighbors, id);
    ghost var mine := (n: Node, m: Node) => key(n) == Some(id(m));
    failed := FillManyToOne(e, nodes, key, id, nodeids, neighbors, NeighborTrees(db, q, e, rows), mine, graph);
    SharedIsFilled(db, q, e, nodes, rows, neighbors, mine, graph);
  }

  /** One query, and the scatter of what it returns. */
  method FillOwners(db: Database, q: Query, e: Edge, nodes: seq<Node>, ghost rows: seq<Row>, ids: seq<int>,
                    nodeids: map<int, seq<Node>>)
      returns (failed: Option<LoadError>, ghost graph: set<Node>, ghost queries: nat)
    requires Level(db, q, e, nodes, rows) && ShapeOf(e).ManyToOne? && Unset(e, nodes) && Performed(e, rows)
    requires Indexed(nodes, KeyOf(e), nodeids) && forall k :: k in ids <==> k in nodeids
    requires forall k :: k in ids <==> exists row | row in rows :: Key(row, ShapeOf(e).fk) == Some(k)
    modifies nodes
    ensures fresh(graph) && OnlySlot(e, nodes)
    ensures failed.Some? <==> EdgeFails(db, q, e, rows)
    ensures failed.Some? ==> failed.value.InvalidField?
    ensures failed == None ==> Filled(db, q, e, nodes, rows, graph) && SharesByKey(e, nodes, KeyOf(e))
    ensures failed == None ==> queries == EdgeRuns(db, q, e, rows)
    decreases q.edges, 6
  {
    var r;
    r, graph, queries := FetchByIds(db, q, e, ids, rows);
    if r.Err? {
      failed := Some(r.error);
    } else {
      var id := IdReader();
      var stray := StoreManyToOne(db, q, e, nodes, rows, KeyOf(e), id, nodeids, r.value, graph);
      failed := if stray then Some(UnexpectedKey(e)) else None;
    }
  }

  /** loadProxy, loadParent, loadAccount, loadGroup. */
  method LoadManyToOne(db: Database, q: Query, e: Edge, nodes: seq<Node>, ghost rows: seq<Row>)
      returns (failed: Option<LoadError>, ghost graph: set<Node>, ghost queries: nat)
    requires Level(db, q, e, nodes, rows) && ShapeOf(e).ManyToOne? && Unset(e, nodes)
    modifies nodes
    ensures fresh(graph) && OnlySlot(e, nodes)
    ensures failed.Some? <==> EdgeFails(db, q, e, rows)
    ensures failed.Some? ==> failed.value.InvalidField?
    ensures failed == None ==> Filled(db, q, e, nodes, rows, graph) && SharesByKey(e, nodes, KeyOf(e))
    ensures failed == None ==> queries == EdgeRuns(db, q, e, rows)
    decreases q.edges, 7
  {
    graph, queries := {}, 0;
    var key := KeyOf(e);
    var ids, nodeids := IndexByKey(nodes, key);
    KeysOfRows(nodes, rows, ShapeOf(e).fk, key, nodeids);
    if ids == [] {
      NoneFilled(db, q, e, nodes, rows);
      failed := None;
    } else {
      assert ids[0] in ids;
      KeyPerforms(e, rows, ids[0]);
      failed, graph, queries := FillOwners(db, q, e, nodes, rows, ids, nodeids);
    }
  }

  // --- One-to-many ---

  lemma ChildKey(db: Database, q: Query, e: Edge, rows: seq<Row>, x: Row, row: Row)
    requires Honest(db) && q.entity == Target(e) && ShapeOf(e).OneToMany?
    requires x in Fetched(db, q, e, rows) && row == Project(x, ColumnsVia(db, e, q))
    ensures ForeignKey(row, ShapeOf(e).fk, ShapeOf(e).nullable) == Key(x, ShapeOf(e).fk)
    ensures Key(x, ShapeOf(e).fk).Some? && Key(x, ShapeOf(e).fk).value in Ids(rows)
  {
    FetchedRowsOk(db, q, e, rows);
    NeighborKeys(db, q, e, x, row);
    FilterMember(db.enumerate(q.entity, q.order), x => Wanted(db, q, e, rows, x), x);
    var owner :| owner in rows && Relates(e, owner, x);
    var i :| 0 <= i < |rows| && rows[i] == owner;
    assert Ids(rows)[i] == IdOf(owner);
  }

  lemma ChildKeys(db: Database, q: Query, e: Edge, rows: seq<Row>, neighbors: seq<Node>, graph: set<Node>)
    requires Honest(db) && q.entity == Target(e) && ShapeOf(e).OneToMany? && Neighbors(db, q, e, rows, neighbors, graph)
    ensures |neighbors| == |Fetched(db, q, e, rows)|
    ensures forall j | 0 <= j < |neighbors| ::
      var k := ForeignKey(neighbors[j].row, ShapeOf(e).fk, ShapeOf(e).nullable);
      k == Key(Fetched(db, q, e, rows)[j], ShapeOf(e).fk) && k.Some? && k.value in Ids(rows)
  {
    var fetched := Fetched(db, q, e, rows);
    ShownRows(db, q.edges, ColumnsVia(db, e, q), fetched, neighbors, graph);
    forall j | 0 <= j < |neighbors|
      ensures var k := ForeignKey(neighbors[j].row, ShapeOf(e).fk, ShapeOf(e).nullable);
        k == Key(fetched[j], ShapeOf(e).fk) && k.Some? && k.value in Ids(rows)
    {
      ChildKey(db, q, e, rows, fetched[j], neighbors[j].row);
    }
  }

  /** One query for all the owners: the foreign key is selected if need be, then constrained to their ids. */
  method FetchByKeys(db: Database, q: Query, e: Edge, ids: seq<int>, ghost rows: seq<Row>)
      returns (r: Outcome<seq<Node>>, ghost graph: set<Node>, ghost queries: nat)
    requires Honest(db) && q.entity == Target(e) && WellTyped(Target(e), q.edges) && ShapeOf(e).OneToMany? && ids == Ids(rows) && rows != []
    ensures fresh(graph)
    ensures r.Err? <==> EdgeFails(db, q, e, rows)
    ensures r.Err? ==> r.error.InvalidField?
    ensures r.Ok? ==> Neighbors(db, q, e, rows, r.value, graph) && |r.value| == |Fetched(db, q, e, rows)|
    ensures r.Ok? ==> queries == EdgeRuns(db, q, e, rows)
    ensures r.Ok? ==> forall j | 0 <= j < |r.value| ::
      var k := ForeignKey(r.value[j].row, ShapeOf(e).fk, ShapeOf(e).nullable);
      k == Key(Fetched(db, q, e, rows)[j], ShapeOf(e).fk) && k.Some? && k.value in ids
    decreases q.edges, 5
  {
    var fields := LinkedFields(e, q.fields);
    assert BadFields(db, q.(fields := fields)) <==> BadFields(db, q) by {
      assert forall c | c in q.fields :: c in fields;
    }
    ByKeysIsFetched(db, q, e, rows, fields);
    r, graph, queries := All(db, q.(preds := q.preds + [KeyIn(ShapeOf(e).fk, ids)], fields := fields));
    PerformedStep(db, q, e, rows);
    if r.Ok? {
      ChildKeys(db, q, e, rows, r.value, graph);
    }
  }

  lemma IdsOfRows(nodes: seq<Node>, rows: seq<Row>, ids: seq<int>, id: Node -> int)
    requires |nodes| == |rows| == |ids|
    requires forall i | 0 <= i < |nodes| :: ids[i] == id(nodes[i]) == IdOf(rows[i])
    ensures ids == Ids(rows)
  {
  }

  method StoreOneToMany(db: Database, q: Query, e: Edge, nodes: seq<Node>, ghost rows: seq<Row>,
                        key: Node -> Option<int>, id: Node -> int, byId: map<int, Node>,
                        neighbors: seq<Node>, ghost graph: set<Node>) returns (failed: Option<LoadError>)
    requires ShapeOf(e).OneToMany? && |nodes| == |rows|
    requires Emptied(e, nodes) && forall n | n in nodes :: n !in graph
    requires Neighbors(db, q, e, rows, neighbors, graph) && ById(nodes, id, byId)
    requires forall i | 0 <= i < |nodes| :: id(nodes[i]) == IdOf(rows[i])
    requires |neighbors| == |Fetched(db, q, e, rows)|
    requires forall j | 0 <= j < |neighbors| ::
      key(neighbors[j]) == Key(Fetched(db, q, e, rows)[j], ShapeOf(e).fk) && key(neighbors[j]).Some? && key(neighbors[j]).value in byId
    modifies nodes
    ensures failed == None && OnlySlot(e, nodes) && Filled(db, q, e, nodes, rows, graph)
  {
    ghost var mine := (n: Node, m: Node) => key(m) == Some(id(n));
    failed := FillOneToMany(e, nodes, key, id, byId, neighbors, NeighborTrees(db, q, e, rows), mine, graph);
    SharedIsFilled(db, q, e, nodes, rows, neighbors, mine, graph);
  }

  /** One query, and the scatter of what it returns. */
  method FillChildren(db: Database, q: Query, e: Edge, nodes: seq<Node>, ghost rows: seq<Row>, id: Node -> int,
                      ids: seq<int>, byId: map<int, Node>)
      returns (failed: Option<LoadError>, ghost graph: set<Node>, ghost queries: nat)
    requires Level(db, q, e, nodes, rows) && ShapeOf(e).OneToMany? && Emptied(e, nodes)
    requires ids == Ids(rows) && ById(nodes, id, byId) && forall k | k in ids :: k in byId
    requires forall i | 0 <= i < |nodes| :: id(nodes[i]) == IdOf(rows[i])
    modifies nodes
    ensures fresh(graph) && OnlySlot(e, nodes)
    ensures failed.Some? <==> EdgeFails(db, q, e, rows)
    ensures failed.Some? ==> failed.value.InvalidField?
    ensures failed == None ==> Filled(db, q, e, nodes, rows, graph) && queries == EdgeRuns(db, q, e, rows)
    decreases q.edges, 6
  {
    var r;
    r, graph, queries := FetchByKeys(db, q, e, ids, rows);
    if r.Err? {
      failed := Some(r.error);
    } else {
      failed := StoreOneToMany(db, q, e, nodes, rows, KeyOf(e), id, byId, r.value, graph);
    }
  }

  /** loadChildren, loadUsageLogs, loadAccountGroups. */
  method LoadOneToMany(db: Database, q: Query, e: Edge, nodes: seq<Node>, ghost rows: seq<Row>)
      returns (failed: Option<LoadError>, ghost graph: set<Node>, ghost queries: nat)
    requires Level(db, q, e, nodes, rows) && ShapeOf(e).OneToMany? && Unset(e, nodes)
    modifies nodes
    ensures fresh(graph) && OnlySlot(e, nodes)
    ensures failed.Some? <==> EdgeFails(db, q, e, rows)
    ensures failed.Some? ==> failed.value.InvalidField?
    ensures failed == None ==> Filled(db, q, e, nodes, rows, graph) && queries == EdgeRuns(db, q, e, rows)
    decreases q.edges, 7
  {
    var id := IdReader();
    var ids, byId := PrepareLists(e, nodes, id);
    IdsOfRows(nodes, rows, ids, id);
    failed, graph, queries := FillChildren(db, q, e, nodes, rows, id, ids, byId);
  }

  // --- Many-to-many ---

  /** The cells of a joined row: the owner's id, then the target's columns. */
  function JoinCells(a: int, x: Row, cols: seq<Column>): seq<Cell> {
    [Int(a)] + seq(|cols|, i requires 0 <= i < |cols| => if cols[i] in x then x[cols[i]] else Null)
  }

  function IntValue(c: Cell): int {
    if c.Int? then c.n else 0
  }

  lemma JoinCellsIds(a: int, x: Row, cols: seq<Column>)
    requires cols != [] && cols[0] == Id && Id in x
    ensures var cells := JoinCells(a, x, cols); |cells| > 1 && IntValue(cells[0]) == a && IntValue(cells[1]) == IdOf(x)
  {
  }

  /** `nids` records for each target exactly the owners it was joined with. */
  ghost predicate JoinIndexed(pairs: seq<(int, Row)>, byId: map<int, Node>, nids: map<int, set<Node>>) {
    && (forall p | p in pairs :: p.0 in byId && IdOf(p.1) in nids && byId[p.0] in nids[IdOf(p.1)])
    && (forall k | k in nids :: forall n | n in nids[k] ::
          exists p | p in pairs :: IdOf(p.1) == k && p.0 in byId && byId[p.0] == n)
  }

  function AddOwner(nids: map<int, set<Node>>, k: int, n: Node): map<int, set<Node>> {
    nids[k := (if k in nids then nids[k] else {}) + {n}]
  }

  lemma JoinIndexedStep(pairs: seq<(int, Row)>, p: (int, Row), byId: map<int, Node>, nids: map<int, set<Node>>)
    requires JoinIndexed(pairs, byId, nids) && p.0 in byId
    ensures JoinIndexed(pairs + [p], byId, AddOwner(nids, IdOf(p.1), byId[p.0]))
  {
    var more := pairs + [p];
    var nids' := AddOwner(nids, IdOf(p.1), byId[p.0]);
    assert p in more && forall r | r in pairs :: r in more;
    forall k, n | k in nids' && n in nids'[k]
      ensures exists r | r in more :: IdOf(r.1) == k && r.0 in byId && byId[r.0] == n
    {
      if k in nids && n in nids[k] {
        var r :| r in pairs && IdOf(r.1) == k && r.0 in byId && byId[r.0] == n;
        assert r in more;
      }
    }
  }

  lemma FirstRowsStep(pairs: seq<(int, Row)>, p: (int, Row))
    ensures FirstRows(pairs + [p]) == if IdOf(p.1) in SeenIds(pairs) then FirstRows(pairs) else FirstRows(pairs) + [p.1]
    ensures SeenIds(pairs + [p]) == SeenIds(pairs) + {IdOf(p.1)}
  {
    assert (pairs + [p])[..|pairs|] == pairs;
  }

  /** The wrapped Assign callback on one joined row: the first row of a target is kept, the later ones only add an owner. */
  method AssignJoined(kept: seq<Row>, nids: map<int, set<Node>>, a: int, x: Row, cols: seq<Column>, byId: map<int, Node>)
      returns (kept': seq<Row>, nids': map<int, set<Node>>)
    requires cols != [] && cols[0] == Id && Id in x && a in byId
    ensures kept' == if IdOf(x) in nids then kept else kept + [x]
    ensures nids' == AddOwner(nids, IdOf(x), byId[a])
  {
    JoinCellsIds(a, x, cols);
    var cells := JoinCells(a, x, cols);
    var outer, inner := IntValue(cells[0]), IntValue(cells[1]);
    kept' := if inner in nids then kept else kept + [x];
    nids' := AddOwner(nids, inner, byId[outer]);
  }

  /** What the scan has kept and recorded of these joined rows. */
  ghost predicate Scanned(seen: seq<(int, Row)>, byId: map<int, Node>, kept: seq<Row>, nids: map<int, set<Node>>) {
    kept == FirstRows(seen) && nids.Keys == SeenIds(seen) && JoinIndexed(seen, byId, nids)
  }

  lemma ScannedStep(seen: seq<(int, Row)>, p: (int, Row), byId: map<int, Node>, kept: seq<Row>, nids: map<int, set<Node>>)
    requires Scanned(seen, byId, kept, nids) && p.0 in byId
    ensures Scanned(seen + [p], byId, if IdOf(p.1) in nids then kept else kept + [p.1], AddOwner(nids, IdOf(p.1), byId[p.0]))
  {
    FirstRowsStep(seen, p);
    JoinIndexedStep(seen, p, byId, nids);
  }

  method ScanJoin(pairs: seq<(int, Row)>, cols: seq<Column>, byId: map<int, Node>)
      returns (kept: seq<Row>, nids: map<int, set<Node>>)
    requires cols != [] && cols[0] == Id
    requires forall p | p in pairs :: p.0 in byId && Id in p.1
    ensures kept == FirstRows(pairs)
    ensures JoinIndexed(pairs, byId, nids)
  {
    kept, nids := [], map[];
    ghost var seen := [];
    for i := 0 to |pairs|
      invariant seen == pairs[..i] && Scanned(seen, byId, kept, nids)
    {
      var p := pairs[i];
      assert p in pairs && pairs[..i + 1] == pairs[..i] + [p];
      ScannedStep(seen, p, byId, kept, nids);
      kept, nids := AssignJoined(kept, nids, p.0, p.1, cols, byId);
      seen := seen + [p];
    }
    assert pairs[..|pairs|] == pairs;
  }

  /** A node is in a target's inner map exactly when the join rows pair them. */
  lemma JoinOwns(db: Database, q: Query, e: Edge, rows: seq<Row>, row: Row, n: Node, id: Node -> int, x: Row,
                 byId: map<int, Node>, nids: map<int, set<Node>>)
    requires ShapeOf(e).ManyToMany? && JoinIndexed(JoinRows(db, q, e, rows), byId, nids)
    requires id(n) == IdOf(row) && id(n) in byId && byId[id(n)] == n && forall k | k in byId :: id(byId[k]) == k
    ensures (IdOf(x) in nids && n in nids[IdOf(x)]) == Owns(db, q, e, rows, row, x)
  {
    var pairs := JoinRows(db, q, e, rows);
    if IdOf(x) in nids && n in nids[IdOf(x)] {
      var p :| p in pairs && IdOf(p.1) == IdOf(x) && p.0 in byId && byId[p.0] == n;
      var a := p.0;
      assert id(byId[a]) == a && p == (IdOf(row), p.1);
    }
    if y :| (IdOf(row), y) in pairs && IdOf(y) == IdOf(x) {
      assert byId[IdOf(row)] in nids[IdOf(y)];
    }
  }

  /** The query joined with the link table: prepareQuery, then sqlAll with the scan and assign callbacks wrapped. */
  method FetchJoined(db: Database, q: Query, e: Edge, ids: seq<int>, byId: map<int, Node>, ghost rows: seq<Row>)
      returns (r: Outcome<seq<Node>>, nids: map<int, set<Node>>, ghost graph: set<Node>, ghost queries: nat)
    requires Honest(db) && q.entity == Target(e) && WellTyped(Target(e), q.edges) && ShapeOf(e).ManyToMany?
    requires ids == Ids(rows) && rows != [] && forall k | k in ids :: k in byId
    ensures fresh(graph)
    ensures r.Err? <==> EdgeFails(db, q, e, rows)
    ensures r.Err? ==> r.error.InvalidField?
    ensures r.Ok? ==> Neighbors(db, q, e, rows, r.value, graph) && |r.value| == |Fetched(db, q, e, rows)|
    ensures r.Ok? ==> queries == EdgeRuns(db, q, e, rows)
    ensures r.Ok? ==> JoinIndexed(JoinRows(db, q, e, rows), byId, nids)
    ensures r.Ok? ==> forall j | 0 <= j < |r.value| ::
      IdOf(r.value[j].row) == IdOf(Fetched(db, q, e, rows)[j]) && IdOf(r.value[j].row) in nids
    decreases q.edges, 5
  {
    nids, graph, queries := map[], {}, 0;
    PerformedStep(db, q, e, rows);
    var bad := PrepareQuery(db, q);
    if bad.Some? {
      r := Err(InvalidField(bad.value));
      return;
    }
    var cols := CompileColumns(db, q);
    EdgeEnds(e);
    IdFirstOnce(db, q.entity, q.fields, q.edges);
    var pairs := Window(db.joined(e, ids, q.preds, q.order), q.offset, q.limit);
    forall p | p in pairs ensures p.0 in byId && Id in p.1 {
      JoinRowsMember(db, q, e, rows, p.0, p.1);
    }
    var kept;
    kept, nids := ScanJoin(pairs, cols, byId);
    FetchedRowsOk(db, q, e, rows);
    r, graph, queries := Materialise(db, q.entity, q.edges, q.fields, cols, kept);
    queries := queries + 1;
    if r.Ok? {
      JoinedIds(db, q, e, rows, r.value, byId, nids, graph);
    }
  }

  lemma JoinedIds(db: Database, q: Query, e: Edge, rows: seq<Row>, neighbors: seq<Node>,
                  byId: map<int, Node>, nids: map<int, set<Node>>, graph: set<Node>)
    requires Honest(db) && q.entity == Target(e) && ShapeOf(e).ManyToMany?
    requires Neighbors(db, q, e, rows, neighbors, graph) && JoinIndexed(JoinRows(db, q, e, rows), byId, nids)
    ensures |neighbors| == |Fetched(db, q, e, rows)|
    ensures forall j | 0 <= j < |neighbors| ::
      IdOf(neighbors[j].row) == IdOf(Fetched(db, q, e, rows)[j]) && IdOf(neighbors[j].row) in nids
  {
    var fetched := Fetched(db, q, e, rows);
    ShownRows(db, q.edges, ColumnsVia(db, e, q), fetched, neighbors, graph);
    FetchedRowsOk(db, q, e, rows);
    EdgeEnds(e);
    forall j | 0 <= j < |neighbors| ensures IdOf(neighbors[j].row) == IdOf(fetched[j]) && IdOf(neighbors[j].row) in nids {
      assert fetched[j] in fetched;
      NeighborKeys(db, q, e, fetched[j], neighbors[j].row);
      var p := FirstRowsFrom(JoinRows(db, q, e, rows), fetched[j]);
    }
  }

  method StoreManyToMany(db: Database, q: Query, e: Edge, nodes: seq<Node>, ghost rows: seq<Row>, id: Node -> int,
                         ghost byId: map<int, Node>, nids: map<int, set<Node>>, neighbors: seq<Node>, ghost graph: set<Node>)
      returns (failed: bool)
    requires Honest(db) && q.entity == Target(e) && ShapeOf(e).ManyToMany? && |nodes| == |rows|
    requires Emptied(e, nodes) && forall n | n in nodes :: n !in graph
    requires Neighbors(db, q, e, rows, neighbors, graph) && ById(nodes, id, byId)
    requires JoinIndexed(JoinRows(db, q, e, rows), byId, nids)
    requires forall i | 0 <= i < |nodes| :: id(nodes[i]) == IdOf(rows[i])
    requires |neighbors| == |Fetched(db, q, e, rows)|
    requires forall j | 0 <= j < |neighbors| :: id(neighbors[j]) == IdOf(Fetched(db, q, e, rows)[j]) && id(neighbors[j]) in nids
    modifies nodes
    ensures !failed && OnlySlot(e, nodes) && Filled(db, q, e, nodes, rows, graph) && OnePerId(e, nodes, id)
  {
    ghost var mine := (n: Node, m: Node) => id(m) in nids && n in nids[id(m)];
    forall k | k in nids ensures forall n | n in nids[k] :: n in nodes {
      forall n | n in nids[k] ensures n in nodes {
        var p :| p in JoinRows(db, q, e, rows) && IdOf(p.1) == k && p.0 in byId && byId[p.0] == n;
        var a := p.0;
        assert byId[a] in nodes;
      }
    }
    forall i, j | 0 <= i < |nodes| && 0 <= j < |neighbors|
      ensures mine(nodes[i], neighbors[j]) == Owns(db, q, e, rows, rows[i], Fetched(db, q, e, rows)[j])
    {
      assert nodes[i] in nodes;
      JoinOwns(db, q, e, rows, rows[i], nodes[i], id, Fetched(db, q, e, rows)[j], byId, nids);
    }
    EdgeEnds(e);
    NeighborsDistinct(db, q, e, rows, neighbors, id);
    failed := FillManyToMany(e, nodes, id, nids, neighbors, NeighborTrees(db, q, e, rows), mine, graph);
    SharedIsFilled(db, q, e, nodes, rows, neighbors, mine, graph);
  }

  /** One joined query, and the scatter of what it returns. */
  method FillJoined(db: Database, q: Query, e: Edge, nodes: seq<Node>, ghost rows: seq<Row>, id: Node -> int,
                    ids: seq<int>, byId: map<int, Node>)
      returns (failed: Option<LoadError>, ghost graph: set<Node>, ghost queries: nat)
    requires Level(db, q, e, nodes, rows) && ShapeOf(e).ManyToMany? && Emptied(e, nodes)
    requires ids == Ids(rows) && ById(nodes, id, byId) && forall k | k in ids :: k in byId
    requires id == IdReader() && forall i | 0 <= i < |nodes| :: id(nodes[i]) == IdOf(rows[i])
    modifies nodes
    ensures fresh(graph) && OnlySlot(e, nodes)
    ensures failed.Some? <==> EdgeFails(db, q, e, rows)
    ensures failed.Some? ==> failed.value.InvalidField?
    ensures failed == None ==> Filled(db, q, e, nodes, rows, graph) && OnePerId(e, nodes, IdReader())
    ensures failed == None ==> queries == EdgeRuns(db, q, e, rows)
    decreases q.edges, 6
  {
    var r, nids;
    r, nids, graph, queries := FetchJoined(db, q, e, ids, byId, rows);
    if r.Err? {
      failed := Some(r.error);
    } else {
      var stray := StoreManyToMany(db, q, e, nodes, rows, id, byId, nids, r.value, graph);
      failed := if stray then Some(UnexpectedKey(e)) else None;
    }
  }

  /** loadGroups, and loadAccounts of a group. */
  method LoadManyToMany(db: Database, q: Query, e: Edge, nodes: seq<Node>, ghost rows: seq<Row>)
      returns (failed: Option<LoadError>, ghost graph: set<Node>, ghost queries: nat)
    requires Level(db, q, e, nodes, rows) && ShapeOf(e).ManyToMany? && Unset(e, nodes)
    modifies nodes
    ensures fresh(graph) && OnlySlot(e, nodes)
    ensures failed.Some? <==> EdgeFails(db, q, e, rows)
    ensures failed.Some? ==> failed.value.InvalidField?
    ensures failed == None ==> Filled(db, q, e, nodes, rows, graph) && OnePerId(e, nodes, IdReader())
    ensures failed == None ==> queries == EdgeRuns(db, q, e, rows)
    decreases q.edges, 7
  {
    var id := IdReader();
    var ids, byId := PrepareLists(e, nodes, id);
    IdsOfRows(nodes, rows, ids, id);
    failed, graph, queries := FillJoined(db, q, e, nodes, rows, id, ids, byId);
  }

  // --- A level: decode the rows, then run the load steps of the requested edges in order ---

  ghost predicate SlotsIn(db: Database, subs: Subqueries, done: seq<Edge>, one: map<Edge, Node>, many: map<Edge, seq<Node>>,
                          rows: seq<Row>, row: Row, graph: set<Node>)
    reads graph
  {
    && (forall e | e in done && e in subs.of :: SlotIn(one, many, e, SlotTree(db, subs.of[e], e, rows, row), graph))
    && (forall e | e !in done || e !in subs.of :: e !in one && e !in many)
  }

  /** The slots of the edges in `done` are loaded in every node, the others are not set. */
  ghost predicate EdgesLoaded(db: Database, subs: Subqueries, done: seq<Edge>, nodes: seq<Node>, rows: seq<Row>, graph: set<Node>)
    requires |nodes| == |rows|
    reads nodes, graph
  {
    forall i | 0 <= i < |nodes| :: SlotsIn(db, subs, done, nodes[i].one, nodes[i].many, rows, rows[i], graph)
  }

  /** Nodes loaded together share a to-one neighbour exactly if their foreign keys are equal, and hold one object per target
      along a join. */
  ghost predicate Sharing(e: Edge, nodes: seq<Node>)
    reads nodes
  {
    && (ShapeOf(e).ManyToOne? ==> SharesByKey(e, nodes, KeyOf(e)))
    && (ShapeOf(e).ManyToMany? ==> OnePerId(e, nodes, IdReader()))
  }

  ghost predicate AllShare(subs: Subqueries, done: seq<Edge>, nodes: seq<Node>)
    reads nodes
  {
    forall e | e in done && e in subs.of :: Sharing(e, nodes)
  }

  /** The Assign callback: one fresh object per row, with `loadedTypes` set and no edge loaded. */
  method Decode(cols: seq<Column>, requested: set<Edge>, rows: seq<Row>) returns (nodes: seq<Node>)
    ensures fresh(nodes) && |nodes| == |rows| && Distinct(nodes)
    ensures forall i | 0 <= i < |rows| :: nodes[i].row == Project(rows[i], cols) && nodes[i].loaded == requested
    ensures forall n | n in nodes :: n.one == map[] && n.many == map[]
  {
    nodes := [];
    for i := 0 to |rows|
      invariant fresh(nodes) && |nodes| == i && Distinct(nodes)
      invariant forall j | 0 <= j < i :: nodes[j].row == Project(rows[j], cols) && nodes[j].loaded == requested
      invariant forall n | n in nodes :: n.one == map[] && n.many == map[]
    {
      var node := new Node(Project(rows[i], cols), requested);
      DistinctAppend(nodes, node);
      nodes := nodes + [node];
    }
  }

  method LoadEdge(db: Database, q: Query, e: Edge, nodes: seq<Node>, ghost rows: seq<Row>)
      returns (failed: Option<LoadError>, ghost graph: set<Node>, ghost queries: nat)
    requires Level(db, q, e, nodes, rows) && Unset(e, nodes)
    modifies nodes
    ensures fresh(graph) && OnlySlot(e, nodes)
    ensures failed.Some? <==> EdgeFails(db, q, e, rows)
    ensures failed.Some? ==> failed.value.InvalidField?
    ensures failed == None ==> Filled(db, q, e, nodes, rows, graph) && queries == EdgeRuns(db, q, e, rows)
    ensures failed == None ==> Sharing(e, nodes)
    decreases q.edges, 8
  {
    match ShapeOf(e)
    case ManyToOne(_, _) => failed, graph, queries := LoadManyToOne(db, q, e, nodes, rows);
    case OneToMany(_, _) => failed, graph, queries := LoadOneToMany(db, q, e, nodes, rows);
    case ManyToMany(_, _) => failed, graph, queries := LoadManyToMany(db, q, e, nodes, rows);
  }

  lemma DecodedLevel(db: Database, t: Entity, subs: Subqueries, fields: seq<Column>, e: Edge, nodes: seq<Node>, rows: seq<Row>)
    requires Honest(db) && WellTyped(t, subs) && RowsOk(db, t, rows) && e in subs.of && rows != [] && |nodes| == |rows|
    requires forall i | 0 <= i < |rows| :: nodes[i].row == Project(rows[i], ColumnsOf(db, t, fields, subs))
    ensures Level(db, subs.of[e], e, nodes, rows)
  {
    EdgeEnds(e);
    forall i | 0 <= i < |nodes|
      ensures HasId(t) ==> IdOf(nodes[i].row) == IdOf(rows[i])
      ensures ShapeOf(e).ManyToOne? ==>
        ForeignKey(nodes[i].row, ShapeOf(e).fk, ShapeOf(e).nullable) == Key(rows[i], ShapeOf(e).fk)
    {
      assert rows[i] in rows;
      ProjectionKeepsKeys(db, t, fields, subs, rows[i]);
      if ShapeOf(e).ManyToOne? {
        KeyRead(db, e, fields, subs, rows[i]);
      }
    }
  }

  lemma MinusKeeps<T>(m: map<Edge, T>, before: map<Edge, T>, e: Edge, f: Edge)
    requires m - {e} == before - {e} && f != e
    ensures f in m <==> f in before
    ensures f in m ==> m[f] == before[f]
  {
    assert f in m <==> f in m - {e};
    assert f in m ==> m[f] == (m - {e})[f];
    assert f in before ==> before[f] == (before - {e})[f];
  }

  /** Loading one more edge leaves the slots loaded before as they were. */
  lemma SlotsKept(db: Database, subs: Subqueries, done: seq<Edge>, e: Edge, n: Node, rows: seq<Row>, row: Row,
                  one: map<Edge, Node>, many: map<Edge, seq<Node>>, graph: set<Node>, below: set<Node>)
    requires e !in done && e in subs.of
    requires SlotsIn(db, subs, done, one, many, rows, row, graph)
    requires n.one - {e} == one - {e} && n.many - {e} == many - {e}
    requires SlotShows(n, e, SlotTree(db, subs.of[e], e, rows, row), below)
    ensures SlotsIn(db, subs, done + [e], n.one, n.many, rows, row, graph + below)
  {
    forall f | f in done + [e] && f in subs.of
      ensures SlotIn(n.one, n.many, f, SlotTree(db, subs.of[f], f, rows, row), graph + below)
    {
      var slot := SlotTree(db, subs.of[f], f, rows, row);
      if f == e {
        SlotGrows(n.one, n.many, f, slot, below, graph + below);
      } else {
        MinusKeeps(n.one, one, e, f);
        MinusKeeps(n.many, many, e, f);
        assert SlotIn(one, many, f, slot, graph);
        assert SlotIn(n.one, n.many, f, slot, graph);
        SlotGrows(n.one, n.many, f, slot, graph, graph + below);
      }
    }
    forall f | f !in done + [e] || f !in subs.of ensures f !in n.one && f !in n.many {
      MinusKeeps(n.one, one, e, f);
      MinusKeeps(n.many, many, e, f);
    }
  }

  lemma EdgesDistinct(t: Entity)
    ensures Distinct(EdgesOf(t))
  {
  }

  /** With every requested edge loaded, each node shows its whole tree. */
  lemma NodeShows(db: Database, subs: Subqueries, edges: seq<Edge>, cols: seq<Column>, n: Node, rows: seq<Row>, row: Row,
                  below: set<Node>, graph: set<Node>)
    requires below <= graph && n in graph && forall e | e in subs.of :: e in edges
    requires n.row == Project(row, cols) && n.loaded == subs.of.Keys
    requires SlotsIn(db, subs, edges, n.one, n.many, rows, row, below)
    ensures Shows(n, BatchTree(db, subs, cols, rows, row), graph)
  {
    var tree := BatchTree(db, subs, cols, rows, row);
    forall e | e in subs.of ensures tree.slots[e] == SlotTree(db, subs.of[e], e, rows, row) && SlotShows(n, e, tree.slots[e], graph) {
      SlotGrows(n.one, n.many, e, SlotTree(db, subs.of[e], e, rows, row), below, graph);
    }
  }

  // --- A load step seen from before it: `ones` and `manys` are the slots that the nodes had ---

  ghost predicate SlotsWere(db: Database, subs: Subqueries, done: seq<Edge>, ones: seq<map<Edge, Node>>,
                            manys: seq<map<Edge, seq<Node>>>, rows: seq<Row>, graph: set<Node>)
    requires |ones| == |manys| == |rows|
    reads graph
  {
    forall i | 0 <= i < |rows| :: SlotsIn(db, subs, done, ones[i], manys[i], rows, rows[i], graph)
  }

  ghost predicate OnlyWrote(e: Edge, nodes: seq<Node>, ones: seq<map<Edge, Node>>, manys: seq<map<Edge, seq<Node>>>)
    requires |ones| == |manys| == |nodes|
    reads nodes
  {
    forall i | 0 <= i < |nodes| :: nodes[i].one - {e} == ones[i] - {e} && nodes[i].many - {e} == manys[i] - {e}
  }

  lemma SlotsStep(db: Database, subs: Subqueries, done: seq<Edge>, e: Edge, nodes: seq<Node>, ones: seq<map<Edge, Node>>,
                  manys: seq<map<Edge, seq<Node>>>, rows: seq<Row>, graph: set<Node>, below: set<Node>)
    requires e !in done && e in subs.of && |ones| == |manys| == |rows| == |nodes|
    requires SlotsWere(db, subs, done, ones, manys, rows, graph) && OnlyWrote(e, nodes, ones, manys)
    requires Filled(db, subs.of[e], e, nodes, rows, below)
    ensures EdgesLoaded(db, subs, done + [e], nodes, rows, graph + below)
  {
    forall i | 0 <= i < |nodes|
      ensures SlotsIn(db, subs, done + [e], nodes[i].one, nodes[i].many, rows, rows[i], graph + below)
    {
      SlotsKept(db, subs, done, e, nodes[i], rows, rows[i], ones[i], manys[i], graph, below);
    }
  }

  ghost predicate SharedWere(e: Edge, nodes: seq<Node>, ones: seq<map<Edge, Node>>, key: Node -> Option<int>)
    requires |ones| == |nodes|
  {
    forall i, j | 0 <= i < |nodes| && 0 <= j < |nodes| && e in ones[i] ::
      key(nodes[i]) == key(nodes[j]) <==> e in ones[j] && ones[j][e] == ones[i][e]
  }

  ghost predicate OneWas(e: Edge, nodes: seq<Node>, manys: seq<map<Edge, seq<Node>>>, id: Node -> int)
    requires |manys| == |nodes|
  {
    forall i, j, a, b | 0 <= i < |nodes| && 0 <= j < |nodes| && e in manys[i] && e in manys[j] && a in manys[i][e] && b in manys[j][e] ::
      id(a) == id(b) <==> a == b
  }

  /** Writing one edge's slots keeps what the nodes share on another edge. */
  lemma SharingKept(e: Edge, f: Edge, nodes: seq<Node>, ones: seq<map<Edge, Node>>, key: Node -> Option<int>)
    requires e != f && |ones| == |nodes| && SharedWere(f, nodes, ones, key)
    requires forall i | 0 <= i < |nodes| :: nodes[i].one - {e} == ones[i] - {e}
    ensures SharesByKey(f, nodes, key)
  {
    forall i | 0 <= i < |nodes| ensures (f in nodes[i].one <==> f in ones[i]) && (f in ones[i] ==> nodes[i].one[f] == ones[i][f]) {
      MinusKeeps(nodes[i].one, ones[i], e, f);
    }
    forall n, m | n in nodes && m in nodes && f in n.one ensures key(n) == key(m) <==> f in m.one && m.one[f] == n.one[f] {
      var i :| 0 <= i < |nodes| && nodes[i] == n;
      var j :| 0 <= j < |nodes| && nodes[j] == m;
    }
  }

  lemma OneKept(e: Edge, f: Edge, nodes: seq<Node>, manys: seq<map<Edge, seq<Node>>>, id: Node -> int)
    requires e != f && |manys| == |nodes| && OneWas(f, nodes, manys, id)
    requires forall i | 0 <= i < |nodes| :: nodes[i].many - {e} == manys[i] - {e}
    ensures OnePerId(f, nodes, id)
  {
    forall n, m, a, b | n in nodes && m in nodes && f in n.many && f in m.many && a in n.many[f] && b in m.many[f]
      ensures id(a) == id(b) <==> a == b
    {
      var i :| 0 <= i < |nodes| && nodes[i] == n;
      var j :| 0 <= j < |nodes| && nodes[j] == m;
      MinusKeeps(n.many, manys[i], e, f);
      MinusKeeps(m.many, manys[j], e, f);
    }
  }

  ghost predicate AllShared(subs: Subqueries, done: seq<Edge>, nodes: seq<Node>, ones: seq<map<Edge, Node>>,
                            manys: seq<map<Edge, seq<Node>>>)
    requires |ones| == |manys| == |nodes|
  {
    forall e | e in done && e in subs.of ::
      && (ShapeOf(e).ManyToOne? ==> SharedWere(e, nodes, ones, KeyOf(e)))
      && (ShapeOf(e).ManyToMany? ==> OneWas(e, nodes, manys, IdReader()))
  }

  lemma ShareStep(subs: Subqueries, done: seq<Edge>, e: Edge, nodes: seq<Node>, ones: seq<map<Edge, Node>>,
                  manys: seq<map<Edge, seq<Node>>>)
    requires e !in done && |ones| == |manys| == |nodes| && Sharing(e, nodes)
    requires AllShared(subs, done, nodes, ones, manys) && OnlyWrote(e, nodes, ones, manys)
    ensures AllShare(subs, done + [e], nodes)
  {
    forall f | f in done + [e] && f in subs.of ensures Sharing(f, nodes) {
      if f != e {
        if ShapeOf(f).ManyToOne? {
          SharingKept(e, f, nodes, ones, KeyOf(f));
        } else if ShapeOf(f).ManyToMany? {
          OneKept(e, f, nodes, manys, IdReader());
        }
      }
    }
  }

  lemma NotYetLoaded(db: Database, subs: Subqueries, done: seq<Edge>, e: Edge, nodes: seq<Node>, rows: seq<Row>, graph: set<Node>)
    requires e !in done && |nodes| == |rows| && EdgesLoaded(db, subs, done, nodes, rows, graph)
    ensures Unset(e, nodes)
  {
    forall n | n in nodes ensures e !in n.one && e !in n.many {
      var i :| 0 <= i < |nodes| && nodes[i] == n;
      assert SlotsIn(db, subs, done, nodes[i].one, nodes[i].many, rows, rows[i], graph);
    }
  }

  lemma SharedBefore(subs: Subqueries, done: seq<Edge>, nodes: seq<Node>, ones: seq<map<Edge, Node>>, manys: seq<map<Edge, seq<Node>>>)
    requires AllShare(subs, done, nodes) && |ones| == |manys| == |nodes|
    requires forall i | 0 <= i < |nodes| :: ones[i] == nodes[i].one && manys[i] == nodes[i].many
    ensures AllShared(subs, done, nodes, ones, manys)
  {
    forall f | f in done && f in subs.of
      ensures ShapeOf(f).ManyToOne? ==> SharedWere(f, nodes, ones, KeyOf(f))
      ensures ShapeOf(f).ManyToMany? ==> OneWas(f, nodes, manys, IdReader())
    {
      assert Sharing(f, nodes);
    }
  }

  lemma SlotsBefore(nodes: seq<Node>) returns (ones: seq<map<Edge, Node>>, manys: seq<map<Edge, seq<Node>>>)
    ensures |ones| == |manys| == |nodes|
    ensures forall i | 0 <= i < |nodes| :: ones[i] == nodes[i].one && manys[i] == nodes[i].many
  {
    ones := seq(|nodes|, i requires 0 <= i < |nodes| reads nodes => nodes[i].one);
    manys := seq(|nodes|, i requires 0 <= i < |nodes| reads nodes => nodes[i].many);
  }

  /** One step of `sqlAll`: load a requested edge. */
  method LoadNext(db: Database, subs: Subqueries, ghost done: seq<Edge>, e: Edge,
                  nodes: seq<Node>, ghost rows: seq<Row>, ghost graph: set<Node>)
      returns (failed: Option<LoadError>, ghost below: set<Node>, ghost queries: nat)
    requires e in subs.of && e !in done && |nodes| == |rows|
    requires Level(db, subs.of[e], e, nodes, rows) && forall n | n in nodes :: n !in graph
    requires EdgesLoaded(db, subs, done, nodes, rows, graph) && AllShare(subs, done, nodes)
    modifies nodes
    ensures fresh(below)
    ensures failed.Some? <==> EdgeFails(db, subs.of[e], e, rows)
    ensures failed.Some? ==> failed.value.InvalidField?
    ensures failed == None ==> EdgesLoaded(db, subs, done + [e], nodes, rows, graph + below) && AllShare(subs, done + [e], nodes)
    ensures failed == None ==> queries == EdgeRuns(db, subs.of[e], e, rows)
    decreases subs, 0
  {
    NotYetLoaded(db, subs, done, e, nodes, rows, graph);
    ghost var ones, manys := SlotsBefore(nodes);
    SharedBefore(subs, done, nodes, ones, manys);
    assert SlotsWere(db, subs, done, ones, manys, rows, graph);
    failed, below, queries := LoadEdge(db, subs.of[e], e, nodes, rows);
    if failed == None {
      assert OnlyWrote(e, nodes, ones, manys);
      SlotsStep(db, subs, done, e, nodes, ones, manys, rows, graph, below);
      ShareStep(subs, done, e, nodes, ones, manys);
    }
  }

  /** An edge that is not requested is skipped. */
  lemma NotRequested(db: Database, subs: Subqueries, done: seq<Edge>, e: Edge, nodes: seq<Node>, rows: seq<Row>, graph: set<Node>)
    requires e !in subs.of && |nodes| == |rows|
    requires EdgesLoaded(db, subs, done, nodes, rows, graph) && AllShare(subs, done, nodes)
    ensures EdgesLoaded(db, subs, done + [e], nodes, rows, graph) && AllShare(subs, done + [e], nodes)
  {
    forall i | 0 <= i < |nodes|
      ensures SlotsIn(db, subs, done + [e], nodes[i].one, nodes[i].many, rows, rows[i], graph)
    {
      assert SlotsIn(db, subs, done, nodes[i].one, nodes[i].many, rows, rows[i], graph);
    }
  }

  lemma SomethingFails(db: Database, subs: Subqueries, e: Edge, rows: seq<Row>)
    requires e in subs.of && EdgeFails(db, subs.of[e], e, rows)
    ensures BatchFails(db, subs, rows)
  {
  }

  /** One `if query := _q.with...; query != nil` block of `sqlAll`. */
  method LoadIfRequested(db: Database, subs: Subqueries, ghost done: seq<Edge>, e: Edge,
                         nodes: seq<Node>, ghost rows: seq<Row>, ghost graph: set<Node>)
      returns (failed: Option<LoadError>, ghost graph': set<Node>, ghost queries: nat)
    requires e !in done && |nodes| == |rows| && (e in subs.of ==> Level(db, subs.of[e], e, nodes, rows))
    requires EdgesLoaded(db, subs, done, nodes, rows, graph) && AllShare(subs, done, nodes) && forall n | n in nodes :: n !in graph
    modifies nodes
    ensures fresh(graph' - graph)
    ensures failed.Some? <==> e in subs.of && EdgeFails(db, subs.of[e], e, rows)
    ensures failed.Some? ==> failed.value.InvalidField? && BatchFails(db, subs, rows)
    ensures failed == None ==> EdgesLoaded(db, subs, done + [e], nodes, rows, graph') && AllShare(subs, done + [e], nodes)
    ensures failed == None ==> queries == if e in subs.of then EdgeRuns(db, subs.of[e], e, rows) else 0
    decreases subs, 1
  {
    if e in subs.of {
      ghost var below;
      failed, below, queries := LoadNext(db, subs, done, e, nodes, rows, graph);
      graph' := graph + below;
      if failed.Some? {
        SomethingFails(db, subs, e, rows);
      }
    } else {
      failed, graph', queries := None, graph, 0;
      NotRequested(db, subs, done, e, nodes, rows, graph);
    }
  }

  lemma RunsStep(db: Database, done: seq<Edge>, e: Edge, subs: Subqueries, batch: seq<Row>)
    ensures RunsOver(db, done + [e], subs, batch) ==
      RunsOver(db, done, subs, batch) + if e in subs.of then EdgeRuns(db, subs.of[e], e, batch) else 0
  {
    assert (done + [e])[..|done|] == done;
  }

  ghost predicate NoneFails(db: Database, subs: Subqueries, done: seq<Edge>, rows: seq<Row>) {
    forall e | e in done && e in subs.of :: !EdgeFails(db, subs.of[e], e, rows)
  }

  lemma NoneFailsAll(db: Database, subs: Subqueries, edges: seq<Edge>, rows: seq<Row>)
    requires NoneFails(db, subs, edges, rows) && forall e | e in subs.of :: e in edges
    ensures !BatchFails(db, subs, rows)
  {
  }

  /** The load steps of `sqlAll`, in order; the first failure ends the load. */
  method LoadEdges(db: Database, subs: Subqueries, edges: seq<Edge>, nodes: seq<Node>, ghost rows: seq<Row>)
      returns (failed: Option<LoadError>, ghost graph: set<Node>, ghost queries: nat)
    requires Distinct(edges) && |nodes| == |rows|
    requires forall e | e in subs.of :: e in edges && Level(db, subs.of[e], e, nodes, rows)
    requires forall n | n in nodes :: n.one == map[] && n.many == map[]
    modifies nodes
    ensures fresh(graph)
    ensures failed.Some? <==> BatchFails(db, subs, rows)
    ensures failed.Some? ==> failed.value.InvalidField?
    ensures failed == None ==> EdgesLoaded(db, subs, edges, nodes, rows, graph) && AllShare(subs, edges, nodes)
    ensures failed == None ==> queries == RunsOver(db, edges, subs, rows)
    decreases subs, 2
  {
    graph, failed, queries := {}, None, 0;
    ghost var done := [];
    for k := 0 to |edges|
      invariant done == edges[..k] && fresh(graph) && failed == None
      invariant EdgesLoaded(db, subs, done, nodes, rows, graph) && AllShare(subs, done, nodes)
      invariant queries == RunsOver(db, done, subs, rows)
      invariant NoneFails(db, subs, done, rows)
    {
      ghost var ran := queries;
      var e := edges[k];
      assert edges[..k + 1] == done + [e];
      failed, graph, queries := LoadIfRequested(db, subs, done, e, nodes, rows, graph);
      if failed.Some? {
        return;
      }
      RunsStep(db, done, e, subs, rows);
      done, queries := done + [e], ran + queries;
    }
    assert done == edges;
    NoneFailsAll(db, subs, edges, rows);
  }

  method Materialise(db: Database, t: Entity, subs: Subqueries, ghost fields: seq<Column>, cols: seq<Column>, rows: seq<Row>)
      returns (r: Outcome<seq<Node>>, ghost graph: set<Node>, ghost queries: nat)
    requires Honest(db) && WellTyped(t, subs) && RowsOk(db, t, rows) && cols == ColumnsOf(db, t, fields, subs)
    ensures fresh(graph)
    ensures r.Err? <==> BatchFails(db, subs, rows)
    ensures r.Err? ==> r.error.InvalidField?
    ensures r.Ok? ==> AllShow(r.value, BatchTrees(db, subs, cols, rows, rows), graph) && AllShare(subs, EdgesOf(t), r.value)
    ensures r.Ok? ==> queries == Runs(db, t, subs, rows)
    decreases subs, 3
  {
    graph, queries := {}, 0;
    var nodes := Decode(cols, subs.of.Keys, rows);
    if nodes == [] {
      NoRows(db, EdgesOf(t), subs);
      r := Ok([]);
      return;
    }
    EdgesDistinct(t);
    forall e | e in subs.of ensures e in EdgesOf(t) && Level(db, subs.of[e], e, nodes, rows) {
      EdgesOfOwner(t, e);
      DecodedLevel(db, t, subs, fields, e, nodes, rows);
    }
    var failed;
    ghost var below;
    failed, below, queries := LoadEdges(db, subs, EdgesOf(t), nodes, rows);
    if failed.Some? {
      r := Err(failed.value);
      return;
    }
    graph := below + set n | n in nodes;
    forall i | 0 <= i < |nodes| ensures Shows(nodes[i], BatchTree(db, subs, cols, rows, rows[i]), graph) {
      NodeShows(db, subs, EdgesOf(t), cols, nodes[i], rows, rows[i], below, graph);
    }
    r := Ok(nodes);
  }

  /** Every node carries each column that was asked for, with its row's value; without a selection that is every column. */
  ghost predicate HaveColumns(db: Database, q: Query, rows: seq<Row>, nodes: seq<Node>) {
    |nodes| == |rows| && forall i | 0 <= i < |rows| :: HasColumns(db, q.entity, q.fields, rows[i], nodes[i].row)
  }

  lemma ShownColumns(db: Database, q: Query, rows: seq<Row>, nodes: seq<Node>, graph: set<Node>)
    requires RowsOk(db, q.entity, rows)
    requires AllShow(nodes, BatchTrees(db, q.edges, ColumnsOf(db, q.entity, q.fields, q.edges), rows, rows), graph)
    ensures HaveColumns(db, q, rows, nodes)
  {
    var cols := ColumnsOf(db, q.entity, q.fields, q.edges);
    ShownRows(db, q.edges, cols, rows, nodes, graph);
    CoversOwn(db, q.entity, q.fields, q.edges);
    forall i | 0 <= i < |rows| ensures HasColumns(db, q.entity, q.fields, rows[i], nodes[i].row) {
      assert rows[i] in rows;
      CoveredColumns(db, q.entity, q.fields, cols, rows[i]);
    }
  }

  /** What the nodes show is, for each row, what the lookups for that row alone find, at every depth. */
  ghost predicate NaivelyDepicted(db: Database, q: Query, rows: seq<Row>, trees: seq<Tree>) {
    |trees| == |rows| && forall i | 0 <= i < |rows| :: Depicts(db, q.entity, q.fields, q.edges, rows[i], trees[i])
  }

  lemma AllDepict(db: Database, q: Query, rows: seq<Row>)
    requires Honest(db) && WellTyped(q.entity, q.edges) && RowsOk(db, q.entity, rows)
    ensures NaivelyDepicted(db, q, rows, NaiveTrees(db, q.edges, ColumnsOf(db, q.entity, q.fields, q.edges), rows))
  {
    var cols := ColumnsOf(db, q.entity, q.fields, q.edges);
    CoversOwn(db, q.entity, q.fields, q.edges);
    forall i | 0 <= i < |rows| ensures Depicts(db, q.entity, q.fields, q.edges, rows[i], NaiveTrees(db, q.edges, cols, rows)[i]) {
      assert rows[i] in rows;
      NaiveDepicts(db, q.entity, q.fields, q.edges, cols, rows[i]);
    }
  }

  lemma BatchEqualsNaive(db: Database, q: Query, rows: seq<Row>, cols: seq<Column>)
    requires Honest(db) && WellTyped(q.entity, q.edges) && Unbounded(q.edges)
    ensures BatchTrees(db, q.edges, cols, rows, rows) == NaiveTrees(db, q.edges, cols, rows)
  {
    forall i | 0 <= i < |rows| ensures BatchTrees(db, q.edges, cols, rows, rows)[i] == NaiveTrees(db, q.edges, cols, rows)[i] {
      BatchIsNaive(db, q.entity, q.edges, cols, rows, rows[i]);
    }
  }

  /** prepareQuery, QueryNodes, then the load steps: `All` on a query builder. */
  method All(db: Database, q: Query) returns (r: Outcome<seq<Node>>, ghost graph: set<Node>, ghost queries: nat)
    requires Honest(db) && WellTyped(q.entity, q.edges)
    ensures fresh(graph)
    ensures r.Err? <==> BadFields(db, q) || BatchFails(db, q.edges, QueryNodes(db, q))
    ensures r.Err? ==> r.error.InvalidField?
    ensures r.Ok? ==> forall c | c in q.fields :: c in db.columns(q.entity)
    ensures r.Ok? ==> AllShow(r.value, BatchTrees(db, q.edges, ColumnsOf(db, q.entity, q.fields, q.edges),
                                                  QueryNodes(db, q), QueryNodes(db, q)), graph)
    ensures r.Ok? ==> HaveColumns(db, q, QueryNodes(db, q), r.value)
    ensures r.Ok? ==> AllShare(q.edges, EdgesOf(q.entity), r.value)
    ensures r.Ok? ==> queries == 1 + Runs(db, q.entity, q.edges, QueryNodes(db, q))
    decreases q.edges, 4
  {
    graph, queries := {}, 0;
    var bad := PrepareQuery(db, q);
    if bad.Some? {
      r := Err(InvalidField(bad.value));
      return;
    }
    QueryRowsOk(db, q);
    var cols := CompileColumns(db, q);
    r, graph, queries := Materialise(db, q.entity, q.edges, q.fields, cols, QueryNodes(db, q));
    queries := queries + 1;
    if r.Ok? {
      ShownColumns(db, q, QueryNodes(db, q), r.value, graph);
    }
  }

  /** Main result: for every tree of nested sub-queries without Limit or Offset on a sub-query, `All` builds the object
      graph of one lookup per node and edge, and fails exactly when one of those lookups names an invalid field. It runs
      at most one query per query of the tree. */
  method AllIsNaive(db: Database, q: Query) returns (r: Outcome<seq<Node>>, ghost graph: set<Node>, ghost queries: nat)
    requires Honest(db) && WellTyped(q.entity, q.edges) && Unbounded(q.edges)
    ensures fresh(graph)
    ensures r.Err? <==> (exists c | c in q.fields :: c !in db.columns(q.entity)) || SomeFails(db, q.edges, QueryNodes(db, q))
    ensures r.Err? ==> r.error.InvalidField?
    ensures r.Ok? ==> var trees := NaiveTrees(db, q.edges, ColumnsOf(db, q.entity, q.fields, q.edges), QueryNodes(db, q));
      AllShow(r.value, trees, graph) && NaivelyDepicted(db, q, QueryNodes(db, q), trees)
    ensures r.Ok? ==> HaveColumns(db, q, QueryNodes(db, q), r.value)
    ensures r.Ok? ==> AllShare(q.edges, EdgesOf(q.entity), r.value)
    ensures r.Ok? ==> queries <= 1 + Size(q.entity, q.edges)
  {
    r, graph, queries := All(db, q);
    ghost var rows, cols := QueryNodes(db, q), ColumnsOf(db, q.entity, q.fields, q.edges);
    RunsAtMostSize(db, q.entity, q.edges, rows);
    BatchFailsIffNaive(db, q.entity, q.edges, rows);
    NodesFail(db, q.edges, rows);
    QueryRowsOk(db, q);
    BatchEqualsNaive(db, q, rows, cols);
    AllDepict(db, q, rows);
  }
}
