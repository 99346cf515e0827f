/** Column lists of compiled queries: a caller's field selection never loses an id or a needed foreign key. */
module Projection {
  import opened Collections
  import opened Schema
  import opened SqlGraph

  function AddOnce(cols: seq<Column>, c: Column): seq<Column> {
    if c in cols then cols else cols + [c]
  }

  /** AppendFieldOnce on the sub-query of a one-to-many edge whose fields were selected by the caller. */
  function LinkedFields(e: Edge, fields: seq<Column>): seq<Column> {
    if ShapeOf(e).OneToMany? && fields != [] then AddOnce(fields, ShapeOf(e).fk) else fields
  }

  function AddKeys(edges: seq<Edge>, subs: Subqueries, cols: seq<Column>): seq<Column> {
    if edges == [] then cols else
    var e := edges[|edges| - 1];
    var before := AddKeys(edges[..|edges| - 1], subs, cols);
    if e in subs.of && ShapeOf(e).ManyToOne? then AddOnce(before, ShapeOf(e).fk) else before
  }

  predicate NotId(c: Column) { c != Id }

  function Selected(t: Entity, fields: seq<Column>): seq<Column> {
    if HasId(t) then [Id] + Filter(fields, NotId) else fields
  }

  /** `_spec.Node.Columns` of a query on `t` with these fields and sub-queries. */
  function ColumnsOf(db: Database, t: Entity, fields: seq<Column>, subs: Subqueries): seq<Column> {
    if fields == [] then db.columns(t) else AddKeys(EdgesOf(t), subs, Selected(t, fields))
  }

  /** querySpec builds the list by appending: the selected fields, then the keys of many-to-one edges. */
  method CompileColumns(db: Database, q: Query) returns (cols: seq<Column>)
    ensures cols == ColumnsOf(db, q.entity, q.fields, q.edges)
  {
    if q.fields == [] {
      return db.columns(q.entity);
    }
    cols := AppendFields(q.entity, q.fields);
    cols := AppendKeys(EdgesOf(q.entity), q.edges, cols);
  }

  lemma SelectedStep(t: Entity, fields: seq<Column>, i: nat)
    requires i < |fields|
    ensures Selected(t, fields[..i + 1]) == Selected(t, fields[..i]) + if !HasId(t) || fields[i] != Id then [fields[i]] else []
  {
    assert fields[..i + 1] == fields[..i] + [fields[i]];
    FilterSnoc(fields[..i], NotId, fields[i]);
  }

  method AppendFields(t: Entity, fields: seq<Column>) returns (cols: seq<Column>)
    ensures cols == Selected(t, fields)
  {
    cols := if HasId(t) then [Id] else [];
    for i := 0 to |fields|
      invariant cols == Selected(t, fields[..i])
    {
      SelectedStep(t, fields, i);
      if !HasId(t) || fields[i] != Id {
        cols := cols + [fields[i]];
      }
    }
    assert fields[..|fields|] == fields;
  }

  method AppendKeys(edges: seq<Edge>, subs: Subqueries, selected: seq<Column>) returns (cols: seq<Column>)
    ensures cols == AddKeys(edges, subs, selected)
  {
    cols := selected;
    for i := 0 to |edges|
      invariant cols == AddKeys(edges[..i], subs, selected)
    {
      assert edges[..i + 1][..i] == edges[..i];
      if edges[i] in subs.of && ShapeOf(edges[i]).ManyToOne? && ShapeOf(edges[i]).fk !in cols {
        cols := cols + [ShapeOf(edges[i]).fk];
      }
    }
    assert edges[..|edges|] == edges;
  }

  ghost predicate NeedsKey(subs: Subqueries, e: Edge, c: Column) {
    e in subs.of && ShapeOf(e).ManyToOne? && ShapeOf(e).fk == c
  }

  lemma {:induction false} AddKeysMember(edges: seq<Edge>, subs: Subqueries, cols: seq<Column>, c: Column)
    ensures c in AddKeys(edges, subs, cols) <==> c in cols || exists e | e in edges :: NeedsKey(subs, e, c)
  {
    if edges != [] {
      var n := |edges| - 1;
      assert edges == edges[..n] + [edges[n]];
      AddKeysMember(edges[..n], subs, cols, c);
      assert (exists e | e in edges :: NeedsKey(subs, e, c)) <==>
        NeedsKey(subs, edges[n], c) || exists e | e in edges[..n] :: NeedsKey(subs, e, c);
    }
  }

  /** Keys are appended at the end and are never the id. */
  lemma {:induction false} AddKeysIdOnce(edges: seq<Edge>, subs: Subqueries, cols: seq<Column>)
    requires cols != [] && Id !in cols[1..]
    ensures cols <= AddKeys(edges, subs, cols) && Id !in AddKeys(edges, subs, cols)[1..]
  {
    if edges != [] {
      var n := |edges| - 1;
      AddKeysIdOnce(edges[..n], subs, cols);
      EdgeEnds(edges[n]);
      var before := AddKeys(edges[..n], subs, cols);
      assert ShapeOf(edges[n]).ManyToOne? ==> (before + [ShapeOf(edges[n]).fk])[1..] == before[1..] + [ShapeOf(edges[n]).fk];
    }
  }

  /** The id column is first and nowhere else, so a row's cell 0 is its id. */
  lemma IdFirstOnce(db: Database, t: Entity, fields: seq<Column>, subs: Subqueries)
    requires ColumnsOk(db) && HasId(t)
    ensures var cols := ColumnsOf(db, t, fields, subs); cols != [] && cols[0] == Id && Id !in cols[1..]
  {
    if fields != [] {
      FilterMember(fields, NotId, Id);
      assert Selected(t, fields)[1..] == Filter(fields, NotId);
      AddKeysIdOnce(EdgesOf(t), subs, Selected(t, fields));
    }
  }

  /** What is read: the id, the selected fields, and the foreign keys of requested many-to-one edges. */
  lemma SelectedColumns(db: Database, t: Entity, fields: seq<Column>, subs: Subqueries, c: Column)
    requires fields != []
    ensures c in ColumnsOf(db, t, fields, subs) <==>
      (c == Id && HasId(t)) || c in fields || exists e | Owner(e) == t :: NeedsKey(subs, e, c)
  {
    AddKeysMember(EdgesOf(t), subs, Selected(t, fields), c);
    FilterMember(fields, NotId, c);
    forall e ensures e in EdgesOf(t) <==> Owner(e) == t {
      EdgesOfOwner(t, e);
    }
  }

  /** Nothing that was asked for is missing: without a selection every column of the entity is read, with one every selected
      column. */
  lemma RequestedKept(db: Database, t: Entity, fields: seq<Column>, subs: Subqueries, row: Row, c: Column)
    requires c in db.columns(t) && (fields == [] || c in fields) && c in row
    ensures var read := Project(row, ColumnsOf(db, t, fields, subs)); c in read && read[c] == row[c]
  {
    if fields != [] {
      SelectedColumns(db, t, fields, subs, c);
    }
  }

  /** The same for the rows of a one-to-many edge, to whose selection the key of the owner is added. */
  lemma LinkedKept(db: Database, e: Edge, fields: seq<Column>, subs: Subqueries, row: Row, c: Column)
    requires c in db.columns(Target(e)) && (fields == [] || c in fields) && c in row
    ensures var read := Project(row, ColumnsOf(db, Target(e), LinkedFields(e, fields), subs)); c in read && read[c] == row[c]
  {
    assert fields != [] ==> c in LinkedFields(e, fields);
    RequestedKept(db, Target(e), LinkedFields(e, fields), subs, row, c);
  }

  /** Decoding a projected row gives the id and every foreign key that a requested many-to-one edge reads. */
  lemma ProjectionKeepsKeys(db: Database, t: Entity, fields: seq<Column>, subs: Subqueries, row: Row)
    requires ColumnsOk(db) && RowOk(db, t, row)
    ensures HasId(t) ==> IdOf(Project(row, ColumnsOf(db, t, fields, subs))) == IdOf(row)
    ensures forall e | Owner(e) == t && e in subs.of && ShapeOf(e).ManyToOne? ::
      Key(Project(row, ColumnsOf(db, t, fields, subs)), ShapeOf(e).fk) == Key(row, ShapeOf(e).fk)
  {
    if HasId(t) {
      IdFirstOnce(db, t, fields, subs);
    }
    forall e | Owner(e) == t && e in subs.of && ShapeOf(e).ManyToOne?
      ensures ShapeOf(e).fk in ColumnsOf(db, t, fields, subs)
    {
      if fields != [] {
        assert NeedsKey(subs, e, ShapeOf(e).fk);
        SelectedColumns(db, t, fields, subs, ShapeOf(e).fk);
      }
    }
  }

  /** Decoding a child row gives the foreign key through which a one-to-many edge finds its owner. */
  lemma ProjectionKeepsLink(db: Database, e: Edge, fields: seq<Column>, subs: Subqueries, row: Row)
    requires ColumnsOk(db) && ShapeOf(e).OneToMany? && RowOk(db, Target(e), row)
    ensures var cols := ColumnsOf(db, Target(e), LinkedFields(e, fields), subs);
      Key(Project(row, cols), ShapeOf(e).fk) == Key(row, ShapeOf(e).fk)
  {
    if fields != [] {
      SelectedColumns(db, Target(e), LinkedFields(e, fields), subs, ShapeOf(e).fk);
    }
  }
}
