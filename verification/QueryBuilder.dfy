/** Query builders as objects: cloning a tree of them, and why the two trees cannot influence each other. */
module QueryBuilder {
  import opened Collections
  import opened Schema

  /** A builder and its sub-builders by value. Ordering terms, interceptors, modifiers, the selector and the path closure
      are opaque. */
  datatype View = View(entity: Entity, limit: Option<nat>, offset: Option<nat>, unique: Option<bool>, fields: seq<Column>,
                       order: seq<nat>, inters: seq<nat>, preds: seq<Pred>, modifiers: seq<nat>,
                       sql: Option<nat>, path: Option<nat>, subs: Subviews)
  datatype Subviews = Subviews(of: map<Edge, View>)

  /** What a clone keeps: everything but the modifiers, at every depth. */
  ghost function Cloned(v: View): View {
    v.(modifiers := [], subs := Subviews(map e | e in v.subs.of :: Cloned(v.subs.of[e])))
  }

  /** The configuring methods of one builder. `With` puts a new, empty builder on an edge; configuring it is a step there. */
  datatype Step =
    | Where(ps: seq<Pred>) | Order(os: seq<nat>) | Limit(n: nat) | Offset(n: nat) | Unique(on: bool)
    | Select(cols: seq<Column>) | Modify(ms: seq<nat>) | With(e: Edge)

  function Empty(t: Entity): View {
    View(t, None, None, None, [], [], [], [], [], None, None, Subviews(map[]))
  }

  function Stepped(v: View, step: Step): View {
    match step
    case Where(ps) => v.(preds := v.preds + ps)
    case Order(os) => v.(order := v.order + os)
    case Limit(n) => v.(limit := Some(n))
    case Offset(n) => v.(offset := Some(n))
    case Unique(on) => v.(unique := Some(on))
    case Select(cols) => v.(fields := v.fields + cols)
    case Modify(ms) => v.(modifiers := v.modifiers + ms)
    case With(e) => if Owner(e) == v.entity then v.(subs := Subviews(v.subs.of[e := Empty(Target(e))])) else v
  }

  /** A step on the sub-builder at the end of a path of edges. */
  function SteppedAt(v: View, at: seq<Edge>, step: Step): View
    decreases |at|
  {
    if at == [] then Stepped(v, step)
    else if at[0] in v.subs.of then v.(subs := Subviews(v.subs.of[at[0] := SteppedAt(v.subs.of[at[0]], at[1..], step)]))
    else v
  }

  // --- Slices ---

  /** A slice that starts its backing array; other slices may start the same array. */
  datatype Slice<T> = Slice(data: array<T>, len: nat) {
    predicate Fits() {
      len <= data.Length
    }

    ghost function Items(): seq<T>
      requires Fits()
      reads data
    {
      data[..len]
    }
  }

  /** Go's `append`: in place when the array has room, otherwise into a new array of some larger capacity. */
  method Append<T>(s: Slice<T>, xs: seq<T>) returns (r: Slice<T>)
    requires s.Fits()
    modifies s.data
    ensures r.Fits() && (r.data == s.data || fresh(r.data)) && r.Items() == old(s.Items()) + xs
    ensures s.len + |xs| <= s.data.Length ==> r.data == s.data
  {
    var n := s.len + |xs|;
    if n <= s.data.Length {
      for i := 0 to |xs|
        invariant s.data[..s.len] == old(s.Items()) && s.data[s.len..s.len + i] == xs[..i]
      {
        s.data[s.len + i] := xs[i];
      }
      r := Slice(s.data, n);
      assert r.Items() == s.data[..s.len] + s.data[s.len..n];
    } else {
      var items := s.data[..s.len] + xs;
      var capacity: nat :| n <= capacity;
      var data := new T[capacity](i => items[if 0 <= i < n then i else 0]);
      r := Slice(data, n);
    }
  }

  /** `append([]T{}, s...)`. */
  method Copy<T>(s: Slice<T>) returns (r: Slice<T>)
    requires s.Fits()
    ensures r.Fits() && fresh(r.data) && r.Items() == s.Items()
  {
    var items := s.data[..s.len];
    var data := new T[s.len](i requires 0 <= i < |items| => items[i]);
    r := Slice(data, s.len);
  }

  /** Four lists without elements or capacity. */
  method Nils() returns (os: Slice<nat>, ns: Slice<nat>, ms: Slice<nat>, ps: Slice<Pred>)
    ensures fresh(os.data) && fresh(ns.data) && fresh(ms.data) && fresh(ps.data)
    ensures os.data != ns.data && os.data != ms.data && ns.data != ms.data
    ensures os.Fits() && ns.Fits() && ms.Fits() && ps.Fits() && os.len == ns.len == ms.len == ps.len == 0
  {
    var o, i, m, p := new nat[0], new nat[0], new nat[0], new Pred[0];
    os, ns, ms, ps := Slice(o, 0), Slice(i, 0), Slice(m, 0), Slice(p, 0);
  }

  /** Why a clone copies: of two appends to the same slice with room, the second overwrites what the first wrote. */
  method SharedAppends<T>(s: Slice<T>, x: T, y: T) returns (a: Slice<T>, b: Slice<T>)
    requires s.Fits() && s.len < s.data.Length
    modifies s.data
    ensures a.Fits() && b.Fits() && a.Items() == b.Items() == old(s.Items()) + [y]
  {
    a := Append(s, [x]);
    b := Append(s, [y]);
  }

  class Context {
    var limit: Option<nat>
    var offset: Option<nat>
    var unique: Option<bool>
    var fields: Slice<Column>

    constructor (l: Option<nat>, o: Option<nat>, u: Option<bool>, f: Slice<Column>)
      ensures limit == l && offset == o && unique == u && fields == f
    {
      limit, offset, unique, fields := l, o, u, f;
    }

    method Clone() returns (c: Context)
      requires fields.Fits()
      ensures fresh(c) && fresh(c.fields.data) && c.fields.Fits() && c.fields.Items() == fields.Items()
      ensures c.limit == limit && c.offset == offset && c.unique == unique
    {
      var f := Copy(fields);
      c := new Context(limit, offset, unique, f);
    }
  }

  class Builder {
    const entity: Entity
    var ctx: Context
    var order: Slice<nat>
    var inters: Slice<nat>
    var preds: Slice<Pred>
    var modifiers: Slice<nat>
    var sql: Option<nat>
    var path: Option<nat>
    var with: map<Edge, Builder>
    ghost var Below: set<object>
    ghost var Repr: set<object>
    ghost var Value: View

    /** This builder, its context and the backing arrays of its slices. */
    ghost function Mine(): set<object>
      reads `ctx, `order, `inters, `preds, `modifiers, ctx
    {
      {this, ctx, order.data, inters.data, preds.data, modifiers.data, ctx.fields.data}
    }

    /** No two slices share their array. */
    ghost predicate Apart()
      reads `ctx, `order, `inters, `preds, `modifiers, ctx
    {
      && order.Fits() && inters.Fits() && preds.Fits() && modifiers.Fits() && ctx.fields.Fits()
      && order.data != inters.data && order.data != modifiers.data && inters.data != modifiers.data
    }

    /** What this builder holds itself. */
    ghost function Own(): View
      requires Apart()
      reads `ctx, `order, `inters, `preds, `modifiers, `sql, `path, ctx
      reads ctx.fields.data, order.data, inters.data, preds.data, modifiers.data
    {
      View(entity, ctx.limit, ctx.offset, ctx.unique, ctx.fields.Items(), order.Items(), inters.Items(), preds.Items(),
           modifiers.Items(), sql, path, Subviews(map[]))
    }

    /** The tree's objects are this builder's own, and those of its sub-builders, all different. */
    ghost predicate Valid()
      reads this, Repr
      decreases Repr, 0
    {
      && this in Repr && ctx in Repr && this !in Below
      && Repr == Mine() + Below && Mine() !! Below && Apart()
      && Value.(subs := Subviews(map[])) == Own()
      && Forest(entity, with, Value.subs.of, Below)
    }

    /** Takes the tree's value and the objects below this builder as they now are. */
    ghost method Settle(v: View, below: set<object>)
      requires Apart() && Mine() !! below
      requires v.(subs := Subviews(map[])) == Own() && Forest(entity, with, v.subs.of, below)
      modifies `Value, `Below, `Repr
      ensures Valid() && Value == v && Below == below && Repr == Mine() + below && Mine() == old(Mine())
    {
      var mine, own, grown := Mine(), Own(), Forest(entity, with, v.subs.of, below);
      assert this in mine;
      Value, Below, Repr := v, below, mine + below;
      assert Mine() == mine && Own() == own;
      assert Forest(entity, with, v.subs.of, below) == grown;
    }

    constructor (t: Entity)
      ensures Valid() && fresh(Repr) && entity == t
      ensures Value == Empty(t)
    {
      entity := t;
      var selected := new Column[0];
      ctx := new Context(None, None, None, Slice(selected, 0));
      var os, ns, ms, ps := Nils();
      order, inters, modifiers, preds := os, ns, ms, ps;
      sql, path, with := None, None, map[];
      new;
      assert Own() == Empty(t);
      Settle(Empty(t), {});
      MineIsNew(this);
      assert Repr == Mine();
    }

    /** A builder put together from parts, without modifiers; the sub-builders own the given objects. */
    constructor Of(t: Entity, c: Context, o: Slice<nat>, i: Slice<nat>, ps: Slice<Pred>, s: Option<nat>, p: Option<nat>,
        subs: map<Edge, Builder>, ghost objects: set<object>, ghost views: map<Edge, View>)
      requires c.fields.Fits() && o.Fits() && i.Fits() && ps.Fits() && o.data != i.data
      requires {c, c.fields.data, o.data, i.data, ps.data} !! objects && Forest(t, subs, views, objects)
      ensures Valid() && entity == t && Below == objects && fresh(modifiers.data)
      ensures ctx == c && order == o && inters == i && preds == ps
      ensures Value == View(t, c.limit, c.offset, c.unique, c.fields.Items(), o.Items(), i.Items(), ps.Items(), [], s, p, Subviews(views))
    {
      entity := t;
      var ms := new nat[0];
      ctx, order, inters, preds, modifiers, sql, path, with := c, o, i, ps, Slice(ms, 0), s, p, subs;
      new;
      Settle(View(t, c.limit, c.offset, c.unique, c.fields.Items(), o.Items(), i.Items(), ps.Items(), [], s, p, Subviews(views)), objects);
    }

    /** Clones of the sub-builders on these edges, on objects of their own. */
    method CloneSubs(edges: seq<Edge>) returns (copies: map<Edge, Builder>, ghost views: map<Edge, View>, ghost objects: set<object>)
      requires Valid() && Distinct(edges)
      ensures fresh(objects) && Forest(entity, copies, views, objects)
      ensures forall e :: e in views <==> e in edges && e in Value.subs.of
      ensures forall e | e in views :: views[e] == Cloned(Value.subs.of[e])
      decreases Repr, 0
    {
      copies, views, objects := map[], map[], {};
      for i := 0 to |edges|
        invariant fresh(objects) && Forest(entity, copies, views, objects)
        invariant forall e :: e in views <==> e in edges[..i] && e in Value.subs.of
        invariant forall e | e in views :: views[e] == Cloned(Value.subs.of[e])
      {
        assert edges[..i + 1] == edges[..i] + [edges[i]];
        var e := edges[i];
        if e in with {
          TreeOn(entity, with, Value.subs.of, Below, e);
          var c := with[e].Clone();
          Plant(entity, copies, views, objects, e, c);
          copies, views, objects := copies[e := c], views[e := c.Value], objects + c.Repr;
        }
      }
      assert edges[..|edges|] == edges;
    }

    method CopyOwn() returns (c: Context, o: Slice<nat>, i: Slice<nat>, ps: Slice<Pred>)
      requires Apart()
      ensures fresh(c) && fresh(c.fields.data) && fresh(o.data) && fresh(i.data) && fresh(ps.data) && o.data != i.data
      ensures c.fields.Fits() && c.fields.Items() == ctx.fields.Items()
      ensures c.limit == ctx.limit && c.offset == ctx.offset && c.unique == ctx.unique
      ensures o.Fits() && o.Items() == order.Items() && i.Fits() && i.Items() == inters.Items()
      ensures ps.Fits() && ps.Items() == preds.Items()
    {
      c := ctx.Clone();
      o := Copy(order);
      i := Copy(inters);
      ps := Copy(preds);
    }

    /** A builder with copies of this one's own slices and context, on these sub-builders. */
    method CloneOnto(subs: map<Edge, Builder>, ghost objects: set<object>, ghost views: map<Edge, View>) returns (c: Builder)
      requires Apart() && Forest(entity, subs, views, objects)
      ensures c.Valid() && c.entity == entity && fresh(c.Repr - objects)
      ensures c.Value == Own().(modifiers := [], subs := Subviews(views))
    {
      var context, o, i, ps := CopyOwn();
      c := new Builder.Of(entity, context, o, i, ps, sql, path, subs, objects, views);
      MineIsNew(c);
    }

    /** The path closure is shared; everything else is copied, except the modifiers, which the clone starts without. */
    method Clone() returns (c: Builder)
      requires Valid()
      ensures c.Valid() && fresh(c.Repr) && c.entity == entity && c.Value == Cloned(Value)
      decreases Repr, 1
    {
      EdgesOnce(entity);
      var copies, views, objects := CloneSubs(EdgesOf(entity));
      c := CloneOnto(copies, objects, views);
      ClonedSubs(entity, Value, views);
    }

    method Configure(step: Step)
      requires !step.With? && Apart()
      modifies `order, `preds, `modifiers, Mine() - {this}
      ensures Apart() && ctx == old(ctx) && fresh(Mine() - old(Mine())) && Own() == Stepped(old(Own()), step)
    {
      match step
      case Where(ps) => preds := Append(preds, ps);
      case Order(os) => order := Append(order, os);
      case Limit(n) => ctx.limit := Some(n);
      case Offset(n) => ctx.offset := Some(n);
      case Unique(on) => ctx.unique := Some(on);
      case Select(cols) => ctx.fields := Append(ctx.fields, cols);
      case Modify(ms) => modifiers := Append(modifiers, ms);
    }

    method StepOwn(step: Step)
      requires Valid() && !step.With?
      modifies Mine()
      ensures Valid() && fresh(Repr - old(Repr)) && Value == Stepped(old(Value), step)
    {
      ghost var views := Value.subs.of;
      Configure(step);
      assert Forest(entity, with, views, Below);
      OwnStepped(Value, step);
      Settle(Stepped(Value, step), Below);
    }

    /** Puts a builder on an edge, in place of the one that may be there. */
    method Adopt(e: Edge, c: Builder, ghost objects: set<object>)
      requires Owner(e) == entity && c.Valid() && Mine() !! objects + c.Repr && c.Repr !! objects
      requires Apart() && Value.(subs := Subviews(map[])) == Own()
      requires Forest(entity, with - {e}, Value.subs.of - {e}, objects)
      modifies `with, `Below, `Repr, `Value
      ensures Valid() && Below == objects + c.Repr && Mine() == old(Mine())
      ensures Value == old(Value).(subs := Subviews(old(Value).subs.of[e := c.Value]))
    {
      Plant(entity, with - {e}, Value.subs.of - {e}, objects, e, c);
      Regrown(with, Value.subs.of, e, c, c.Value);
      with := with[e := c];
      Settle(Value.(subs := Subviews(Value.subs.of[e := c.Value])), objects + c.Repr);
    }

    method Attach(e: Edge)
      requires Valid() && Owner(e) == entity
      modifies this
      ensures Valid() && fresh(Repr - old(Repr)) && Value == Stepped(old(Value), With(e))
    {
      var c := new Builder(Target(e));
      Uproot(entity, with, Value.subs.of, Below, e);
      Adopt(e, c, Below);
      WithStepped(old(Value), e);
    }

    /** A caller that kept a sub-builder can configure it later through that reference. */
    method StepAt(at: seq<Edge>, step: Step)
      requires Valid()
      modifies Repr
      ensures Valid() && fresh(Repr - old(Repr)) && Value == SteppedAt(old(Value), at, step)
      decreases |at|, 0
    {
      if at == [] {
        if !step.With? {
          StepOwn(step);
        } else if Owner(step.e) == entity {
          Attach(step.e);
        }
      } else if at[0] in with {
        StepBelow(at[0], at[1..], step);
      }
    }

    method StepBelow(e: Edge, at: seq<Edge>, step: Step)
      requires Valid() && e in with && e in Value.subs.of
      modifies Repr
      ensures Valid() && fresh(Repr - old(Repr))
      ensures Value == old(Value).(subs := Subviews(old(Value).subs.of[e := SteppedAt(old(Value).subs.of[e], at, step)]))
      decreases |at|, 1
    {
      var sub := with[e];
      ghost var objects := Below - sub.Repr;
      SetAside(entity, with, Value.subs.of, Below, e);
      sub.StepAt(at, step);
      Adopt(e, sub, objects);
    }
  }

  twostate lemma MineIsNew(new b: Builder)
    requires fresh(b) && fresh(b.ctx) && fresh(b.order.data) && fresh(b.inters.data) && fresh(b.preds.data)
    requires fresh(b.modifiers.data) && fresh(b.ctx.fields.data)
    ensures fresh(b.Mine())
  {
  }

  lemma WithStepped(v: View, e: Edge)
    requires Owner(e) == v.entity
    ensures Stepped(v, With(e)) == v.(subs := Subviews(v.subs.of[e := Empty(Target(e))]))
  {
  }

  lemma OwnStepped(v: View, step: Step)
    requires !step.With?
    ensures Stepped(v, step).(subs := Subviews(map[])) == Stepped(v.(subs := Subviews(map[])), step)
    ensures Stepped(v, step).subs == v.subs
  {
  }

  lemma Regrown<A>(subs: map<Edge, A>, views: map<Edge, View>, e: Edge, c: A, v: View)
    ensures (subs - {e})[e := c] == subs[e := c] && (views - {e})[e := v] == views[e := v]
  {
  }

  lemma ClonedSubs(t: Entity, v: View, views: map<Edge, View>)
    requires forall e :: e in views <==> e in EdgesOf(t) && e in v.subs.of
    requires (forall e | e in views :: views[e] == Cloned(v.subs.of[e])) && forall e | e in v.subs.of :: Owner(e) == t
    ensures views == Cloned(v).subs.of
  {
    forall e ensures e in views <==> e in v.subs.of {
      EdgesOfOwner(t, e);
    }
  }

  lemma EdgesOnce(t: Entity)
    ensures Distinct(EdgesOf(t))
  {
  }

  /** Builders of the entity's edges that stand for these views, all their objects different and among the given ones. */
  ghost predicate Forest(t: Entity, subs: map<Edge, Builder>, views: map<Edge, View>, objects: set<object>)
    reads objects
    decreases objects, 2
  {
    && subs.Keys == views.Keys
    && (forall e | e in subs :: Owner(e) == t && Rooted(subs[e], views[e], objects))
    && (forall e, f | e in subs && f in subs && e != f :: subs[e].Repr !! subs[f].Repr)
  }

  ghost predicate Rooted(b: Builder, v: View, objects: set<object>)
    reads objects
    decreases objects, 1
  {
    b in objects && b.Repr <= objects && b.Valid() && b.Value == v
  }

  lemma TreeOn(t: Entity, subs: map<Edge, Builder>, views: map<Edge, View>, objects: set<object>, e: Edge)
    requires Forest(t, subs, views, objects) && e in subs
    ensures e in views && Owner(e) == t && Rooted(subs[e], views[e], objects)
  {
  }

  lemma Plant(t: Entity, subs: map<Edge, Builder>, views: map<Edge, View>, objects: set<object>, e: Edge, c: Builder)
    requires Forest(t, subs, views, objects) && e !in subs && Owner(e) == t && c.Valid() && c.Repr !! objects
    ensures Forest(t, subs[e := c], views[e := c.Value], objects + c.Repr)
  {
    forall f | f in subs ensures Rooted(subs[f], views[f], objects + c.Repr) {
      TreeOn(t, subs, views, objects, f);
    }
    assert Rooted(c, c.Value, objects + c.Repr);
    forall f | f in subs ensures subs[f].Repr !! c.Repr {
      TreeOn(t, subs, views, objects, f);
    }
  }

  lemma Uproot(t: Entity, subs: map<Edge, Builder>, views: map<Edge, View>, objects: set<object>, e: Edge)
    requires Forest(t, subs, views, objects)
    ensures Forest(t, subs - {e}, views - {e}, objects)
  {
    forall f | f in subs && f != e ensures Rooted(subs[f], views[f], objects) {
      TreeOn(t, subs, views, objects, f);
    }
  }

  lemma SetAside(t: Entity, subs: map<Edge, Builder>, views: map<Edge, View>, objects: set<object>, e: Edge)
    requires Forest(t, subs, views, objects) && e in subs
    ensures Forest(t, subs - {e}, views - {e}, objects - subs[e].Repr)
    ensures Owner(e) == t && Rooted(subs[e], views[e], objects)
  {
    TreeOn(t, subs, views, objects, e);
    forall f | f in subs && f != e ensures Rooted(subs[f], views[f], objects - subs[e].Repr) {
      TreeOn(t, subs, views, objects, f);
      assert subs[f] in subs[f].Repr;
    }
  }

  // --- Two trees ---

  /** A step on one of two trees. */
  datatype Move = Move(second: bool, at: seq<Edge>, step: Step)

  /** The steps of one side only. */
  function Run(v: View, moves: seq<Move>, second: bool): View {
    if moves == [] then v else
    var before, last := Run(v, moves[..|moves| - 1], second), moves[|moves| - 1];
    if last.second == second then SteppedAt(before, last.at, last.step) else before
  }

  /** A step on one tree, next to a disjoint one. */
  method StepBeside(a: Builder, b: Builder, at: seq<Edge>, step: Step)
    requires a.Valid() && b.Valid() && a.Repr !! b.Repr
    modifies a.Repr
    ensures a.Valid() && fresh(a.Repr - old(a.Repr)) && a.Value == SteppedAt(old(a.Value), at, step)
    ensures b.Valid() && b.Repr == old(b.Repr) && b.Value == old(b.Value) && a.Repr !! b.Repr
  {
    a.StepAt(at, step);
  }

  /** However the steps on two disjoint trees are interleaved, each tree only sees its own. */
  method Interleave(a: Builder, b: Builder, moves: seq<Move>)
    requires a.Valid() && b.Valid() && a.Repr !! b.Repr
    modifies a.Repr, b.Repr
    ensures a.Valid() && b.Valid() && a.Repr !! b.Repr
    ensures a.Value == Run(old(a.Value), moves, false) && b.Value == Run(old(b.Value), moves, true)
  {
    for i := 0 to |moves|
      invariant a.Valid() && b.Valid() && a.Repr !! b.Repr
      invariant fresh(a.Repr - old(a.Repr)) && fresh(b.Repr - old(b.Repr))
      invariant a.Value == Run(old(a.Value), moves[..i], false) && b.Value == Run(old(b.Value), moves[..i], true)
    {
      assert moves[..i + 1][..i] == moves[..i];
      if moves[i].second {
        StepBeside(b, a, moves[i].at, moves[i].step);
      } else {
        StepBeside(a, b, moves[i].at, moves[i].step);
      }
    }
    assert moves[..|moves|] == moves;
  }

  /** A clone and its original are such a pair. */
  method CloneAndDiverge(q: Builder, moves: seq<Move>) returns (c: Builder)
    requires q.Valid()
    modifies q.Repr
    ensures q.Valid() && c.Valid() && q.Repr !! c.Repr
    ensures q.Value == Run(old(q.Value), moves, false) && c.Value == Run(Cloned(old(q.Value)), moves, true)
  {
    c := q.Clone();
    Interleave(q, c, moves);
  }

  function OrZero(n: Option<nat>): nat {
    match n case Some(k) => k case None => 0
  }

  /** The query of a builder tree, as far as eager loading itself reads it; the modifiers go to the database unread. */
  ghost function QueryOf(v: View): Query {
    Query(v.entity, v.preds, v.order, v.fields, OrZero(v.limit), OrZero(v.offset),
          Subqueries(map e | e in v.subs.of :: QueryOf(v.subs.of[e])))
  }

  /** No builder of the tree has a modifier. */
  ghost predicate NoModifiers(v: View) {
    v.modifiers == [] && forall e | e in v.subs.of :: NoModifiers(v.subs.of[e])
  }

  /** A clone is what it was made from exactly when no builder of the tree has a modifier, a row lock for instance:
      `sqlAll` passes these on, and the clone has lost them. */
  lemma {:induction false} CloneIsExact(v: View)
    ensures Cloned(v) == v <==> NoModifiers(v)
  {
    var c := Cloned(v);
    forall e | e in v.subs.of ensures c.subs.of[e] == v.subs.of[e] <==> NoModifiers(v.subs.of[e]) {
      CloneIsExact(v.subs.of[e]);
    }
    assert c.modifiers == [] && c.subs.of.Keys == v.subs.of.Keys;
    if NoModifiers(v) {
      assert c.subs.of == v.subs.of;
    }
  }

  /** The modifiers apart, a clone has the same query, at any depth. */
  lemma {:induction false} CloneKeepsQuery(v: View)
    ensures QueryOf(Cloned(v)) == QueryOf(v)
  {
    var c := Cloned(v);
    forall e | e in v.subs.of ensures QueryOf(c.subs.of[e]) == QueryOf(v.subs.of[e]) {
      CloneKeepsQuery(v.subs.of[e]);
    }
    assert QueryOf(c).edges.of == QueryOf(v).edges.of;
  }

  /** A second clone is the same as the first. */
  lemma {:induction false} CloneTwice(v: View)
    ensures Cloned(Cloned(v)) == Cloned(v)
  {
    var c := Cloned(v);
    forall e | e in v.subs.of ensures Cloned(c.subs.of[e]) == c.subs.of[e] {
      CloneTwice(v.subs.of[e]);
    }
    assert Cloned(c).subs.of == c.subs.of;
  }
}
