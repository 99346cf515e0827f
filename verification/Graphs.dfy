/** What a graph of nodes shows, and one load step on the heap: neighbours go into one edge slot of every node. */
module Graphs {
  import opened Collections
  import opened Schema
  import opened Trees
  import opened Nodes

  /** The graph below `n`, all of it inside `graph`, unfolds to `t`. */
  ghost predicate Shows(n: Node, t: Tree, graph: set<Node>)
    reads graph
    decreases t, 2
  {
    && n in graph
    && n.row == t.row
    && n.loaded == t.slots.Keys
    && n.one.Keys <= n.loaded
    && n.many.Keys <= n.loaded
    && forall e | e in t.slots :: SlotShows(n, e, t.slots[e], graph)
  }

  ghost predicate SlotShows(n: Node, e: Edge, slot: Slot, graph: set<Node>)
    reads n, graph
    decreases slot, 1
  {
    SlotIn(n.one, n.many, e, slot, graph)
  }

  /** The same of the values of a node's slot maps. */
  ghost predicate SlotIn(one: map<Edge, Node>, many: map<Edge, seq<Node>>, e: Edge, slot: Slot, graph: set<Node>)
    reads graph
    decreases slot, 0
  {
    match slot
    case Missing => e !in one && e !in many
    case Single(t) => e in one && e !in many && Shows(one[e], t, graph)
    case Many(ts) =>
      && e !in one
      && e in many
      && |many[e]| == |ts|
      && forall i | 0 <= i < |ts| :: Shows(many[e][i], ts[i], graph)
  }

  ghost predicate AllShow(ns: seq<Node>, ts: seq<Tree>, graph: set<Node>)
    reads graph
  {
    |ns| == |ts| && forall i | 0 <= i < |ts| :: Shows(ns[i], ts[i], graph)
  }

  lemma {:induction false} ShowsGrows(n: Node, t: Tree, graph: set<Node>, larger: set<Node>)
    requires Shows(n, t, graph) && graph <= larger
    ensures Shows(n, t, larger)
    decreases t, 1
  {
    forall e | e in t.slots ensures SlotShows(n, e, t.slots[e], larger) {
      SlotGrows(n.one, n.many, e, t.slots[e], graph, larger);
    }
  }

  lemma {:induction false} SlotGrows(one: map<Edge, Node>, many: map<Edge, seq<Node>>, e: Edge, slot: Slot,
                                     graph: set<Node>, larger: set<Node>)
    requires SlotIn(one, many, e, slot, graph) && graph <= larger
    ensures SlotIn(one, many, e, slot, larger)
    decreases slot, 0
  {
    match slot
    case Missing =>
    case Single(t) => ShowsGrows(one[e], t, graph, larger);
    case Many(ts) =>
      forall i | 0 <= i < |ts| ensures Shows(many[e][i], ts[i], larger) {
        ShowsGrows(many[e][i], ts[i], graph, larger);
      }
  }

  /** After loading, an accessor of a to-one edge tells found, not found and not requested apart. */
  lemma OneOrErrMeaning(n: Node, t: Tree, graph: set<Node>, e: Edge)
    requires Shows(n, t, graph) && ShapeOf(e).ManyToOne?
    requires forall e | e in t.slots :: t.slots[e].Many? <==> !ShapeOf(e).ManyToOne?
    ensures n.OneOrErr(e).NotLoaded? <==> e !in t.slots
    ensures n.OneOrErr(e).NotFound? <==> e in t.slots && t.slots[e] == Missing
    ensures n.OneOrErr(e).Loaded? <==> e in t.slots && t.slots[e].Single?
    ensures n.OneOrErr(e).Loaded? ==> Shows(n.OneOrErr(e).value, t.slots[e].tree, graph)
  {
    if e in t.slots {
      assert SlotShows(n, e, t.slots[e], graph);
      assert SlotIn(n.one, n.many, e, t.slots[e], graph);
    }
  }

  /** The accessor of a list edge returns the loaded list exactly when the edge was requested. */
  lemma {:induction false} ManyOrErrMeaning(n: Node, t: Tree, graph: set<Node>, e: Edge)
    requires Shows(n, t, graph) && !ShapeOf(e).ManyToOne?
    requires forall e | e in t.slots :: t.slots[e].Many? <==> !ShapeOf(e).ManyToOne?
    ensures n.ManyOrErr(e) == NotLoaded <==> e !in t.slots
    ensures e in t.slots ==> n.ManyOrErr(e).Loaded? && AllShow(n.ManyOrErr(e).value, t.slots[e].trees, graph)
  {
    if e in t.slots {
      assert SlotShows(n, e, t.slots[e], graph);
      assert SlotIn(n.one, n.many, e, t.slots[e], graph);
    }
  }

  lemma {:induction false} PickShows(ns: seq<Node>, ts: seq<Tree>, keep: seq<bool>, graph: set<Node>)
    requires AllShow(ns, ts, graph) && |keep| == |ns|
    ensures AllShow(Pick(ns, keep), Pick(ts, keep), graph)
    decreases |ns|
  {
    if ns != [] {
      var k := |ns| - 1;
      assert Shows(ns[k], ts[k], graph);
      PickShows(ns[..k], ts[..k], keep[..k], graph);
    }
  }

  /** A load step writes its own edge slot and no other. */
  twostate predicate OnlySlot(e: Edge, nodes: seq<Node>)
    reads nodes
  {
    forall n | n in nodes :: n.one - {e} == old(n.one) - {e} && n.many - {e} == old(n.many) - {e}
  }

  ghost predicate Unset(e: Edge, nodes: seq<Node>)
    reads nodes
  {
    forall n | n in nodes :: e !in n.one && e !in n.many
  }

  ghost predicate Emptied(e: Edge, nodes: seq<Node>)
    reads nodes
  {
    forall n | n in nodes :: e !in n.one && e in n.many && n.many[e] == []
  }

  /** The slot of a node that `mine(n, m)` gives the neighbours `m`. */
  ghost function Share(e: Edge, n: Node, neighbors: seq<Node>, trees: seq<Tree>, mine: (Node, Node) -> bool): Slot
    requires |trees| == |neighbors|
  {
    SlotOf(e, Pick(trees, Mask(neighbors, (m: Node) => mine(n, m))))
  }

  ghost predicate Shared(e: Edge, nodes: seq<Node>, neighbors: seq<Node>, trees: seq<Tree>,
                         mine: (Node, Node) -> bool, graph: set<Node>)
    requires |trees| == |neighbors|
    reads nodes, graph
  {
    forall n | n in nodes :: SlotShows(n, e, Share(e, n, neighbors, trees, mine), graph)
  }

  lemma ListShows(e: Edge, n: Node, neighbors: seq<Node>, trees: seq<Tree>, mine: (Node, Node) -> bool, graph: set<Node>)
    requires AllShow(neighbors, trees, graph) && !ShapeOf(e).ManyToOne?
    requires e !in n.one && e in n.many && n.many[e] == Filter(neighbors, (m: Node) => mine(n, m))
    ensures SlotShows(n, e, Share(e, n, neighbors, trees, mine), graph)
  {
    var p := (m: Node) => mine(n, m);
    FilterIsPick(neighbors, p);
    PickShows(neighbors, trees, Mask(neighbors, p), graph);
  }

  lemma {:induction false} AssignedIsFilter(before: map<Edge, Node>, e: Edge, k: Option<int>, ns: seq<Node>, j: nat,
                                            id: Node -> int, p: Node -> bool)
    requires j <= |ns| && forall m | m in ns :: p(m) <==> k == Some(id(m))
    ensures var mine := Filter(ns[..j], p);
      Assigned(before, e, k, ns, j, id) == if mine == [] then before else before[e := mine[|mine| - 1]]
  {
    if j > 0 {
      assert ns[..j][..j - 1] == ns[..j - 1];
      AssignedIsFilter(before, e, k, ns, j - 1, id, p);
    }
  }

  lemma {:induction false} AssignedKeeps(before: map<Edge, Node>, e: Edge, k: Option<int>, ns: seq<Node>, j: nat, id: Node -> int)
    requires j <= |ns|
    ensures Assigned(before, e, k, ns, j, id) - {e} == before - {e}
  {
    if j > 0 {
      AssignedKeeps(before, e, k, ns, j - 1, id);
    }
  }

  /** Nodes with equal keys share the neighbour object. */
  lemma {:induction false} EqualKeysShare(one: map<Edge, Node>, other: map<Edge, Node>, e: Edge, k: Option<int>,
                                          ns: seq<Node>, j: nat, id: Node -> int)
    requires j <= |ns| && e !in one && e !in other
    ensures e in Assigned(one, e, k, ns, j, id) <==> e in Assigned(other, e, k, ns, j, id)
    ensures e in Assigned(one, e, k, ns, j, id) ==> Assigned(one, e, k, ns, j, id)[e] == Assigned(other, e, k, ns, j, id)[e]
  {
    if j > 0 {
      EqualKeysShare(one, other, e, k, ns, j - 1, id);
    }
  }

  lemma {:induction false} AssignedHasKey(one: map<Edge, Node>, e: Edge, k: Option<int>, ns: seq<Node>, j: nat, id: Node -> int)
    requires j <= |ns| && e !in one && e in Assigned(one, e, k, ns, j, id)
    ensures k == Some(id(Assigned(one, e, k, ns, j, id)[e]))
  {
    if j > 0 && k != Some(id(ns[j - 1])) {
      AssignedHasKey(one, e, k, ns, j - 1, id);
    }
  }

  /** A node whose slot is set shares the neighbour object with exactly the nodes that have the same key. */
  ghost predicate SharesByKey(e: Edge, nodes: seq<Node>, key: Node -> Option<int>)
    reads nodes
  {
    forall n, m | n in nodes && m in nodes && e in n.one :: key(n) == key(m) <==> e in m.one && m.one[e] == n.one[e]
  }

  lemma SharesSlot(one: map<Edge, Node>, other: map<Edge, Node>, e: Edge, k: Option<int>, l: Option<int>, ns: seq<Node>, id: Node -> int)
    requires e !in one && e !in other && e in Assigned(one, e, k, ns, |ns|, id)
    ensures var a, b := Assigned(one, e, k, ns, |ns|, id), Assigned(other, e, l, ns, |ns|, id);
      k == l <==> e in b && b[e] == a[e]
  {
    AssignedHasKey(one, e, k, ns, |ns|, id);
    if k == l {
      EqualKeysShare(one, other, e, k, ns, |ns|, id);
    } else if e in Assigned(other, e, l, ns, |ns|, id) {
      AssignedHasKey(other, e, l, ns, |ns|, id);
    }
  }

  /** In the lists of all these nodes there is one object per id: each neighbour was made once, and its owners share it. */
  ghost predicate OnePerId(e: Edge, nodes: seq<Node>, id: Node -> int)
    reads nodes
  {
    forall n, m, a, b | n in nodes && m in nodes && e in n.many && e in m.many && a in n.many[e] && b in m.many[e] ::
      id(a) == id(b) <==> a == b
  }

  lemma {:induction false} JoinedMember(ns: seq<Node>, j: nat, nids: map<int, set<Node>>, id: Node -> int, n: Node)
    requires j <= |ns|
    ensures forall m | m in Joined(ns, j, nids, id, n) :: m in ns
  {
    if j > 0 {
      JoinedMember(ns, j - 1, nids, id, n);
    }
  }

  lemma JoinedShared(e: Edge, nodes: seq<Node>, neighbors: seq<Node>, nids: map<int, set<Node>>, id: Node -> int)
    requires DistinctBy(neighbors, id)
    requires forall n | n in nodes && e in n.many :: n.many[e] == Joined(neighbors, |neighbors|, nids, id, n)
    ensures OnePerId(e, nodes, id)
  {
    forall n, m, a, b | n in nodes && m in nodes && e in n.many && e in m.many && a in n.many[e] && b in m.many[e]
      ensures id(a) == id(b) <==> a == b
    {
      JoinedMember(neighbors, |neighbors|, nids, id, n);
      JoinedMember(neighbors, |neighbors|, nids, id, m);
      var i :| 0 <= i < |neighbors| && neighbors[i] == a;
      var j :| 0 <= j < |neighbors| && neighbors[j] == b;
    }
  }

  /** With distinct neighbour ids at most one neighbour is a node's, so the last assignment is the only one. */
  lemma OneShows(e: Edge, n: Node, before: map<Edge, Node>, k: Option<int>, id: Node -> int,
                 neighbors: seq<Node>, trees: seq<Tree>, mine: (Node, Node) -> bool, graph: set<Node>)
    requires AllShow(neighbors, trees, graph) && ShapeOf(e).ManyToOne? && DistinctBy(neighbors, id)
    requires forall m | m in neighbors :: mine(n, m) <==> k == Some(id(m))
    requires e !in before && e !in n.many && n.one == Assigned(before, e, k, neighbors, |neighbors|, id)
    ensures SlotShows(n, e, Share(e, n, neighbors, trees, mine), graph)
  {
    var p := (m: Node) => mine(n, m);
    assert neighbors[..|neighbors|] == neighbors;
    AssignedIsFilter(before, e, k, neighbors, |neighbors|, id, p);
    FilterIsPick(neighbors, p);
    PickShows(neighbors, trees, Mask(neighbors, p), graph);
    AtMostOne(neighbors, p, k, id);
    LastShows(e, n, before, Filter(neighbors, p), Pick(trees, Mask(neighbors, p)), graph);
  }

  lemma AtMostOne(neighbors: seq<Node>, p: Node -> bool, k: Option<int>, id: Node -> int)
    requires DistinctBy(neighbors, id) && forall m | m in neighbors :: p(m) <==> k == Some(id(m))
    ensures |Filter(neighbors, p)| <= 1
  {
    var found := Filter(neighbors, p);
    FilterDistinctBy(neighbors, p, id);
    if |found| > 1 {
      FilterMember(neighbors, p, found[0]);
      FilterMember(neighbors, p, found[1]);
      assert false;
    }
  }

  lemma LastShows(e: Edge, n: Node, before: map<Edge, Node>, found: seq<Node>, trees: seq<Tree>, graph: set<Node>)
    requires ShapeOf(e).ManyToOne? && AllShow(found, trees, graph) && |found| <= 1 && e !in before && e !in n.many
    requires n.one == if found == [] then before else before[e := found[|found| - 1]]
    ensures SlotShows(n, e, SlotOf(e, trees), graph)
  {
    if found != [] {
      assert Shows(found[0], trees[0], graph);
    }
  }

  lemma UpdateKeeps<T>(m: map<Edge, T>, e: Edge, v: T)
    ensures m[e := v] - {e} == m - {e}
  {
  }

  /** Indexes the nodes of a list edge by id and empties the edge's slot. */
  method PrepareLists(e: Edge, nodes: seq<Node>, id: Node -> int) returns (ids: seq<int>, byId: map<int, Node>)
    requires DistinctBy(nodes, id) && Unset(e, nodes)
    modifies nodes
    ensures |ids| == |nodes| && forall i | 0 <= i < |nodes| :: ids[i] == id(nodes[i])
    ensures ById(nodes, id, byId) && forall k | k in ids :: k in byId
    ensures OnlySlot(e, nodes) && Emptied(e, nodes)
  {
    ids, byId := IndexAndInit(nodes, e, id);
    forall n | n in nodes ensures n.many - {e} == old(n.many) - {e} {
      UpdateKeeps(old(n.many), e, []);
    }
  }

  // --- The three scatter loops, seen as shares ---

  method FillManyToOne(e: Edge, nodes: seq<Node>, key: Node -> Option<int>, id: Node -> int, nodeids: map<int, seq<Node>>,
                       neighbors: seq<Node>, ghost trees: seq<Tree>, ghost mine: (Node, Node) -> bool, ghost graph: set<Node>)
      returns (failed: bool)
    requires ShapeOf(e).ManyToOne? && Unset(e, nodes) && forall n | n in nodes :: n !in graph
    requires AllShow(neighbors, trees, graph) && DistinctBy(neighbors, id)
    requires Indexed(nodes, key, nodeids) && forall m | m in neighbors :: id(m) in nodeids
    requires forall n, m | n in nodes && m in neighbors :: mine(n, m) <==> key(n) == Some(id(m))
    modifies nodes
    ensures !failed && OnlySlot(e, nodes) && Shared(e, nodes, neighbors, trees, mine, graph)
    ensures SharesByKey(e, nodes, key)
  {
    failed := ScatterOne(nodes, e, key, id, nodeids, neighbors);
    forall n | n in nodes
      ensures n.one - {e} == old(n.one) - {e}
      ensures SlotShows(n, e, Share(e, n, neighbors, trees, mine), graph)
    {
      AssignedKeeps(old(n.one), e, key(n), neighbors, |neighbors|, id);
      OneShows(e, n, old(n.one), key(n), id, neighbors, trees, mine, graph);
    }
    forall n, m | n in nodes && m in nodes && e in n.one ensures key(n) == key(m) <==> e in m.one && m.one[e] == n.one[e] {
      SharesSlot(old(n.one), old(m.one), e, key(n), key(m), neighbors, id);
    }
  }

  method FillOneToMany(e: Edge, nodes: seq<Node>, key: Node -> Option<int>, id: Node -> int, byId: map<int, Node>,
                       neighbors: seq<Node>, ghost trees: seq<Tree>, ghost mine: (Node, Node) -> bool, ghost graph: set<Node>)
      returns (failed: Option<LoadError>)
    requires !ShapeOf(e).ManyToOne? && Emptied(e, nodes) && forall n | n in nodes :: n !in graph
    requires AllShow(neighbors, trees, graph)
    requires ById(nodes, id, byId)
    requires forall m | m in neighbors :: key(m).Some? && key(m).value in byId
    requires forall n, m | n in nodes && m in neighbors :: mine(n, m) <==> key(m) == Some(id(n))
    modifies nodes
    ensures failed == None && OnlySlot(e, nodes) && Shared(e, nodes, neighbors, trees, mine, graph)
  {
    failed := ScatterByOwner(nodes, e, key, id, byId, neighbors);
    forall n | n in nodes
      ensures n.many - {e} == old(n.many) - {e}
      ensures SlotShows(n, e, Share(e, n, neighbors, trees, mine), graph)
    {
      UpdateKeeps(old(n.many), e, WithKey(neighbors, |neighbors|, key, id(n)));
      WithKeyIsFilter(neighbors, |neighbors|, key, id(n), (m: Node) => mine(n, m));
      assert neighbors[..|neighbors|] == neighbors;
      ListShows(e, n, neighbors, trees, mine, graph);
    }
  }

  method FillManyToMany(e: Edge, nodes: seq<Node>, id: Node -> int, nids: map<int, set<Node>>,
                        neighbors: seq<Node>, ghost trees: seq<Tree>, ghost mine: (Node, Node) -> bool, ghost graph: set<Node>)
      returns (failed: bool)
    requires !ShapeOf(e).ManyToOne? && Emptied(e, nodes) && forall n | n in nodes :: n !in graph
    requires AllShow(neighbors, trees, graph) && DistinctBy(neighbors, id)
    requires forall m | m in neighbors :: id(m) in nids
    requires forall k | k in nids :: forall n | n in nids[k] :: n in nodes
    requires forall n, m | n in nodes && m in neighbors :: mine(n, m) <==> id(m) in nids && n in nids[id(m)]
    modifies nodes
    ensures !failed && OnlySlot(e, nodes) && Shared(e, nodes, neighbors, trees, mine, graph) && OnePerId(e, nodes, id)
  {
    failed := ScatterByJoin(nodes, e, id, nids, neighbors);
    JoinedShared(e, nodes, neighbors, nids, id);
    forall n | n in nodes
      ensures n.many - {e} == old(n.many) - {e}
      ensures SlotShows(n, e, Share(e, n, neighbors, trees, mine), graph)
    {
      UpdateKeeps(old(n.many), e, Joined(neighbors, |neighbors|, nids, id, n));
      JoinedIsFilter(neighbors, |neighbors|, nids, id, n, (m: Node) => mine(n, m));
      assert neighbors[..|neighbors|] == neighbors;
      ListShows(e, n, neighbors, trees, mine, graph);
    }
  }
}
