/** Entity objects, and the in-place loops that index nodes and scatter neighbours into their edge slots. */
module Nodes {
  import opened Collections
  import opened Schema

  datatype LoadError = InvalidField(field: Column) | UnexpectedKey(e: Edge) | NilKey(e: Edge)
  datatype EdgeResult<+T> = Loaded(value: T) | NotFound | NotLoaded

  /** An entity object. `one` and `many` hold the edge slots that are set; `loaded` is `loadedTypes`. */
  class Node {
    const row: Row
    const loaded: set<Edge>
    var one: map<Edge, Node>
    var many: map<Edge, seq<Node>>

    constructor (row: Row, loaded: set<Edge>)
      ensures this.row == row && this.loaded == loaded && one == map[] && many == map[]
    {
      this.row, this.loaded, one, many := row, loaded, map[], map[];
    }

    /** `ProxyOrErr`, `ParentOrErr`, `AccountOrErr`, `GroupOrErr`. */
    function OneOrErr(e: Edge): EdgeResult<Node>
      reads this
    {
      if e in one then Loaded(one[e]) else if e in loaded then NotFound else NotLoaded
    }

    /** `GroupsOrErr`, `ChildrenOrErr`, `UsageLogsOrErr`, `AccountGroupsOrErr`. */
    function ManyOrErr(e: Edge): EdgeResult<seq<Node>>
      reads this
    {
      if e !in loaded then NotLoaded else if e in many then Loaded(many[e]) else Loaded([])
    }
  }

  /** The decoded foreign-key field: a nil pointer is `None`, an `int64` that was not read is zero. */
  function ForeignKey(row: Row, fk: Column, nullable: bool): Option<int> {
    match Key(row, fk)
    case Some(k) => Some(k)
    case None => if nullable then None else Some(0)
  }

  // --- Indexing nodes. `key` reads a node's foreign key and `id` its id. ---

  /** Among the first `j` nodes, those whose key is `k`, in order. */
  ghost function WithKey(ns: seq<Node>, j: nat, key: Node -> Option<int>, k: int): seq<Node>
    requires j <= |ns|
  {
    if j == 0 then [] else
    var rest := WithKey(ns, j - 1, key, k);
    if key(ns[j - 1]) == Some(k) then rest + [ns[j - 1]] else rest
  }

  lemma {:induction false} WithKeyIsFilter(ns: seq<Node>, j: nat, key: Node -> Option<int>, k: int, p: Node -> bool)
    requires j <= |ns| && forall m | m in ns :: p(m) <==> key(m) == Some(k)
    ensures WithKey(ns, j, key, k) == Filter(ns[..j], p)
  {
    if j > 0 {
      assert ns[..j][..j - 1] == ns[..j - 1];
      WithKeyIsFilter(ns, j - 1, key, k, p);
    }
  }

  lemma {:induction false} WithKeyMember(ns: seq<Node>, j: nat, key: Node -> Option<int>, k: int)
    requires j <= |ns|
    ensures forall n | n in WithKey(ns, j, key, k) :: n in ns && key(n) == Some(k)
    ensures forall i | 0 <= i < j && key(ns[i]) == Some(k) :: ns[i] in WithKey(ns, j, key, k)
  {
    if j > 0 {
      WithKeyMember(ns, j - 1, key, k);
    }
  }

  function At(nodeids: map<int, seq<Node>>, k: int): seq<Node> {
    if k in nodeids then nodeids[k] else []
  }

  ghost predicate KeysIndexed(ids: seq<int>, nodeids: map<int, seq<Node>>) {
    Distinct(ids) && (forall k :: k in ids <==> k in nodeids) && forall k | k in nodeids :: nodeids[k] != []
  }

  /** Each key's list has exactly the nodes with that key. */
  ghost predicate Indexed(nodes: seq<Node>, key: Node -> Option<int>, nodeids: map<int, seq<Node>>) {
    && (forall k | k in nodeids :: forall n | n in nodeids[k] :: n in nodes && key(n) == Some(k))
    && (forall n | n in nodes && key(n).Some? && key(n).value in nodeids :: n in nodeids[key(n).value])
  }

  method AddToKey(ids: seq<int>, nodeids: map<int, seq<Node>>, k: int, n: Node)
      returns (ids': seq<int>, nodeids': map<int, seq<Node>>)
    requires KeysIndexed(ids, nodeids)
    ensures KeysIndexed(ids', nodeids')
    ensures nodeids' == nodeids[k := At(nodeids, k) + [n]]
  {
    ids' := ids;
    if k !in nodeids {
      DistinctAppend(ids, k);
      ids' := ids + [k];
    }
    nodeids' := nodeids[k := At(nodeids, k) + [n]];
  }

  /** loadProxy, loadParent, loadAccount and loadGroup first group the nodes by foreign key. */
  method IndexByKey(nodes: seq<Node>, key: Node -> Option<int>) returns (ids: seq<int>, nodeids: map<int, seq<Node>>)
    ensures Distinct(ids)
    ensures forall k :: k in ids <==> k in nodeids
    ensures forall k :: k in nodeids <==> WithKey(nodes, |nodes|, key, k) != []
    ensures forall k | k in nodeids :: nodeids[k] == WithKey(nodes, |nodes|, key, k)
  {
    ids, nodeids := [], map[];
    for i := 0 to |nodes|
      invariant KeysIndexed(ids, nodeids)
      invariant forall k :: At(nodeids, k) == WithKey(nodes, i, key, k)
    {
      if key(nodes[i]).Some? {
        ids, nodeids := AddToKey(ids, nodeids, key(nodes[i]).value, nodes[i]);
      }
    }
    assert forall k :: k in nodeids <==> At(nodeids, k) != [];
  }

  ghost predicate ById(nodes: seq<Node>, id: Node -> int, byId: map<int, Node>) {
    && (forall n | n in nodes :: id(n) in byId && byId[id(n)] == n)
    && (forall k | k in byId :: byId[k] in nodes && id(byId[k]) == k)
  }

  /** Loads of lists first index the nodes by id and start every node from an empty list. */
  method IndexAndInit(nodes: seq<Node>, e: Edge, id: Node -> int) returns (ids: seq<int>, byId: map<int, Node>)
    requires DistinctBy(nodes, id)
    modifies nodes
    ensures |ids| == |nodes| && forall i | 0 <= i < |nodes| :: ids[i] == id(nodes[i])
    ensures ById(nodes, id, byId) && forall k | k in ids :: k in byId
    ensures forall n | n in nodes :: n.one == old(n.one) && n.many == old(n.many)[e := []]
  {
    ids, byId := [], map[];
    for i := 0 to |nodes|
      invariant |ids| == i && forall j | 0 <= j < i :: ids[j] == id(nodes[j])
      invariant forall j | 0 <= j < i :: id(nodes[j]) in byId && byId[id(nodes[j])] == nodes[j]
      invariant forall k | k in byId :: byId[k] in nodes && id(byId[k]) == k
      invariant forall n | n in nodes :: n.one == old(n.one)
      invariant forall n | n in nodes :: n.many == if n in nodes[..i] then old(n.many)[e := []] else old(n.many)
    {
      ids := ids + [id(nodes[i])];
      byId := byId[id(nodes[i]) := nodes[i]];
      nodes[i].many := nodes[i].many[e := []];
    }
    assert nodes[..|nodes|] == nodes;
  }

  // --- Scattering neighbours into slots ---

  /** The to-one slot map of a node with key `k` after the first `j` neighbours were assigned in turn. */
  ghost function Assigned(before: map<Edge, Node>, e: Edge, k: Option<int>, ns: seq<Node>, j: nat, id: Node -> int): map<Edge, Node>
    requires j <= |ns|
  {
    if j == 0 then before else
    var rest := Assigned(before, e, k, ns, j - 1, id);
    if k == Some(id(ns[j - 1])) then rest[e := ns[j - 1]] else rest
  }

  /** Gives neighbour `m` to each of its owners. */
  method AssignTo(nodes: seq<Node>, owners: seq<Node>, e: Edge, key: Node -> Option<int>, k: int, m: Node)
    requires forall n | n in owners :: n in nodes && key(n) == Some(k)
    requires forall n | n in nodes && key(n) == Some(k) :: n in owners
    modifies nodes
    ensures forall n | n in nodes :: n.many == old(n.many)
    ensures forall n | n in nodes :: n.one == if key(n) == Some(k) then old(n.one)[e := m] else old(n.one)
  {
    for i := 0 to |owners|
      invariant forall n | n in nodes :: n.many == old(n.many)
      invariant forall n | n in nodes :: n.one == if n in owners[..i] then old(n.one)[e := m] else old(n.one)
    {
      assert owners[i] in owners;
      owners[i].one := owners[i].one[e := m];
    }
    assert owners[..|owners|] == owners;
  }

  method ScatterOne(nodes: seq<Node>, e: Edge, key: Node -> Option<int>, id: Node -> int,
                    nodeids: map<int, seq<Node>>, neighbors: seq<Node>)
      returns (failed: bool)
    requires Indexed(nodes, key, nodeids)
    requires forall m | m in neighbors :: id(m) in nodeids
    modifies nodes
    ensures !failed
    ensures forall n | n in nodes :: n.many == old(n.many)
    ensures forall n | n in nodes :: n.one == Assigned(old(n.one), e, key(n), neighbors, |neighbors|, id)
  {
    for j := 0 to |neighbors|
      invariant forall n | n in nodes :: n.many == old(n.many)
      invariant forall n | n in nodes :: n.one == Assigned(old(n.one), e, key(n), neighbors, j, id)
    {
      var k := id(neighbors[j]);
      if k !in nodeids {
        return true;
      }
      assert forall n | n in nodeids[k] :: n in nodes && key(n) == Some(k);
      AssignTo(nodes, nodeids[k], e, key, k, neighbors[j]);
    }
    failed := false;
  }

  /** loadChildren, loadUsageLogs and loadAccountGroups append each neighbour to the node its key names. */
  method ScatterByOwner(nodes: seq<Node>, e: Edge, key: Node -> Option<int>, id: Node -> int,
                        byId: map<int, Node>, neighbors: seq<Node>)
      returns (failed: Option<LoadError>)
    requires forall n | n in nodes :: e in n.many && n.many[e] == []
    requires ById(nodes, id, byId)
    requires forall m | m in neighbors :: key(m).Some? && key(m).value in byId
    modifies nodes
    ensures failed == None
    ensures forall n | n in nodes :: n.one == old(n.one)
    ensures forall n | n in nodes :: n.many == old(n.many)[e := WithKey(neighbors, |neighbors|, key, id(n))]
  {
    for j := 0 to |neighbors|
      invariant forall n | n in nodes :: n.one == old(n.one)
      invariant forall n | n in nodes :: n.many == old(n.many)[e := WithKey(neighbors, j, key, id(n))]
    {
      var m := neighbors[j];
      assert m in neighbors;
      if key(m) == None {
        return Some(NilKey(e));
      }
      var k := key(m).value;
      if k !in byId {
        return Some(UnexpectedKey(e));
      }
      var owner := byId[k];
      assert owner in nodes && id(owner) == k;
      assert forall n | n in nodes && n != owner :: id(n) != k;
      owner.many := owner.many[e := owner.many[e] + [m]];
    }
    failed := None;
  }

  /** Among the first `j` neighbours, those whose inner map has `n`. */
  ghost function Joined(ns: seq<Node>, j: nat, nids: map<int, set<Node>>, id: Node -> int, n: Node): seq<Node>
    requires j <= |ns|
  {
    if j == 0 then [] else
    var rest := Joined(ns, j - 1, nids, id, n);
    if id(ns[j - 1]) in nids && n in nids[id(ns[j - 1])] then rest + [ns[j - 1]] else rest
  }

  lemma {:induction false} JoinedIsFilter(ns: seq<Node>, j: nat, nids: map<int, set<Node>>, id: Node -> int, n: Node, p: Node -> bool)
    requires j <= |ns| && forall m | m in ns :: p(m) <==> id(m) in nids && n in nids[id(m)]
    ensures Joined(ns, j, nids, id, n) == Filter(ns[..j], p)
  {
    if j > 0 {
      assert ns[..j][..j - 1] == ns[..j - 1];
      JoinedIsFilter(ns, j - 1, nids, id, n, p);
    }
  }

  /** Appends `m` to every node of an inner map; a map is iterated in any order, once per key. */
  method AppendTo(nodes: seq<Node>, owners: set<Node>, e: Edge, m: Node)
    requires forall n | n in owners :: n in nodes
    requires forall n | n in nodes :: e in n.many
    modifies nodes
    ensures forall n | n in nodes :: n.one == old(n.one)
    ensures forall n | n in nodes ::
      n.many == if n in owners then old(n.many)[e := old(n.many)[e] + [m]] else old(n.many)
  {
    var todo := owners;
    while todo != {}
      invariant todo <= owners
      invariant forall n | n in nodes :: n.one == old(n.one)
      invariant forall n | n in nodes ::
        n.many == if n in owners - todo then old(n.many)[e := old(n.many)[e] + [m]] else old(n.many)
    {
      var kn :| kn in todo;
      kn.many := kn.many[e := kn.many[e] + [m]];
      todo := todo - {kn};
    }
  }

  /** loadGroups appends each neighbour to the nodes it was joined with. */
  method ScatterByJoin(nodes: seq<Node>, e: Edge, id: Node -> int, nids: map<int, set<Node>>, neighbors: seq<Node>)
      returns (failed: bool)
    requires forall n | n in nodes :: e in n.many && n.many[e] == []
    requires forall m | m in neighbors :: id(m) in nids
    requires forall k | k in nids :: forall n | n in nids[k] :: n in nodes
    modifies nodes
    ensures !failed
    ensures forall n | n in nodes :: n.one == old(n.one)
    ensures forall n | n in nodes :: n.many == old(n.many)[e := Joined(neighbors, |neighbors|, nids, id, n)]
  {
    for j := 0 to |neighbors|
      invariant forall n | n in nodes :: n.one == old(n.one)
      invariant forall n | n in nodes :: n.many == old(n.many)[e := Joined(neighbors, j, nids, id, n)]
    {
      var m := neighbors[j];
      assert m in neighbors;
      var k := id(m);
      if k !in nids {
        return true;
      }
      assert forall n | n in nids[k] :: n in nodes;
      AppendTo(nodes, nids[k], e, m);
    }
    failed := false;
  }
}
