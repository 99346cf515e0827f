/** Sequence operations shared by the models: filtering, picking by a mask, windows, first occurrences. */
module Collections {

  datatype Option<+T> = None | Some(value: T)

  ghost predicate Distinct<T>(xs: seq<T>) {
    forall i, j | 0 <= i < j < |xs| :: xs[i] != xs[j]
  }

  lemma DistinctAppend<T>(xs: seq<T>, x: T)
    requires Distinct(xs) && x !in xs
    ensures Distinct(xs + [x])
  {
  }

  ghost predicate DistinctBy<T, K>(xs: seq<T>, key: T -> K) {
    forall i, j | 0 <= i < j < |xs| :: key(xs[i]) != key(xs[j])
  }

  lemma CountDistinct<T, K>(xs: seq<T>, key: T -> K, x: T)
    requires x in xs && DistinctBy(xs, key)
    ensures multiset(xs)[x] == 1
  {
    var i :| 0 <= i < |xs| && xs[i] == x;
    assert xs == xs[..i] + [x] + xs[i + 1..];
    assert x !in xs[..i] && x !in xs[i + 1..];
  }

  lemma CountTwice<T>(xs: seq<T>, i: nat, j: nat)
    requires i < j < |xs| && xs[i] == xs[j]
    ensures multiset(xs)[xs[i]] >= 2
  {
    assert xs == xs[..j] + xs[j..] && xs[..j][i] == xs[j..][0];
    assert xs[i] in xs[..j] && xs[i] in xs[j..];
  }

  lemma PermutedDistinct<T, K>(xs: seq<T>, ys: seq<T>, key: T -> K)
    requires multiset(xs) == multiset(ys) && DistinctBy(xs, key)
    ensures DistinctBy(ys, key)
  {
    forall i, j | 0 <= i < j < |ys| ensures key(ys[i]) != key(ys[j]) {
      assert ys[i] in multiset(ys) && ys[j] in multiset(ys);
      assert ys[i] in xs && ys[j] in xs;
      if ys[i] == ys[j] {
        CountTwice(ys, i, j);
        CountDistinct(xs, key, ys[i]);
      }
    }
  }

  lemma SameElements<T>(xs: seq<T>, ys: seq<T>, x: T)
    requires multiset(xs) == multiset(ys)
    ensures x in xs <==> x in ys
  {
    assert x in xs <==> x in multiset(xs);
    assert x in ys <==> x in multiset(ys);
  }

  /** The elements satisfying `p`, in order. */
  function Filter<T>(xs: seq<T>, p: T -> bool): (r: seq<T>)
    ensures |r| <= |xs|
  {
    if xs == [] then [] else
    var rest := Filter(xs[..|xs| - 1], p);
    if p(xs[|xs| - 1]) then rest + [xs[|xs| - 1]] else rest
  }

  lemma FilterSnoc<T>(xs: seq<T>, p: T -> bool, x: T)
    ensures Filter(xs + [x], p) == if p(x) then Filter(xs, p) + [x] else Filter(xs, p)
  {
    assert (xs + [x])[..|xs|] == xs;
  }

  lemma {:induction false} FilterMember<T>(xs: seq<T>, p: T -> bool, x: T)
    ensures x in Filter(xs, p) <==> x in xs && p(x)
  {
    if xs != [] {
      var n := |xs| - 1;
      assert xs == xs[..n] + [xs[n]];
      FilterMember(xs[..n], p, x);
    }
  }

  lemma {:induction false} FilterSame<T>(xs: seq<T>, p: T -> bool, q: T -> bool)
    requires forall x | x in xs :: p(x) == q(x)
    ensures Filter(xs, p) == Filter(xs, q)
  {
    if xs != [] {
      FilterSame(xs[..|xs| - 1], p, q);
    }
  }

  lemma {:induction false} FilterConcat<T>(xs: seq<T>, ys: seq<T>, p: T -> bool)
    ensures Filter(xs + ys, p) == Filter(xs, p) + Filter(ys, p)
  {
    if ys == [] {
      assert xs + ys == xs;
    } else {
      var n := |ys| - 1;
      assert (xs + ys)[..|xs + ys| - 1] == xs + ys[..n];
      FilterConcat(xs, ys[..n], p);
    }
  }

  /** Filtering twice is filtering by the conjunction; when `q` implies `p` the outer filter decides alone. */
  lemma {:induction false} FilterTwice<T>(xs: seq<T>, p: T -> bool, q: T -> bool, both: T -> bool)
    requires forall x | x in xs :: both(x) == (p(x) && q(x))
    ensures Filter(Filter(xs, p), q) == Filter(xs, both)
  {
    if xs != [] {
      FilterTwice(xs[..|xs| - 1], p, q, both);
    }
  }

  lemma {:induction false} FilterNone<T>(xs: seq<T>, p: T -> bool)
    ensures Filter(xs, p) == [] <==> forall x | x in xs :: !p(x)
  {
    if xs != [] {
      var n := |xs| - 1;
      assert xs == xs[..n] + [xs[n]];
      FilterNone(xs[..n], p);
    }
  }

  lemma {:induction false} FilterAll<T>(xs: seq<T>, p: T -> bool)
    ensures |Filter(xs, p)| == |xs| <==> forall x | x in xs :: p(x)
    ensures (forall x | x in xs :: p(x)) ==> Filter(xs, p) == xs
  {
    if xs != [] {
      var n := |xs| - 1;
      assert xs == xs[..n] + [xs[n]];
      FilterAll(xs[..n], p);
    }
  }

  /** Each kept element keeps its relative position: a filtered sequence embeds into the original. */
  lemma {:induction false} FilterDistinctBy<T, K>(xs: seq<T>, p: T -> bool, key: T -> K)
    requires DistinctBy(xs, key)
    ensures DistinctBy(Filter(xs, p), key)
  {
    if xs != [] {
      var n := |xs| - 1;
      FilterDistinctBy(xs[..n], p, key);
      forall x | x in Filter(xs[..n], p) ensures key(x) != key(xs[n]) {
        FilterMember(xs[..n], p, x);
      }
    }
  }

  function Somes<T>(xs: seq<Option<T>>): seq<T> {
    if xs == [] then [] else
    var rest := Somes(xs[..|xs| - 1]);
    if xs[|xs| - 1].Some? then rest + [xs[|xs| - 1].value] else rest
  }

  lemma SomesStep<T>(xs: seq<Option<T>>, i: nat)
    requires i < |xs|
    ensures Somes(xs[..i + 1]) == if xs[i].Some? then Somes(xs[..i]) + [xs[i].value] else Somes(xs[..i])
  {
    assert xs[..i + 1][..i] == xs[..i];
  }

  lemma {:induction false} SomesNone<T>(xs: seq<Option<T>>)
    ensures Somes(xs) == [] <==> forall i | 0 <= i < |xs| :: xs[i] == None
  {
    if xs != [] {
      SomesNone(xs[..|xs| - 1]);
    }
  }

  /** The elements whose mask bit is set, in order. */
  function Pick<T>(xs: seq<T>, keep: seq<bool>): seq<T>
    requires |keep| == |xs|
  {
    if xs == [] then [] else
    var rest := Pick(xs[..|xs| - 1], keep[..|xs| - 1]);
    if keep[|xs| - 1] then rest + [xs[|xs| - 1]] else rest
  }

  function Mask<T>(xs: seq<T>, p: T -> bool): (keep: seq<bool>)
    ensures |keep| == |xs| && forall i | 0 <= i < |xs| :: keep[i] == p(xs[i])
  {
    seq(|xs|, i requires 0 <= i < |xs| => p(xs[i]))
  }

  lemma {:induction false} FilterIsPick<T>(xs: seq<T>, p: T -> bool)
    ensures Filter(xs, p) == Pick(xs, Mask(xs, p))
  {
    if xs != [] {
      assert Mask(xs, p)[..|xs| - 1] == Mask(xs[..|xs| - 1], p);
      FilterIsPick(xs[..|xs| - 1], p);
    }
  }

  /** OFFSET then LIMIT; zero means that the clause is absent. */
  function Window<T>(xs: seq<T>, offset: nat, limit: nat): seq<T> {
    var rest := if offset <= |xs| then xs[offset..] else [];
    if limit == 0 || |rest| <= limit then rest else rest[..limit]
  }

  lemma WindowMember<T>(xs: seq<T>, offset: nat, limit: nat, x: T)
    ensures x in Window(xs, offset, limit) ==> x in xs
  {
  }

  // --- Partitions ---

  /** How many of the predicates hold of `x`. */
  function Hits<T>(x: T, parts: seq<T -> bool>): nat {
    if parts == [] then 0 else Hits(x, parts[..|parts| - 1]) + if parts[|parts| - 1](x) then 1 else 0
  }

  /** The lengths of the filtered sequences, added up. */
  function Spread<T>(xs: seq<T>, parts: seq<T -> bool>): nat {
    if parts == [] then 0 else Spread(xs, parts[..|parts| - 1]) + |Filter(xs, parts[|parts| - 1])|
  }

  lemma {:induction false} NoHits<T>(x: T, parts: seq<T -> bool>)
    requires forall j | 0 <= j < |parts| :: !parts[j](x)
    ensures Hits(x, parts) == 0
  {
    if parts != [] {
      NoHits(x, parts[..|parts| - 1]);
    }
  }

  lemma {:induction false} OneHit<T>(x: T, parts: seq<T -> bool>, i: nat)
    requires i < |parts| && parts[i](x) && forall j | 0 <= j < |parts| && j != i :: !parts[j](x)
    ensures Hits(x, parts) == 1
  {
    if i == |parts| - 1 {
      NoHits(x, parts[..i]);
    } else {
      OneHit(x, parts[..|parts| - 1], i);
    }
  }

  lemma {:induction false} SpreadSnoc<T>(xs: seq<T>, x: T, parts: seq<T -> bool>)
    ensures Spread(xs + [x], parts) == Spread(xs, parts) + Hits(x, parts)
  {
    if parts != [] {
      SpreadSnoc(xs, x, parts[..|parts| - 1]);
      FilterSnoc(xs, parts[|parts| - 1], x);
    }
  }

  lemma {:induction false} SpreadNothing<T>(parts: seq<T -> bool>)
    ensures Spread([], parts) == 0
  {
    if parts != [] {
      SpreadNothing(parts[..|parts| - 1]);
    }
  }

  /** When exactly one predicate holds of every element, the parts add up to the whole. */
  lemma {:induction false} SpreadIsWhole<T>(xs: seq<T>, parts: seq<T -> bool>)
    requires forall x | x in xs :: Hits(x, parts) == 1
    ensures Spread(xs, parts) == |xs|
  {
    if xs == [] {
      SpreadNothing(parts);
    } else {
      var n := |xs| - 1;
      assert xs == xs[..n] + [xs[n]];
      SpreadIsWhole(xs[..n], parts);
      SpreadSnoc(xs[..n], xs[n], parts);
    }
  }

  lemma Reassociate<T>(a: seq<T>, b: seq<T>, c: seq<T>)
    ensures (a + b) + c == a + (b + c)
  {
  }

  lemma Member<T>(s: set<T>) returns (x: T)
    requires s != {}
    ensures x in s
  {
    x :| x in s;
  }
}
