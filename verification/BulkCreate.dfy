/** Bulk creation of accounts: a chain of mutators in which every builder's hooks enclose the whole rest of the chain,
    and only the last builder reaches the database. */
module BulkCreate {
  import opened Collections
  import opened Schema
  import opened RowCodec
  import opened AccountCreate

  /** What a hook does with the mutator that it wraps: any number of calls, and any reaction to their outcomes. */
  datatype Hook =
    | Return(ok: bool)                                   // ends with a value, or with an error
    | Edit(change: Mutation -> Mutation, rest: Hook)     // changes the mutation that it was given
    | Swap(build: Mutation -> Mutation, rest: Hook)      // goes on with another mutation
    | Branch(test: Mutation -> bool, yes: Hook, no: Hook)
    | Next(onOk: Hook, onErr: Hook)                      // calls the next mutator

  datatype Event =
    | Enter(i: nat, j: nat) | Leave(i: nat, j: nat, ok: bool)
    | Refused(i: nat) | Passed(i: nat, spec: Spec)
    | Batch(sent: seq<Option<Spec>>, ok: bool)

  /** The hooks of every builder, and the database: what the n-th batch insert of these specs gives. */
  datatype Env = Env(hooks: seq<seq<Hook>>, rt: Runtime, batch: (nat, seq<Option<Spec>>) -> Option<nat -> Option<int>>)

  /** A spec and the id that the database filled in. */
  datatype Planned = Planned(spec: Spec, id: Option<int>)

  /** `store` holds all mutations, `current` the position of every builder's own one. */
  datatype Chain = Chain(store: seq<Mutation>, current: seq<nat>, nodes: seq<Option<map<Column, Value>>>,
                         specs: seq<Option<Planned>>, log: seq<Event>)

  predicate Fits(env: Env, s: Chain) {
    |s.current| == |s.nodes| == |s.specs| == |env.hooks| && forall k | 0 <= k < |s.current| :: s.current[k] < |s.store|
  }

  function Note(s: Chain, e: Event): Chain {
    s.(log := s.log + [e])
  }

  function Batches(log: seq<Event>): nat {
    if log == [] then 0 else Batches(log[..|log| - 1]) + if log[|log| - 1].Batch? then 1 else 0
  }

  function SpecsOf(specs: seq<Option<Planned>>): seq<Option<Spec>> {
    seq(|specs|, k requires 0 <= k < |specs| => match specs[k] case Some(p) => Some(p.spec) case None => None)
  }

  function WithIds(specs: seq<Option<Planned>>, ids: nat -> Option<int>): seq<Option<Planned>> {
    seq(|specs|, k requires 0 <= k < |specs| => match specs[k] case Some(p) => Some(p.(id := ids(k))) case None => None)
  }

  /** The check looks at the builder's own mutation, the spec is made from the one that arrived. */
  function Plan(env: Env, s: Chain, i: nat, m: nat): (Chain, bool)
    requires Fits(env, s) && i < |env.hooks| && m < |s.store|
  {
    if CheckOf(env.rt, s.store[s.current[i]].values).Some? then (Note(s, Refused(i)), false)
    else
      var spec := SpecOf(s.store[m]);
      (Note(s.(current := s.current[i := m], nodes := s.nodes[i := Some(NodeOf(s.store[m]))],
               specs := s.specs[i := Some(Planned(spec, None))]), Passed(i, spec)), true)
  }

  function Insert(env: Env, s: Chain): (Chain, bool) {
    match env.batch(Batches(s.log), SpecsOf(s.specs))
    case Some(ids) => (Note(s.(specs := WithIds(s.specs, ids)), Batch(SpecsOf(s.specs), true)), true)
    case None => (Note(s, Batch(SpecsOf(s.specs), false)), false)
  }

  function IdOr0(id: Option<int>): int {
    match id case Some(n) => n case None => 0
  }

  /** On the way back: the node gets its id, the mutation points to it and is done. */
  function Finish(env: Env, s: Chain, i: nat, m: nat): Chain
    requires Fits(env, s) && i < |env.hooks| && m < |s.store|
  {
    if s.specs[i].Some? && s.nodes[i].Some? then
      var id := s.specs[i].value.id;
      s.(nodes := if id.Some? then s.nodes[i := Some(s.nodes[i].value[Id := IntValue(id.value)])] else s.nodes,
         store := s.store[m := s.store[m].(id := Some(IdOr0(id)), done := true)])
    else s
  }

  function Turn(h: Option<Hook>): nat {
    if h == None then 1 else 0
  }

  function Rest(h: Option<Hook>): Hook {
    match h case Some(hook) => hook case None => Return(true)
  }

  /** Mutator j of builder i applied to mutation m; with `h`, the rest of the hook that mutator wraps. */
  function Exec(env: Env, s: Chain, i: nat, j: nat, m: nat, h: Option<Hook>): (r: (Chain, bool))
    requires Fits(env, s) && i < |env.hooks| && j <= |env.hooks[i]| && (h.Some? ==> j < |env.hooks[i]|) && m < |s.store|
    ensures Fits(env, r.0) && |s.store| <= |r.0.store|
    decreases |env.hooks| - i, |env.hooks[i]| - j, Turn(h), Rest(h)
  {
    match h
    case None =>
      if j < |env.hooks[i]| then
        var r := Exec(env, Note(s, Enter(i, j)), i, j, m, Some(env.hooks[i][j]));
        (Note(r.0, Leave(i, j, r.1)), r.1)
      else
        var p := Plan(env, s, i, m);
        if !p.1 then p else
        var r := Inner(env, p.0, i);
        if r.1 then (Finish(env, r.0, i, m), true) else r
    case Some(Return(ok)) => (s, ok)
    case Some(Edit(change, rest)) => Exec(env, s.(store := s.store[m := change(s.store[m])]), i, j, m, Some(rest))
    case Some(Swap(build, rest)) => Exec(env, s.(store := s.store + [build(s.store[m])]), i, j, |s.store|, Some(rest))
    case Some(Branch(test, yes, no)) => Exec(env, s, i, j, m, Some(if test(s.store[m]) then yes else no))
    case Some(Next(onOk, onErr)) =>
      var r := Exec(env, s, i, j + 1, m, None);
      Exec(env, r.0, i, j, m, Some(if r.1 then onOk else onErr))
  }

  /** What mutator i calls: the next builder's mutator, or the database. */
  function Inner(env: Env, s: Chain, i: nat): (r: (Chain, bool))
    requires Fits(env, s) && i < |env.hooks|
    ensures Fits(env, r.0) && |s.store| <= |r.0.store|
    decreases |env.hooks| - i - 1, |if i + 1 < |env.hooks| then env.hooks[i + 1] else []|, 2, Return(true)
  {
    if i + 1 < |env.hooks| then Exec(env, s, i + 1, 0, s.current[i + 1], None) else Insert(env, s)
  }

  /** The mutations after every builder's `defaults`, whose errors are ignored. */
  function WithDefaults(rt: Runtime, ms: seq<Mutation>): (r: seq<Mutation>)
    ensures |r| == |ms|
  {
    seq(|ms|, k requires 0 <= k < |ms| => ms[k].(values := Defaulted(rt, ms[k].values).0))
  }

  function Start(rt: Runtime, ms: seq<Mutation>): Chain {
    Chain(WithDefaults(rt, ms), seq(|ms|, k requires 0 <= k < |ms| => k), seq(|ms|, _ => None), seq(|ms|, _ => None), [])
  }

  /** The whole of `Save` on builders with these mutations. */
  function SaveAll(env: Env, ms: seq<Mutation>): (Chain, bool)
    requires |ms| == |env.hooks|
  {
    if ms == [] then (Start(env.rt, ms), true) else Exec(env, Start(env.rt, ms), 0, 0, 0, None)
  }

  class Bulk {
    var store: seq<Mutation>
    var current: seq<nat>
    var nodes: array<Option<map<Column, Value>>>
    var specs: array<Option<Planned>>
    var log: seq<Event>

    function State(): Chain
      reads this, nodes, specs
    {
      Chain(store, current, nodes[..], specs[..], log)
    }

    constructor (builders: seq<Mutation>)
      ensures store == builders && |current| == |builders| && forall k | 0 <= k < |builders| :: current[k] == k
    {
      store, current, log := builders, seq(|builders|, k requires 0 <= k < |builders| => k), [];
      nodes, specs := new Option<map<Column, Value>>[|builders|](_ => None), new Option<Planned>[|builders|](_ => None);
    }

    /** The innermost function of mutator i, before it calls mutator i+1. */
    method PlanOne(env: Env, i: nat, m: nat) returns (ok: bool)
      requires Fits(env, State()) && i < |env.hooks| && m < |store|
      modifies this`current, this`log, nodes, specs
      ensures (State(), ok) == Plan(env, old(State()), i, m)
    {
      var builder := new Builder(store[current[i]]);
      var err := builder.Check(env.rt);
      if err.Some? {
        log := log + [Refused(i)];
        return false;
      }
      current := current[i := m];
      builder := new Builder(store[m]);
      var node, spec := builder.CreateSpec();
      nodes[i], specs[i] := Some(node), Some(Planned(spec, None));
      log := log + [Passed(i, spec)];
      ok := true;
    }

    /** The database writes the new ids into the specs. */
    method FillIds(ids: nat -> Option<int>)
      modifies specs
      ensures specs[..] == WithIds(old(specs[..]), ids)
    {
      for k := 0 to specs.Length
        invariant forall l | 0 <= l < specs.Length ::
          specs[l] == if l < k then WithIds(old(specs[..]), ids)[l] else old(specs[..])[l]
      {
        if specs[k].Some? {
          specs[k] := Some(specs[k].value.(id := ids(k)));
        }
      }
    }

    method InsertAll(env: Env) returns (ok: bool)
      modifies this`log, specs
      ensures (State(), ok) == Insert(env, old(State()))
    {
      var sent := SpecsOf(specs[..]);
      var ids := env.batch(Batches(log), sent);
      log := log + [Batch(sent, ids.Some?)];
      ok := ids.Some?;
      if ok {
        FillIds(ids.value);
      }
    }

    method FinishOne(env: Env, i: nat, m: nat)
      requires Fits(env, State()) && i < |env.hooks| && m < |store|
      modifies this`store, nodes
      ensures State() == Finish(env, old(State()), i, m)
    {
      if specs[i].Some? && nodes[i].Some? {
        var id := specs[i].value.id;
        store := store[m := store[m].(id := Some(IdOr0(id)), done := true)];
        if id.Some? {
          nodes[i] := Some(nodes[i].value[Id := IntValue(id.value)]);
        }
      }
    }

    method Mutate(env: Env, i: nat, j: nat, m: nat) returns (ok: bool)
      requires Fits(env, State()) && i < |env.hooks| && j <= |env.hooks[i]| && m < |store|
      modifies this`store, this`current, this`log, nodes, specs
      ensures (State(), ok) == Exec(env, old(State()), i, j, m, None)
      decreases |env.hooks| - i, |env.hooks[i]| - j, 1, Return(true)
    {
      if j < |env.hooks[i]| {
        log := log + [Enter(i, j)];
        ok := Follow(env, i, j, env.hooks[i][j], m);
        log := log + [Leave(i, j, ok)];
        return;
      }
      ok := PlanOne(env, i, m);
      if !ok {
        return;
      }
      if i + 1 < |env.hooks| {
        ok := Mutate(env, i + 1, 0, current[i + 1]);
      } else {
        ok := InsertAll(env);
      }
      if ok {
        FinishOne(env, i, m);
      }
    }

    method Follow(env: Env, i: nat, j: nat, h: Hook, m: nat) returns (ok: bool)
      requires Fits(env, State()) && i < |env.hooks| && j < |env.hooks[i]| && m < |store|
      modifies this`store, this`current, this`log, nodes, specs
      ensures (State(), ok) == Exec(env, old(State()), i, j, m, Some(h))
      decreases |env.hooks| - i, |env.hooks[i]| - j, 0, h
    {
      match h
      case Return(result) => ok := result;
      case Edit(change, rest) =>
        store := store[m := change(store[m])];
        ok := Follow(env, i, j, rest, m);
      case Swap(build, rest) =>
        var next := |store|;
        store := store + [build(store[m])];
        ok := Follow(env, i, j, rest, next);
      case Branch(test, yes, no) => ok := Follow(env, i, j, if test(store[m]) then yes else no, m);
      case Next(onOk, onErr) =>
        var inner := Mutate(env, i, j + 1, m);
        ok := Follow(env, i, j, if inner then onOk else onErr, m);
    }

    method DefaultAll(env: Env)
      modifies this`store
      ensures store == WithDefaults(env.rt, old(store))
    {
      for i := 0 to |store|
        invariant |store| == |old(store)|
        invariant forall k | 0 <= k < |store| :: store[k] == if k < i then WithDefaults(env.rt, old(store))[k] else old(store)[k]
      {
        var builder := new Builder(store[i]);
        var _ := builder.Defaults(env.rt);
        store := store[i := builder.mutation];
      }
    }

    /** Returns all nodes, or none. */
    method Save(env: Env) returns (saved: Option<seq<Option<map<Column, Value>>>>)
      requires |store| == |env.hooks| == |current| && forall k | 0 <= k < |current| :: current[k] == k
      modifies this
      ensures fresh(nodes) && fresh(specs)
      ensures var r := SaveAll(env, old(store));
        State() == r.0 && saved == if r.1 then Some(r.0.nodes) else None
    {
      var n := |env.hooks|;
      nodes, specs, log := new Option<map<Column, Value>>[n](_ => None), new Option<Planned>[n](_ => None), [];
      DefaultAll(env);
      assert State() == Start(env.rt, old(store));
      if n > 0 {
        var ok := Mutate(env, 0, 0, current[0]);
        if !ok {
          return None;
        }
      }
      saved := Some(nodes[..]);
    }
  }
}
