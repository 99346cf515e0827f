/** The single create with its hooks, and when a bulk of one builder does the same. */
module SingleSave {
  import opened Collections
  import opened Schema
  import opened RowCodec
  import opened AccountCreate
  import opened BulkCreate
  import opened BulkOutcomes

  predicate One(env: Env, s: Chain) {
    |env.hooks| == 1 && Fits(env, s) && s.current == [0] && s.store != []
  }

  /** The base of `withHooks`: the mutation that arrives is copied into the builder's own one, and that is saved. */
  function SaveHere(env: Env, s: Chain, m: nat): (Chain, bool)
    requires One(env, s) && m < |s.store|
  {
    var p := Plan(env, s.(store := s.store[0 := s.store[m]]), 0, 0);
    if !p.1 then p else
    var r := Insert(env, p.0);
    if r.1 then (Finish(env, r.0, 0, 0), true) else r
  }

  function ExecOne(env: Env, s: Chain, j: nat, m: nat, h: Option<Hook>): (r: (Chain, bool))
    requires One(env, s) && j <= |env.hooks[0]| && m < |s.store|
    requires h.Some? ==> j < |env.hooks[0]|
    ensures One(env, r.0) && |s.store| <= |r.0.store|
    decreases |env.hooks[0]| - j, Turn(h), Rest(h)
  {
    match h
    case None =>
      if j < |env.hooks[0]| then
        var r := ExecOne(env, Note(s, Enter(0, j)), j, m, Some(env.hooks[0][j]));
        (Note(r.0, Leave(0, j, r.1)), r.1)
      else SaveHere(env, s, m)
    case Some(Return(ok)) => (s, ok)
    case Some(Edit(change, rest)) => ExecOne(env, s.(store := s.store[m := change(s.store[m])]), j, m, Some(rest))
    case Some(Swap(build, rest)) => ExecOne(env, s.(store := s.store + [build(s.store[m])]), j, |s.store|, Some(rest))
    case Some(Branch(test, yes, no)) => ExecOne(env, s, j, m, Some(if test(s.store[m]) then yes else no))
    case Some(Next(onOk, onErr)) =>
      var r := ExecOne(env, s, j + 1, m, None);
      ExecOne(env, r.0, j, m, Some(if r.1 then onOk else onErr))
  }

  /** `Save`: an error of `defaults` is returned before any hook runs. */
  function SaveOne(env: Env, m: Mutation): (Chain, bool)
    requires |env.hooks| == 1
  {
    var s := Start(env.rt, [m]);
    if Defaulted(env.rt, m.values).1.Some? then (s, false) else ExecOne(env, s, 0, 0, None)
  }

  /** Without hooks this is `sqlSave`: check, insert, id and done flag. */
  lemma SaveHereIsSqlSave(env: Env, s: Chain, create: CreateNode)
    requires One(env, s)
    requires forall spec, ids | env.batch(Batches(s.log), [Some(spec)]) == Some(ids) :: ids(0).Some? && create(spec) == ids(0)
    requires forall spec | env.batch(Batches(s.log), [Some(spec)]) == None :: create(spec) == None
    ensures var m, r := s.store[0], SaveHere(env, s, 0); var id := create(SpecOf(m));
      && (r.1 <==> CheckOf(env.rt, m.values) == None && id.Some?)
      && (r.1 ==> r.0.nodes == [Some(NodeOf(m)[Id := IntValue(id.value)])] && r.0.store[0] == m.(id := id, done := true))
      && (!r.1 ==> r.0.store == s.store)
  {
    var m := s.store[0];
    var p := Plan(env, s, 0, 0);
    assert s.store[0 := m] == s.store;
    if p.1 {
      NoBatch(s.log, Passed(0, SpecOf(m)));
      assert SpecsOf(p.0.specs) == [Some(SpecOf(m))];
    }
  }

  lemma NoBatch(log: seq<Event>, e: Event)
    requires !e.Batch?
    ensures Batches(log + [e]) == Batches(log)
  {
    assert (log + [e])[..|log|] == log;
  }

  // --- A bulk of one ---

  lemma BaseAgrees(env: Env, s: Chain)
    requires One(env, s)
    ensures SaveHere(env, s, 0) == Exec(env, s, 0, |env.hooks[0]|, 0, None)
  {
    assert s.store[0 := s.store[0]] == s.store;
    assert s.(store := s.store) == s;
    assert s.current[0 := 0] == s.current;
  }

  /** Hooks that pass on the mutation they were given see no difference. */
  lemma {:induction false} ExecAgrees(env: Env, s: Chain, j: nat, h: Option<Hook>)
    requires One(env, s) && j <= |env.hooks[0]|
    requires (h.Some? ==> j < |env.hooks[0]| && NoSwap(h.value)) && forall k | 0 <= k < |env.hooks[0]| :: NoSwap(env.hooks[0][k])
    ensures ExecOne(env, s, j, 0, h) == Exec(env, s, 0, j, 0, h)
    decreases |env.hooks[0]| - j, Turn(h), Rest(h)
  {
    match h
    case None =>
      if j < |env.hooks[0]| {
        ExecAgrees(env, Note(s, Enter(0, j)), j, Some(env.hooks[0][j]));
      } else {
        BaseAgrees(env, s);
      }
    case Some(Return(_)) =>
    case Some(Edit(change, rest)) => ExecAgrees(env, s.(store := s.store[0 := change(s.store[0])]), j, Some(rest));
    case Some(Branch(test, yes, no)) => ExecAgrees(env, s, j, Some(if test(s.store[0]) then yes else no));
    case Some(Next(onOk, onErr)) =>
      ExecAgrees(env, s, j + 1, None);
      var r := ExecOne(env, s, j + 1, 0, None);
      ExecAgrees(env, r.0, j, Some(if r.1 then onOk else onErr));
  }

  /** When no hook replaces the mutation, the single save is a bulk of one if the defaults succeed, and otherwise it fails
      before any hook runs. */
  lemma SingletonBulk(env: Env, m: Mutation)
    requires |env.hooks| == 1 && forall k | 0 <= k < |env.hooks[0]| :: NoSwap(env.hooks[0][k])
    ensures SaveOne(env, m) == if Defaulted(env.rt, m.values).1 == None then SaveAll(env, [m]) else (Start(env.rt, [m]), false)
  {
    var s := Start(env.rt, [m]);
    assert s.current == [0];
    ExecAgrees(env, s, 0, None);
  }

  /** Without hooks they agree on failing defaults too, although the bulk ignores that error: the check fails. */
  lemma SingletonWithoutHooks(env: Env, m: Mutation)
    requires env.hooks == [[]]
    ensures SaveAll(env, [m]).1 == SaveOne(env, m).1
    ensures Defaulted(env.rt, m.values).1.Some? ==> SaveAll(env, [m]).0.log == [Refused(0)]
  {
    if Defaulted(env.rt, m.values).1 == None {
      SingletonBulk(env, m);
    } else {
      FailedDefaultsFailCheck(env.rt, m.values);
      var s := Start(env.rt, [m]);
      assert s.store[s.current[0]].values == Defaulted(env.rt, m.values).0;
    }
  }

  // --- Hooks that replace the mutation ---

  /** Where faithful hooks get on their way in: the mutations then, and the position of the one that arrives. */
  function Reach(hooks: seq<Hook>, store: seq<Mutation>, j: nat, m: nat, h: Option<Hook>): (r: (seq<Mutation>, nat))
    requires j <= |hooks| && (h.Some? ==> j < |hooks|) && m < |store|
    ensures r.1 < |r.0| && |store| <= |r.0|
    decreases |hooks| - j, Turn(h), Rest(h)
  {
    match h
    case None => if j < |hooks| then Reach(hooks, store, j, m, Some(hooks[j])) else (store, m)
    case Some(Return(_)) => (store, m)
    case Some(Edit(change, rest)) => Reach(hooks, store[m := change(store[m])], j, m, Some(rest))
    case Some(Swap(build, rest)) => Reach(hooks, store + [build(store[m])], j, |store|, Some(rest))
    case Some(Branch(test, yes, no)) => Reach(hooks, store, j, m, Some(if test(store[m]) then yes else no))
    case Some(Next(_, _)) => Reach(hooks, store, j + 1, m, None)
  }

  /** The database takes the spec of the arriving mutation. */
  predicate Takes(env: Env, at: (seq<Mutation>, nat))
    requires at.1 < |at.0|
  {
    env.batch(0, [Some(SpecOf(at.0[at.1]))]).Some?
  }

  predicate AcceptsAt(env: Env, at: (seq<Mutation>, nat), k: nat)
    requires k < |at.0|
  {
    CheckOf(env.rt, at.0[k].values) == None
  }

  lemma {:induction false} BulkReaches(env: Env, s: Chain, j: nat, m: nat, h: Option<Hook>)
    requires One(env, s) && j <= |env.hooks[0]| && (h.Some? ==> j < |env.hooks[0]| && Faithful(h.value)) && m < |s.store|
    requires AllFaithful(env) && Batches(s.log) == 0
    ensures var at := Reach(env.hooks[0], s.store, j, m, h);
      Exec(env, s, 0, j, m, h).1 <==> AcceptsAt(env, at, 0) && Takes(env, at)
    decreases |env.hooks[0]| - j, Turn(h), Rest(h)
  {
    match h
    case None =>
      if j < |env.hooks[0]| {
        NoBatch(s.log, Enter(0, j));
        BulkReaches(env, Note(s, Enter(0, j)), j, m, Some(env.hooks[0][j]));
      } else {
        BulkBase(env, s, m);
      }
    case Some(Return(_)) =>
    case Some(Edit(change, rest)) => BulkReaches(env, s.(store := s.store[m := change(s.store[m])]), j, m, Some(rest));
    case Some(Swap(build, rest)) => BulkReaches(env, s.(store := s.store + [build(s.store[m])]), j, |s.store|, Some(rest));
    case Some(Branch(test, yes, no)) => BulkReaches(env, s, j, m, Some(if test(s.store[m]) then yes else no));
    case Some(Next(onOk, onErr)) =>
      BulkReaches(env, s, j + 1, m, None);
      var r := Exec(env, s, 0, j + 1, m, None);
      EndsKeeps(env, r.0, 0, j, m, if r.1 then onOk else onErr, r.1);
  }

  lemma {:induction false} EndsOne(env: Env, s: Chain, j: nat, m: nat, h: Hook, ok: bool)
    requires One(env, s) && j < |env.hooks[0]| && m < |s.store| && Ends(h, ok)
    ensures ExecOne(env, s, j, m, Some(h)).1 == ok
    decreases h
  {
    match h
    case Return(_) =>
    case Edit(change, rest) => EndsOne(env, s.(store := s.store[m := change(s.store[m])]), j, m, rest, ok);
    case Swap(build, rest) => EndsOne(env, s.(store := s.store + [build(s.store[m])]), j, |s.store|, rest, ok);
    case Branch(test, yes, no) => EndsOne(env, s, j, m, if test(s.store[m]) then yes else no, ok);
    case Next(_, _) =>
  }

  lemma {:induction false} SingleReaches(env: Env, s: Chain, j: nat, m: nat, h: Option<Hook>)
    requires One(env, s) && j <= |env.hooks[0]| && (h.Some? ==> j < |env.hooks[0]| && Faithful(h.value)) && m < |s.store|
    requires AllFaithful(env) && Batches(s.log) == 0
    ensures var at := Reach(env.hooks[0], s.store, j, m, h);
      ExecOne(env, s, j, m, h).1 <==> AcceptsAt(env, at, at.1) && Takes(env, at)
    decreases |env.hooks[0]| - j, Turn(h), Rest(h)
  {
    match h
    case None =>
      if j < |env.hooks[0]| {
        NoBatch(s.log, Enter(0, j));
        SingleReaches(env, Note(s, Enter(0, j)), j, m, Some(env.hooks[0][j]));
      } else {
        SingleBase(env, s, m);
      }
    case Some(Return(_)) =>
    case Some(Edit(change, rest)) => SingleReaches(env, s.(store := s.store[m := change(s.store[m])]), j, m, Some(rest));
    case Some(Swap(build, rest)) => SingleReaches(env, s.(store := s.store + [build(s.store[m])]), j, |s.store|, Some(rest));
    case Some(Branch(test, yes, no)) => SingleReaches(env, s, j, m, Some(if test(s.store[m]) then yes else no));
    case Some(Next(onOk, onErr)) =>
      SingleReaches(env, s, j + 1, m, None);
      var r := ExecOne(env, s, j + 1, m, None);
      EndsOne(env, r.0, j, m, if r.1 then onOk else onErr, r.1);
  }

  /** For all hooks that call exactly once and pass the outcome through: the bulk of one ignores failing defaults, checks
      the builder's own mutation and inserts the one that arrives; the single save fails on failing defaults and checks the
      one that it inserts. */
  lemma SavesDiffer(env: Env, m: Mutation)
    requires |env.hooks| == 1 && AllFaithful(env)
    ensures var at := Reach(env.hooks[0], WithDefaults(env.rt, [m]), 0, 0, None);
      && (SaveAll(env, [m]).1 <==> AcceptsAt(env, at, 0) && Takes(env, at))
      && (SaveOne(env, m).1 <==> Defaulted(env.rt, m.values).1 == None && AcceptsAt(env, at, at.1) && Takes(env, at))
  {
    var s := Start(env.rt, [m]);
    assert s.current == [0];
    BulkReaches(env, s, 0, 0, None);
    SingleReaches(env, s, 0, 0, None);
  }

  lemma PlanAndInsert(env: Env, s: Chain, m: nat)
    requires One(env, s) && m < |s.store| && Batches(s.log) == 0
    ensures var p := Plan(env, s, 0, m);
      && (p.1 <==> CheckOf(env.rt, s.store[0].values) == None)
      && (p.1 ==> (Insert(env, p.0).1 <==> env.batch(0, [Some(SpecOf(s.store[m]))]).Some?))
  {
    var p := Plan(env, s, 0, m);
    if p.1 {
      NoBatch(s.log, Passed(0, SpecOf(s.store[m])));
      assert SpecsOf(p.0.specs) == [Some(SpecOf(s.store[m]))];
    }
  }

  lemma BulkBase(env: Env, s: Chain, m: nat)
    requires One(env, s) && m < |s.store| && Batches(s.log) == 0
    ensures Exec(env, s, 0, |env.hooks[0]|, m, None).1 <==>
      CheckOf(env.rt, s.store[0].values) == None && env.batch(0, [Some(SpecOf(s.store[m]))]).Some?
  {
    PlanAndInsert(env, s, m);
  }

  lemma SingleBase(env: Env, s: Chain, m: nat)
    requires One(env, s) && m < |s.store| && Batches(s.log) == 0
    ensures ExecOne(env, s, |env.hooks[0]|, m, None).1 <==>
      CheckOf(env.rt, s.store[m].values) == None && env.batch(0, [Some(SpecOf(s.store[m]))]).Some?
  {
    PlanAndInsert(env, s.(store := s.store[0 := s.store[m]]), 0);
  }

  function DropName(m: Mutation): Mutation {
    m.(values := m.values - {Name})
  }

  function NamelessHook(): Hook {
    Swap(DropName, Next(Return(true), Return(false)))
  }

  /** So a bulk inserts a row without a name, which the single save refuses. */
  lemma BulkInsertsUnchecked(env: Env, m: Mutation)
    requires env.hooks == [[NamelessHook()]] && Defaulted(env.rt, m.values).1 == None
    requires CheckOf(env.rt, Defaulted(env.rt, m.values).0) == None
    requires forall sent :: env.batch(0, sent).Some?
    ensures SaveAll(env, [m]).1 && !SaveOne(env, m).1
  {
    var full := m.(values := Defaulted(env.rt, m.values).0);
    NamelessReach(env.hooks[0], full);
    assert WithDefaults(env.rt, [m]) == [full];
    SavesDiffer(env, m);
    Nameless(env.rt, full.values);
  }

  lemma NamelessReach(hooks: seq<Hook>, full: Mutation)
    requires hooks == [NamelessHook()]
    ensures Faithful(NamelessHook()) && Reach(hooks, [full], 0, 0, None) == ([full, DropName(full)], 1)
  {
    var h := NamelessHook();
    assert Tame(DropName);
    assert [full] + [DropName(full)] == [full, DropName(full)];
    assert Reach(hooks, [full, DropName(full)], 0, 1, Some(Next(Return(true), Return(false)))) == ([full, DropName(full)], 1);
    assert Reach(hooks, [full], 0, 0, Some(h)) == ([full, DropName(full)], 1);
  }

  lemma Nameless(rt: Runtime, values: map<Column, Value>)
    ensures CheckOf(rt, values - {Name}) != None
  {
    CheckMeans(rt, values - {Name});
    assert Demanded(Name);
  }

  // --- Hooks that fill in what failed defaults left unset ---

  function FillingHook(fill: Mutation -> Mutation): Hook {
    Edit(fill, Next(Return(true), Return(false)))
  }

  lemma FillingReach(hooks: seq<Hook>, fill: Mutation -> Mutation, left: Mutation)
    requires hooks == [FillingHook(fill)]
    ensures Reach(hooks, [left], 0, 0, None) == ([fill(left)], 0)
  {
    assert [left][0 := fill(left)] == [fill(left)];
    assert Reach(hooks, [fill(left)], 0, 0, Some(Next(Return(true), Return(false)))) == ([fill(left)], 0);
    assert Reach(hooks, [left], 0, 0, Some(FillingHook(fill))) == ([fill(left)], 0);
  }

  /** A hook can make up for failed defaults in a bulk, which ignores their error and checks later; the single save has
      failed by then. No mutation is replaced here. */
  lemma BulkSurvivesDefaults(env: Env, m: Mutation, fill: Mutation -> Mutation)
    requires env.hooks == [[FillingHook(fill)]] && Tame(fill) && Defaulted(env.rt, m.values).1.Some?
    requires CheckOf(env.rt, fill(m.(values := Defaulted(env.rt, m.values).0)).values) == None
    requires forall sent :: env.batch(0, sent).Some?
    ensures SaveAll(env, [m]).1 && !SaveOne(env, m).1
  {
    var left := m.(values := Defaulted(env.rt, m.values).0);
    FillingReach(env.hooks[0], fill, left);
    assert WithDefaults(env.rt, [m]) == [left];
    SavesDiffer(env, m);
  }
}
