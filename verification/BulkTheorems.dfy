/** What the chain of mutators guarantees, for all hooks and for well-behaved ones. */
module BulkTheorems {
  import opened Collections
  import opened Schema
  import opened RowCodec
  import opened AccountCreate
  import opened BulkCreate

  // --- What every step keeps, every run keeps ---

  /** A property of the state inside j hooks of builder i (and all hooks of earlier builders). */
  type Invariant = (nat, nat, Chain) -> bool

  ghost predicate KeptByEvents(env: Env, inv: Invariant) {
    && (forall i: nat, j: nat, s: Chain {:trigger Note(s, Enter(i, j))} |
          i < |env.hooks| && j < |env.hooks[i]| && inv(i, j, s) :: inv(i, j + 1, Note(s, Enter(i, j))))
    && (forall i: nat, j: nat, s: Chain, ok {:trigger Note(s, Leave(i, j, ok))} |
          i < |env.hooks| && j < |env.hooks[i]| && inv(i, j + 1, s) :: inv(i, j, Note(s, Leave(i, j, ok))))
  }

  ghost predicate KeptByStore(inv: Invariant) {
    forall i: nat, j: nat, s: Chain, store {:trigger inv(i, j, s.(store := store))} | inv(i, j, s) ::
      inv(i, j, s.(store := store))
  }

  ghost predicate KeptByPlan(env: Env, inv: Invariant) {
    forall i: nat, m: nat, s {:trigger Plan(env, s, i, m)} |
        Fits(env, s) && i < |env.hooks| && m < |s.store| && inv(i, |env.hooks[i]|, s) ::
      if Plan(env, s, i, m).1 then inv(i + 1, 0, Plan(env, s, i, m).0) else inv(i, |env.hooks[i]|, Plan(env, s, i, m).0)
  }

  ghost predicate KeptByInsert(env: Env, inv: Invariant) {
    forall s {:trigger Insert(env, s)} | Fits(env, s) && inv(|env.hooks|, 0, s) :: inv(|env.hooks|, 0, Insert(env, s).0)
  }

  /** The way back from builder i + 1 (or the database) to builder i, with and without success. */
  ghost predicate KeptByReturn(env: Env, inv: Invariant) {
    && (forall i: nat, m: nat, s {:trigger Finish(env, s, i, m)} |
          Fits(env, s) && i < |env.hooks| && m < |s.store| && inv(i + 1, 0, s) ::
        inv(i, |env.hooks[i]|, Finish(env, s, i, m)))
    && (forall i: nat, s {:trigger inv(i + 1, 0, s)} | i < |env.hooks| && inv(i + 1, 0, s) :: inv(i, |env.hooks[i]|, s))
  }

  ghost predicate Kept(env: Env, inv: Invariant) {
    KeptByEvents(env, inv) && KeptByStore(inv) && KeptByPlan(env, inv) && KeptByInsert(env, inv) && KeptByReturn(env, inv)
  }

  /** Whatever the hooks do, however often they call the next mutator and whatever they return. */
  lemma {:induction false} ExecKeeps(env: Env, inv: Invariant, s: Chain, i: nat, j: nat, m: nat, h: Option<Hook>)
    requires Fits(env, s) && i < |env.hooks| && j <= |env.hooks[i]| && (h.Some? ==> j < |env.hooks[i]|) && m < |s.store|
    requires Kept(env, inv) && inv(i, if h == None then j else j + 1, s)
    ensures inv(i, if h == None then j else j + 1, Exec(env, s, i, j, m, h).0)
    decreases |env.hooks| - i, |env.hooks[i]| - j, Turn(h), Rest(h)
  {
    match h
    case None =>
      if j < |env.hooks[i]| {
        ExecKeeps(env, inv, Note(s, Enter(i, j)), i, j, m, Some(env.hooks[i][j]));
      } else {
        BaseKeeps(env, inv, s, i, m);
      }
    case Some(Return(_)) =>
    case Some(Edit(change, rest)) => ExecKeeps(env, inv, s.(store := s.store[m := change(s.store[m])]), i, j, m, Some(rest));
    case Some(Swap(build, rest)) => ExecKeeps(env, inv, s.(store := s.store + [build(s.store[m])]), i, j, |s.store|, Some(rest));
    case Some(Branch(test, yes, no)) => ExecKeeps(env, inv, s, i, j, m, Some(if test(s.store[m]) then yes else no));
    case Some(Next(onOk, onErr)) =>
      ExecKeeps(env, inv, s, i, j + 1, m, None);
      var r := Exec(env, s, i, j + 1, m, None);
      ExecKeeps(env, inv, r.0, i, j, m, Some(if r.1 then onOk else onErr));
  }

  lemma {:induction false} BaseKeeps(env: Env, inv: Invariant, s: Chain, i: nat, m: nat)
    requires Fits(env, s) && i < |env.hooks| && m < |s.store|
    requires Kept(env, inv) && inv(i, |env.hooks[i]|, s)
    ensures inv(i, |env.hooks[i]|, Exec(env, s, i, |env.hooks[i]|, m, None).0)
    decreases |env.hooks| - i, 0, 0
  {
    var p := Plan(env, s, i, m);
    if p.1 {
      InnerKeeps(env, inv, p.0, i);
      var r := Inner(env, p.0, i);
      assert inv(i, |env.hooks[i]|, if r.1 then Finish(env, r.0, i, m) else r.0);
    }
  }

  lemma {:induction false} InnerKeeps(env: Env, inv: Invariant, s: Chain, i: nat)
    requires Fits(env, s) && i < |env.hooks| && Kept(env, inv) && inv(i + 1, 0, s)
    ensures inv(i + 1, 0, Inner(env, s, i).0)
    decreases |env.hooks| - i - 1, |if i + 1 < |env.hooks| then env.hooks[i + 1] else []|, 2
  {
    if i + 1 < |env.hooks| {
      ExecKeeps(env, inv, s, i + 1, 0, s.current[i + 1], None);
    }
  }

  // --- Every batch insert carries, in builder order, the specs of builders that all passed their checks ---

  /** The outcome of the last check of builder k: its spec, or nothing. */
  function LastCheck(log: seq<Event>, k: nat): Option<Spec> {
    if log == [] then None else
    var e := log[|log| - 1];
    if e.Passed? && e.i == k then Some(e.spec)
    else if e.Refused? && e.i == k then None
    else LastCheck(log[..|log| - 1], k)
  }

  ghost predicate SentChecked(n: nat, before: seq<Event>, sent: seq<Option<Spec>>) {
    |sent| == n && forall k | 0 <= k < n :: sent[k].Some? && sent[k] == LastCheck(before, k)
  }

  ghost predicate Safe(n: nat, log: seq<Event>) {
    log == [] || (Safe(n, log[..|log| - 1]) && (log[|log| - 1].Batch? ==> SentChecked(n, log[..|log| - 1], log[|log| - 1].sent)))
  }

  /** The specs of the builders before i are those of their last checks, which they passed. */
  ghost predicate Ready(n: nat, i: nat, s: Chain) {
    |s.specs| == n && i <= n && forall k | 0 <= k < i :: s.specs[k].Some? && LastCheck(s.log, k) == Some(s.specs[k].value.spec)
  }

  ghost predicate ReadyAndSafe(n: nat, i: nat, s: Chain) {
    Ready(n, i, s) && Safe(n, s.log)
  }

  lemma NoteSafe(n: nat, i: nat, s: Chain, e: Event)
    requires ReadyAndSafe(n, i, s) && (e.Enter? || e.Leave? || (e.Refused? && e.i >= i))
    ensures ReadyAndSafe(n, i, Note(s, e))
  {
    assert Note(s, e).log[..|s.log|] == s.log;
  }

  lemma PassedSafe(n: nat, i: nat, s: Chain, s': Chain, spec: Spec)
    requires ReadyAndSafe(n, i, s) && i < n
    requires s'.log == s.log + [Passed(i, spec)] && s'.specs == s.specs[i := Some(Planned(spec, None))]
    ensures ReadyAndSafe(n, i + 1, s')
  {
    assert s'.log[..|s.log|] == s.log;
  }

  lemma PlanSafe(env: Env, i: nat, s: Chain, m: nat)
    requires Fits(env, s) && i < |env.hooks| && m < |s.store| && ReadyAndSafe(|env.hooks|, i, s)
    ensures var p := Plan(env, s, i, m); ReadyAndSafe(|env.hooks|, if p.1 then i + 1 else i, p.0)
  {
    var p := Plan(env, s, i, m);
    if p.1 {
      PassedSafe(|env.hooks|, i, s, p.0, SpecOf(s.store[m]));
    } else {
      NoteSafe(|env.hooks|, i, s, Refused(i));
    }
  }

  lemma {:induction false} InsertSafe(env: Env, s: Chain)
    requires Fits(env, s) && ReadyAndSafe(|env.hooks|, |env.hooks|, s)
    ensures ReadyAndSafe(|env.hooks|, |env.hooks|, Insert(env, s).0)
  {
    var sent, r := SpecsOf(s.specs), Insert(env, s);
    assert SentChecked(|env.hooks|, s.log, sent);
    BatchSafe(|env.hooks|, s.log, Batch(sent, r.1));
    forall k | 0 <= k < |env.hooks| ensures LastCheck(r.0.log, k) == LastCheck(s.log, k) {
      BatchNoCheck(s.log, Batch(sent, r.1), k);
    }
  }

  lemma BatchSafe(n: nat, log: seq<Event>, e: Event)
    requires Safe(n, log) && e.Batch? && SentChecked(n, log, e.sent)
    ensures Safe(n, log + [e])
  {
    assert (log + [e])[..|log|] == log;
  }

  lemma BatchNoCheck(log: seq<Event>, e: Event, k: nat)
    requires e.Batch?
    ensures LastCheck(log + [e], k) == LastCheck(log, k)
  {
    assert (log + [e])[..|log|] == log;
  }

  ghost function SafeInvariant(n: nat): Invariant {
    (i: nat, j: nat, s: Chain) => ReadyAndSafe(n, i, s)
  }

  lemma SafeIsKept(env: Env)
    ensures Kept(env, SafeInvariant(|env.hooks|))
  {
    var n := |env.hooks|;
    var inv := SafeInvariant(n);
    forall i: nat, j: nat, s: Chain | inv(i, j, s) ensures inv(i, j + 1, Note(s, Enter(i, j))) {
      NoteSafe(n, i, s, Enter(i, j));
    }
    forall i: nat, j: nat, s: Chain, ok | inv(i, j + 1, s) ensures inv(i, j, Note(s, Leave(i, j, ok))) {
      NoteSafe(n, i, s, Leave(i, j, ok));
    }
    forall i: nat, m: nat, s | Fits(env, s) && i < n && m < |s.store| && inv(i, |env.hooks[i]|, s)
      ensures ReadyAndSafe(n, if Plan(env, s, i, m).1 then i + 1 else i, Plan(env, s, i, m).0)
    {
      PlanSafe(env, i, s, m);
    }
    forall s | Fits(env, s) && inv(n, 0, s) ensures inv(n, 0, Insert(env, s).0) {
      InsertSafe(env, s);
    }
  }

  /** Whatever the hooks do, a batch insert carries exactly the specs of the last checks, and no check failed. */
  lemma SaveIsSafe(env: Env, ms: seq<Mutation>)
    requires |ms| == |env.hooks|
    ensures Safe(|env.hooks|, SaveAll(env, ms).0.log)
  {
    if ms != [] {
      SafeIsKept(env);
      ExecKeeps(env, SafeInvariant(|env.hooks|), Start(env.rt, ms), 0, 0, 0, None);
    }
  }

  // --- Nesting ---

  /** The hooks that enclose mutator j of builder i: those of earlier builders, then its builder's earlier ones. */
  function Enclosing(hooks: seq<seq<Hook>>, i: nat, j: nat): seq<(nat, nat)>
    requires i <= |hooks|
    decreases i, j
  {
    if j > 0 then Enclosing(hooks, i, j - 1) + [(i, j - 1)]
    else if i > 0 then Enclosing(hooks, i - 1, |hooks[i - 1]|)
    else []
  }

  /** The hooks that were entered and not left. */
  function Open(log: seq<Event>): seq<(nat, nat)> {
    if log == [] then [] else
    var before := Open(log[..|log| - 1]);
    match log[|log| - 1]
    case Enter(i, j) => before + [(i, j)]
    case Leave(_, _, _) => if before == [] then [] else before[..|before| - 1]
    case _ => before
  }

  /** An event happens inside exactly the hooks that enclose its place. */
  ghost predicate InPlace(hooks: seq<seq<Hook>>, open: seq<(nat, nat)>, e: Event) {
    match e
    case Enter(i, j) => i < |hooks| && open == Enclosing(hooks, i, j)
    case Leave(i, j, _) => i < |hooks| && open == Enclosing(hooks, i, j + 1)
    case Refused(i) => i < |hooks| && open == Enclosing(hooks, i, |hooks[i]|)
    case Passed(i, _) => i < |hooks| && open == Enclosing(hooks, i, |hooks[i]|)
    case Batch(_, _) => open == Enclosing(hooks, |hooks|, 0)
  }

  ghost predicate Nested(hooks: seq<seq<Hook>>, log: seq<Event>) {
    log == [] || (Nested(hooks, log[..|log| - 1]) && InPlace(hooks, Open(log[..|log| - 1]), log[|log| - 1]))
  }

  ghost predicate NestedAt(hooks: seq<seq<Hook>>, i: nat, j: nat, s: Chain) {
    i <= |hooks| && Nested(hooks, s.log) && Open(s.log) == Enclosing(hooks, i, j)
  }

  lemma NestedNote(hooks: seq<seq<Hook>>, log: seq<Event>, e: Event)
    requires Nested(hooks, log) && InPlace(hooks, Open(log), e)
    ensures Nested(hooks, log + [e])
    ensures e.Enter? ==> Open(log + [e]) == Enclosing(hooks, e.i, e.j + 1)
    ensures e.Leave? ==> Open(log + [e]) == Enclosing(hooks, e.i, e.j)
    ensures !e.Enter? && !e.Leave? ==> Open(log + [e]) == Open(log)
  {
    assert (log + [e])[..|log|] == log;
  }

  ghost function NestedInvariant(hooks: seq<seq<Hook>>): Invariant {
    (i: nat, j: nat, s: Chain) => NestedAt(hooks, i, j, s)
  }

  lemma NestedIsKept(env: Env)
    ensures Kept(env, NestedInvariant(env.hooks))
  {
    var hooks := env.hooks;
    var inv := NestedInvariant(hooks);
    forall i: nat, j: nat, s: Chain | i < |hooks| && inv(i, j, s) ensures inv(i, j + 1, Note(s, Enter(i, j))) {
      NestedNote(hooks, s.log, Enter(i, j));
    }
    forall i: nat, j: nat, s: Chain, ok | i < |hooks| && inv(i, j + 1, s) ensures inv(i, j, Note(s, Leave(i, j, ok))) {
      NestedNote(hooks, s.log, Leave(i, j, ok));
    }
    forall i: nat, m: nat, s | Fits(env, s) && i < |hooks| && m < |s.store| && inv(i, |hooks[i]|, s)
      ensures if Plan(env, s, i, m).1 then inv(i + 1, 0, Plan(env, s, i, m).0) else inv(i, |hooks[i]|, Plan(env, s, i, m).0)
    {
      NestedNote(hooks, s.log, if Plan(env, s, i, m).1 then Passed(i, SpecOf(s.store[m])) else Refused(i));
    }
    forall s | Fits(env, s) && inv(|hooks|, 0, s) ensures inv(|hooks|, 0, Insert(env, s).0) {
      NestedNote(hooks, s.log, Batch(SpecsOf(s.specs), Insert(env, s).1));
    }
  }

  /** Builder 0 is outermost and `hooks[0]` is outermost within a builder, for every behaviour of the hooks; at the end
      all hooks are left. */
  lemma SaveIsNested(env: Env, ms: seq<Mutation>)
    requires |ms| == |env.hooks|
    ensures Nested(env.hooks, SaveAll(env, ms).0.log) && Open(SaveAll(env, ms).0.log) == []
  {
    if ms != [] {
      NestedIsKept(env);
      ExecKeeps(env, NestedInvariant(env.hooks), Start(env.rt, ms), 0, 0, 0, None);
    }
  }

  // --- Nodes and specs come from the same mutations ---

  ghost predicate Match(node: Option<map<Column, Value>>, planned: Option<Planned>) {
    && (node.Some? <==> planned.Some?)
    && (node.Some? ==> exists m: Mutation :: SpecOf(m) == planned.value.spec && NodeOf(m) == node.value - {Id})
  }

  ghost predicate Matching(s: Chain) {
    |s.nodes| == |s.specs| && forall k | 0 <= k < |s.nodes| :: Match(s.nodes[k], s.specs[k])
  }

  ghost function MatchInvariant(): Invariant {
    (i: nat, j: nat, s: Chain) => Matching(s)
  }

  lemma NodeWithoutId(m: Mutation)
    ensures Id !in NodeOf(m)
  {
  }

  lemma PlanMatches(env: Env, s: Chain, i: nat, m: nat)
    requires Fits(env, s) && i < |env.hooks| && m < |s.store| && Matching(s)
    ensures Matching(Plan(env, s, i, m).0)
  {
    NodeWithoutId(s.store[m]);
    var p := Plan(env, s, i, m).0;
    assert NodeOf(s.store[m]) - {Id} == NodeOf(s.store[m]);
    assert Match(Some(NodeOf(s.store[m])), Some(Planned(SpecOf(s.store[m]), None)));
    forall k | 0 <= k < |p.nodes| ensures Match(p.nodes[k], p.specs[k]) {
      assert Match(s.nodes[k], s.specs[k]);
    }
  }

  lemma InsertMatches(env: Env, s: Chain)
    requires Matching(s)
    ensures Matching(Insert(env, s).0)
  {
    var r := Insert(env, s).0;
    forall k | 0 <= k < |r.nodes| ensures Match(r.nodes[k], r.specs[k]) {
      assert Match(s.nodes[k], s.specs[k]);
    }
  }

  lemma FinishMatches(env: Env, s: Chain, i: nat, m: nat)
    requires Fits(env, s) && i < |env.hooks| && m < |s.store| && Matching(s)
    ensures Matching(Finish(env, s, i, m))
  {
    var f := Finish(env, s, i, m);
    forall k | 0 <= k < |f.nodes| ensures Match(f.nodes[k], f.specs[k]) {
      assert Match(s.nodes[k], s.specs[k]);
      if k == i && s.nodes[i].Some? && s.specs[i].value.id.Some? {
        assert s.nodes[i].value[Id := IntValue(s.specs[i].value.id.value)] - {Id} == s.nodes[i].value - {Id};
      }
    }
  }

  lemma MatchIsKept(env: Env)
    ensures Kept(env, MatchInvariant())
  {
    var inv := MatchInvariant();
    forall i: nat, m: nat, s | Fits(env, s) && i < |env.hooks| && m < |s.store| && Matching(s) ensures Matching(Plan(env, s, i, m).0) {
      PlanMatches(env, s, i, m);
    }
    forall s | Matching(s) ensures Matching(Insert(env, s).0) {
      InsertMatches(env, s);
    }
    forall i: nat, m: nat, s | Fits(env, s) && i < |env.hooks| && m < |s.store| && Matching(s) ensures Matching(Finish(env, s, i, m)) {
      FinishMatches(env, s, i, m);
    }
  }

  /** The node of a place is, but for its id, the node of every mutation with the spec of that place, and there is one. */
  ghost predicate FromItsSpec(node: Option<map<Column, Value>>, planned: Option<Planned>) {
    && Match(node, planned)
    && forall m: Mutation | planned.Some? && SpecOf(m) == planned.value.spec :: NodeOf(m) == node.value - {Id}
  }

  lemma MatchDetermines(node: Option<map<Column, Value>>, planned: Option<Planned>)
    requires Match(node, planned)
    ensures FromItsSpec(node, planned)
  {
    if planned.Some? {
      var made: Mutation :| SpecOf(made) == planned.value.spec && NodeOf(made) == node.value - {Id};
      forall m: Mutation | SpecOf(m) == planned.value.spec ensures NodeOf(m) == NodeOf(made) {
        SpecMakesNode(m, made);
      }
    }
  }

  /** For all hooks: whatever mutations they build, every returned node is the one that its spec determines. */
  lemma SaveNodesMatchSpecs(env: Env, ms: seq<Mutation>)
    requires |ms| == |env.hooks|
    ensures var r := SaveAll(env, ms).0;
      |r.nodes| == |r.specs| == |ms| && forall k | 0 <= k < |ms| :: FromItsSpec(r.nodes[k], r.specs[k])
  {
    if ms != [] {
      MatchIsKept(env);
      ExecKeeps(env, MatchInvariant(), Start(env.rt, ms), 0, 0, 0, None);
    }
    var r := SaveAll(env, ms).0;
    assert Matching(r);
    forall k | 0 <= k < |ms| ensures FromItsSpec(r.nodes[k], r.specs[k]) {
      MatchDetermines(r.nodes[k], r.specs[k]);
    }
  }
}
