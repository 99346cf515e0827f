/** Exactly once, all or nothing, and nothing unchecked, for hooks that behave. */
module BulkOutcomes {
  import opened Collections
  import opened Schema
  import opened RowCodec
  import opened AccountCreate
  import opened BulkCreate
  import opened BulkTheorems

  // --- At most one batch insert ---

  predicate Never(h: Hook) {
    match h
    case Return(_) => true
    case Edit(_, rest) => Never(rest)
    case Swap(_, rest) => Never(rest)
    case Branch(_, yes, no) => Never(yes) && Never(no)
    case Next(_, _) => false
  }

  /** The hook calls the next mutator at most once on every path. */
  predicate AtMostOnce(h: Hook) {
    match h
    case Return(_) => true
    case Edit(_, rest) => AtMostOnce(rest)
    case Swap(_, rest) => AtMostOnce(rest)
    case Branch(_, yes, no) => AtMostOnce(yes) && AtMostOnce(no)
    case Next(onOk, onErr) => Never(onOk) && Never(onErr)
  }

  ghost predicate AllHooks(env: Env, p: Hook -> bool) {
    forall i, j | 0 <= i < |env.hooks| && 0 <= j < |env.hooks[i]| :: p(env.hooks[i][j])
  }

  lemma NoteBatches(log: seq<Event>, e: Event)
    ensures Batches(log + [e]) == Batches(log) + if e.Batch? then 1 else 0
  {
    assert (log + [e])[..|log|] == log;
  }

  lemma {:induction false} NeverBatches(env: Env, s: Chain, i: nat, j: nat, m: nat, h: Hook)
    requires Fits(env, s) && i < |env.hooks| && j < |env.hooks[i]| && m < |s.store| && Never(h)
    ensures Exec(env, s, i, j, m, Some(h)).0.log == s.log
    decreases h
  {
    match h
    case Return(_) =>
    case Edit(change, rest) => NeverBatches(env, s.(store := s.store[m := change(s.store[m])]), i, j, m, rest);
    case Swap(build, rest) => NeverBatches(env, s.(store := s.store + [build(s.store[m])]), i, j, |s.store|, rest);
    case Branch(test, yes, no) => NeverBatches(env, s, i, j, m, if test(s.store[m]) then yes else no);
    case Next(_, _) =>
  }

  lemma {:induction false} AtMostOneBatch(env: Env, s: Chain, i: nat, j: nat, m: nat, h: Option<Hook>)
    requires Fits(env, s) && i < |env.hooks| && j <= |env.hooks[i]| && (h.Some? ==> j < |env.hooks[i]|) && m < |s.store|
    requires AllHooks(env, AtMostOnce) && (h.Some? ==> AtMostOnce(h.value))
    ensures Batches(Exec(env, s, i, j, m, h).0.log) <= Batches(s.log) + 1
    decreases |env.hooks| - i, |env.hooks[i]| - j, Turn(h), Rest(h)
  {
    match h
    case None =>
      if j < |env.hooks[i]| {
        var s1 := Note(s, Enter(i, j));
        NoteBatches(s.log, Enter(i, j));
        AtMostOneBatch(env, s1, i, j, m, Some(env.hooks[i][j]));
        var r := Exec(env, s1, i, j, m, Some(env.hooks[i][j]));
        NoteBatches(r.0.log, Leave(i, j, r.1));
      } else {
        BaseBatches(env, s, i, m);
      }
    case Some(Return(_)) =>
    case Some(Edit(change, rest)) => AtMostOneBatch(env, s.(store := s.store[m := change(s.store[m])]), i, j, m, Some(rest));
    case Some(Swap(build, rest)) => AtMostOneBatch(env, s.(store := s.store + [build(s.store[m])]), i, j, |s.store|, Some(rest));
    case Some(Branch(test, yes, no)) => AtMostOneBatch(env, s, i, j, m, Some(if test(s.store[m]) then yes else no));
    case Some(Next(onOk, onErr)) =>
      AtMostOneBatch(env, s, i, j + 1, m, None);
      var r := Exec(env, s, i, j + 1, m, None);
      NeverBatches(env, r.0, i, j, m, if r.1 then onOk else onErr);
  }

  /** What the innermost function of mutator i makes of the outcome `r` of what it calls. */
  function Wrapped(env: Env, p: (Chain, bool), r: (Chain, bool), i: nat, m: nat): (e: (Chain, bool))
    requires p.1 ==> Fits(env, r.0) && i < |env.hooks| && m < |r.0.store|
  {
    if !p.1 then p else if r.1 then (Finish(env, r.0, i, m), true) else r
  }

  lemma BaseWraps(env: Env, s: Chain, i: nat, m: nat)
    requires Fits(env, s) && i < |env.hooks| && m < |s.store|
    ensures var p := Plan(env, s, i, m); Exec(env, s, i, |env.hooks[i]|, m, None) == Wrapped(env, p, if p.1 then Inner(env, p.0, i) else p, i, m)
  {
  }

  lemma WrappedLog(env: Env, p: (Chain, bool), r: (Chain, bool), i: nat, m: nat)
    requires p.1 ==> Fits(env, r.0) && i < |env.hooks| && m < |r.0.store|
    ensures Wrapped(env, p, r, i, m).0.log == if p.1 then r.0.log else p.0.log
  {
  }

  lemma {:induction false} BaseBatches(env: Env, s: Chain, i: nat, m: nat)
    requires Fits(env, s) && i < |env.hooks| && m < |s.store| && AllHooks(env, AtMostOnce)
    ensures Batches(Exec(env, s, i, |env.hooks[i]|, m, None).0.log) <= Batches(s.log) + 1
    decreases |env.hooks| - i, 0, 0
  {
    var p := Plan(env, s, i, m);
    BaseWraps(env, s, i, m);
    var r := if p.1 then Inner(env, p.0, i) else p;
    WrappedLog(env, p, r, i, m);
    NoteBatches(s.log, if p.1 then Passed(i, SpecOf(s.store[m])) else Refused(i));
    if p.1 {
      InnerBatches(env, p.0, i);
    }
  }

  lemma {:induction false} InnerBatches(env: Env, s: Chain, i: nat)
    requires Fits(env, s) && i < |env.hooks| && AllHooks(env, AtMostOnce)
    ensures Batches(Inner(env, s, i).0.log) <= Batches(s.log) + 1
    decreases |env.hooks| - i - 1, |if i + 1 < |env.hooks| then env.hooks[i + 1] else []|, 2
  {
    if i + 1 < |env.hooks| {
      AtMostOneBatch(env, s, i + 1, 0, s.current[i + 1], None);
    } else {
      NoteBatches(s.log, Batch(SpecsOf(s.specs), Insert(env, s).1));
    }
  }

  lemma SaveInsertsAtMostOnce(env: Env, ms: seq<Mutation>)
    requires |ms| == |env.hooks| && AllHooks(env, AtMostOnce)
    ensures Batches(SaveAll(env, ms).0.log) <= 1
  {
    if ms != [] {
      AtMostOneBatch(env, Start(env.rt, ms), 0, 0, 0, None);
    }
  }

  // --- All or nothing ---

  /** An edit through the setters touches neither the id nor the done flag. */
  ghost predicate Tame(change: Mutation -> Mutation) {
    forall m: Mutation :: change(m).id == m.id && change(m).done == m.done
  }

  /** After its call, the hook returns this outcome without calling again. */
  ghost predicate Ends(h: Hook, ok: bool) {
    match h
    case Return(result) => result == ok
    case Edit(change, rest) => Tame(change) && Ends(rest, ok)
    case Swap(build, rest) => Tame(build) && Ends(rest, ok)
    case Branch(_, yes, no) => Ends(yes, ok) && Ends(no, ok)
    case Next(_, _) => false
  }

  /** The hook calls the next mutator exactly once and passes its outcome through. */
  ghost predicate Faithful(h: Hook) {
    match h
    case Return(_) => false
    case Edit(change, rest) => Tame(change) && Faithful(rest)
    case Swap(build, rest) => Tame(build) && Faithful(rest)
    case Branch(_, yes, no) => Faithful(yes) && Faithful(no)
    case Next(onOk, onErr) => Ends(onOk, true) && Ends(onErr, false)
  }

  ghost predicate AllFaithful(env: Env) {
    forall i, j | 0 <= i < |env.hooks| && 0 <= j < |env.hooks[i]| :: Faithful(env.hooks[i][j])
  }

  ghost predicate NoneDone(store: seq<Mutation>) {
    forall p | 0 <= p < |store| :: !store[p].done
  }

  /** Ids and done flags are as before, and copies are as little done as the originals. */
  ghost predicate SameMarks(a: seq<Mutation>, b: seq<Mutation>) {
    && |a| <= |b|
    && (forall p | 0 <= p < |a| :: b[p].done == a[p].done && b[p].id == a[p].id)
    && (NoneDone(a) ==> NoneDone(b))
  }

  lemma TameEdit(store: seq<Mutation>, m: nat, change: Mutation -> Mutation)
    requires m < |store| && Tame(change)
    ensures SameMarks(store, store[m := change(store[m])]) && SameMarks(store, store + [change(store[m])])
  {
  }

  lemma {:induction false} EndsKeeps(env: Env, s: Chain, i: nat, j: nat, m: nat, h: Hook, ok: bool)
    requires Fits(env, s) && i < |env.hooks| && j < |env.hooks[i]| && m < |s.store| && Ends(h, ok)
    ensures var r := Exec(env, s, i, j, m, Some(h));
      r.1 == ok && SameMarks(s.store, r.0.store) && r.0 == s.(store := r.0.store)
    decreases h
  {
    match h
    case Return(_) =>
    case Edit(change, rest) =>
      TameEdit(s.store, m, change);
      EndsKeeps(env, s.(store := s.store[m := change(s.store[m])]), i, j, m, rest, ok);
    case Swap(build, rest) =>
      TameEdit(s.store, m, build);
      EndsKeeps(env, s.(store := s.store + [build(s.store[m])]), i, j, |s.store|, rest, ok);
    case Branch(test, yes, no) => EndsKeeps(env, s, i, j, m, if test(s.store[m]) then yes else no, ok);
    case Next(_, _) =>
  }

  function Inserted(log: seq<Event>): nat {
    if log == [] then 0 else Inserted(log[..|log| - 1]) + if log[|log| - 1].Batch? && log[|log| - 1].ok then 1 else 0
  }

  lemma NoteInserted(log: seq<Event>, e: Event)
    ensures Inserted(log + [e]) == Inserted(log) + if e.Batch? && e.ok then 1 else 0
  {
    assert (log + [e])[..|log|] == log;
  }

  /** The builders from i on have mutations of their own, none of them m except possibly builder i's. */
  ghost predicate Apart(s: Chain, i: nat, m: nat) {
    && (forall k | i < k < |s.current| :: s.current[k] != m)
    && (forall k, l | i < k < l < |s.current| :: s.current[k] != s.current[l])
  }

  /** Node k is there, and its mutation is done and has the id in the node's spec, which the node has too. */
  ghost predicate SavedAt(s: Chain, k: nat)
    requires k < |s.current| == |s.nodes| == |s.specs|
  {
    && s.specs[k].Some? && s.nodes[k].Some? && s.current[k] < |s.store|
    && s.store[s.current[k]].done && s.store[s.current[k]].id == Some(IdOr0(s.specs[k].value.id))
    && (s.specs[k].value.id.Some? ==> Field(s.nodes[k].value, Id) == Some(IntValue(s.specs[k].value.id.value)))
  }

  /** Where builders' mutations can have gone. */
  ghost predicate Moved(s: Chain, r: Chain, i: nat, m: nat)
    requires |s.current| == |r.current|
  {
    forall k | i <= k < |s.current| ::
      r.current[k] == s.current[k] || (k == i && r.current[k] == m) || r.current[k] >= |s.store|
  }

  ghost predicate Settled(env: Env, r: Chain, i: nat, ok: bool)
    requires Fits(env, r)
  {
    if ok then forall k | i <= k < |env.hooks| :: SavedAt(r, k) else NoneDone(r.store)
  }

  /** What an execution from builder i on leaves. */
  ghost predicate AllOrNothing(env: Env, s: Chain, r: Chain, ok: bool, i: nat, m: nat)
    requires Fits(env, s) && Fits(env, r)
  {
    Moved(s, r, i, m) && Settled(env, r, i, ok) && Inserted(r.log) == Inserted(s.log) + if ok then 1 else 0
  }

  lemma SettledMarks(env: Env, a: Chain, b: Chain, i: nat, ok: bool)
    requires Fits(env, a) && Settled(env, a, i, ok) && b == a.(store := b.store) && SameMarks(a.store, b.store)
    ensures Fits(env, b) && Settled(env, b, i, ok)
  {
    forall k | i <= k < |env.hooks| && ok ensures SavedAt(b, k) {
      assert SavedAt(a, k);
    }
  }

  lemma {:induction false} FaithfulRun(env: Env, s: Chain, i: nat, j: nat, m: nat, h: Option<Hook>)
    requires Fits(env, s) && i < |env.hooks| && j <= |env.hooks[i]| && (h.Some? ==> j < |env.hooks[i]|) && m < |s.store|
    requires AllFaithful(env) && (h.Some? ==> Faithful(h.value)) && NoneDone(s.store) && Apart(s, i, m)
    ensures var r := Exec(env, s, i, j, m, h); AllOrNothing(env, s, r.0, r.1, i, m)
    decreases |env.hooks| - i, |env.hooks[i]| - j, Turn(h), Rest(h)
  {
    match h
    case None =>
      if j < |env.hooks[i]| {
        var s1 := Note(s, Enter(i, j));
        NoteInserted(s.log, Enter(i, j));
        FaithfulRun(env, s1, i, j, m, Some(env.hooks[i][j]));
        var r := Exec(env, s1, i, j, m, Some(env.hooks[i][j]));
        NoteInserted(r.0.log, Leave(i, j, r.1));
        assert Settled(env, Note(r.0, Leave(i, j, r.1)), i, r.1) by { SettledNote(env, r.0, Leave(i, j, r.1), i, r.1); }
      } else {
        FaithfulBase(env, s, i, m);
      }
    case Some(Return(_)) =>
    case Some(Edit(change, rest)) =>
      TameEdit(s.store, m, change);
      FaithfulRun(env, s.(store := s.store[m := change(s.store[m])]), i, j, m, Some(rest));
    case Some(Swap(build, rest)) =>
      TameEdit(s.store, m, build);
      FaithfulRun(env, s.(store := s.store + [build(s.store[m])]), i, j, |s.store|, Some(rest));
    case Some(Branch(test, yes, no)) => FaithfulRun(env, s, i, j, m, Some(if test(s.store[m]) then yes else no));
    case Some(Next(onOk, onErr)) =>
      FaithfulRun(env, s, i, j + 1, m, None);
      var r := Exec(env, s, i, j + 1, m, None);
      EndsKeeps(env, r.0, i, j, m, if r.1 then onOk else onErr, r.1);
      SettledMarks(env, r.0, Exec(env, r.0, i, j, m, Some(if r.1 then onOk else onErr)).0, i, r.1);
  }

  lemma SettledNote(env: Env, s: Chain, e: Event, i: nat, ok: bool)
    requires Fits(env, s) && Settled(env, s, i, ok)
    ensures Fits(env, Note(s, e)) && Settled(env, Note(s, e), i, ok)
  {
    forall k | i <= k < |env.hooks| && ok ensures SavedAt(Note(s, e), k) {
      assert SavedAt(s, k);
    }
  }

  lemma WrappedSettles(env: Env, s: Chain, p: (Chain, bool), r: (Chain, bool), i: nat, m: nat)
    requires Fits(env, s) && i < |env.hooks| && m < |s.store| && NoneDone(s.store) && Apart(s, i, m) && p == Plan(env, s, i, m)
    requires p.1 ==> Fits(env, r.0) && |p.0.store| <= |r.0.store| && SameUpTo(p.0, r.0, i) && Settled(env, r.0, i + 1, r.1)
    requires p.1 ==> forall k | i < k < |s.current| :: r.0.current[k] == p.0.current[k] || r.0.current[k] >= |p.0.store|
    requires p.1 ==> Inserted(r.0.log) == Inserted(p.0.log) + if r.1 then 1 else 0
    ensures var e := Wrapped(env, p, r, i, m); Fits(env, e.0) && AllOrNothing(env, s, e.0, e.1, i, m)
  {
    NoteInserted(s.log, if p.1 then Passed(i, SpecOf(s.store[m])) else Refused(i));
    if p.1 && r.1 {
      FinishSettles(env, p.0, r.0, i, m);
    }
  }

  lemma {:induction false} FaithfulBase(env: Env, s: Chain, i: nat, m: nat)
    requires Fits(env, s) && i < |env.hooks| && m < |s.store|
    requires AllFaithful(env) && NoneDone(s.store) && Apart(s, i, m)
    ensures var r := Exec(env, s, i, |env.hooks[i]|, m, None); AllOrNothing(env, s, r.0, r.1, i, m)
    decreases |env.hooks| - i, 0, 0
  {
    var p := Plan(env, s, i, m);
    BaseWraps(env, s, i, m);
    if p.1 {
      FaithfulInner(env, p.0, i);
      InnerFrame(env, p.0, i);
      WrappedSettles(env, s, p, Inner(env, p.0, i), i, m);
    } else {
      WrappedSettles(env, s, p, p, i, m);
    }
  }

  lemma {:induction false} FaithfulInner(env: Env, s: Chain, i: nat)
    requires Fits(env, s) && i < |env.hooks| && AllFaithful(env) && NoneDone(s.store)
    requires forall k, l | i < k < l < |s.current| :: s.current[k] != s.current[l]
    ensures var r := Inner(env, s, i);
      && (forall k | i < k < |s.current| :: r.0.current[k] == s.current[k] || r.0.current[k] >= |s.store|)
      && Settled(env, r.0, i + 1, r.1) && Inserted(r.0.log) == Inserted(s.log) + if r.1 then 1 else 0
    decreases |env.hooks| - i - 1, |if i + 1 < |env.hooks| then env.hooks[i + 1] else []|, 2
  {
    if i + 1 < |env.hooks| {
      FaithfulRun(env, s, i + 1, 0, s.current[i + 1], None);
    } else {
      NoteInserted(s.log, Batch(SpecsOf(s.specs), Insert(env, s).1));
    }
  }

  /** The rest of the chain leaves the entries of builder i and before alone, but for the ids in the specs. */
  ghost predicate SameUpTo(s: Chain, r: Chain, i: nat)
    requires i < |s.current| == |s.nodes| == |s.specs| && |r.current| == |s.current| && |r.nodes| == |s.nodes| && |r.specs| == |s.specs|
  {
    forall k | 0 <= k <= i :: r.current[k] == s.current[k] && r.nodes[k] == s.nodes[k] && (r.specs[k].Some? <==> s.specs[k].Some?)
  }

  lemma FinishSettles(env: Env, s: Chain, r: Chain, i: nat, m: nat)
    requires Fits(env, s) && Fits(env, r) && i < |env.hooks| && m < |s.store| <= |r.store|
    requires s.current[i] == m && s.nodes[i].Some? && s.specs[i].Some? && SameUpTo(s, r, i)
    requires forall k | i < k < |s.current| :: s.current[k] != m
    requires forall k | i < k < |s.current| :: r.current[k] == s.current[k] || r.current[k] >= |s.store|
    requires Settled(env, r, i + 1, true)
    ensures Settled(env, Finish(env, r, i, m), i, true)
  {
    var f := Finish(env, r, i, m);
    forall k | i <= k < |env.hooks| ensures SavedAt(f, k) {
      if k > i {
        assert SavedAt(r, k) && r.current[k] != m;
      }
    }
  }

  lemma {:induction false} InnerFrame(env: Env, s: Chain, i: nat)
    requires Fits(env, s) && i < |env.hooks|
    ensures SameUpTo(s, Inner(env, s, i).0, i)
    decreases |env.hooks| - i - 1, |if i + 1 < |env.hooks| then env.hooks[i + 1] else []|, 2
  {
    if i + 1 < |env.hooks| {
      ExecFrame(env, s, i + 1, 0, s.current[i + 1], None, i);
    }
  }

  lemma {:induction false} ExecFrame(env: Env, s: Chain, i: nat, j: nat, m: nat, h: Option<Hook>, a: nat)
    requires Fits(env, s) && i < |env.hooks| && j <= |env.hooks[i]| && (h.Some? ==> j < |env.hooks[i]|) && m < |s.store| && a < i
    ensures SameUpTo(s, Exec(env, s, i, j, m, h).0, a)
    decreases |env.hooks| - i, |env.hooks[i]| - j, Turn(h), Rest(h)
  {
    match h
    case None =>
      if j < |env.hooks[i]| {
        ExecFrame(env, Note(s, Enter(i, j)), i, j, m, Some(env.hooks[i][j]), a);
      } else {
        var p := Plan(env, s, i, m);
        if p.1 {
          InnerFrame(env, p.0, i);
        }
      }
    case Some(Return(_)) =>
    case Some(Edit(change, rest)) => ExecFrame(env, s.(store := s.store[m := change(s.store[m])]), i, j, m, Some(rest), a);
    case Some(Swap(build, rest)) => ExecFrame(env, s.(store := s.store + [build(s.store[m])]), i, j, |s.store|, Some(rest), a);
    case Some(Branch(test, yes, no)) => ExecFrame(env, s, i, j, m, Some(if test(s.store[m]) then yes else no), a);
    case Some(Next(onOk, onErr)) =>
      ExecFrame(env, s, i, j + 1, m, None, a);
      var r := Exec(env, s, i, j + 1, m, None);
      ExecFrame(env, r.0, i, j, m, Some(if r.1 then onOk else onErr), a);
  }

  lemma {:induction false} EndsNever(h: Hook, ok: bool)
    requires Ends(h, ok)
    ensures Never(h)
  {
    match h
    case Return(_) =>
    case Edit(_, rest) => EndsNever(rest, ok);
    case Swap(_, rest) => EndsNever(rest, ok);
    case Branch(_, yes, no) => EndsNever(yes, ok); EndsNever(no, ok);
    case Next(_, _) =>
  }

  lemma {:induction false} FaithfulOnce(h: Hook)
    requires Faithful(h)
    ensures AtMostOnce(h)
  {
    match h
    case Return(_) =>
    case Edit(_, rest) => FaithfulOnce(rest);
    case Swap(_, rest) => FaithfulOnce(rest);
    case Branch(_, yes, no) => FaithfulOnce(yes); FaithfulOnce(no);
    case Next(onOk, onErr) => EndsNever(onOk, true); EndsNever(onErr, false);
  }

  // --- Whose ids the nodes have ---

  /** The specs carry, place by place, what the b-th batch insert of just these specs answered. */
  ghost predicate Answered(env: Env, b: nat, r: Chain) {
    var answer := env.batch(b, SpecsOf(r.specs));
    answer.Some? && forall k | 0 <= k < |r.specs| && r.specs[k].Some? :: r.specs[k].value.id == answer.value(k)
  }

  lemma InsertAnswered(env: Env, s: Chain)
    requires Insert(env, s).1
    ensures Answered(env, Batches(s.log), Insert(env, s).0)
  {
    var r := Insert(env, s).0;
    assert SpecsOf(r.specs) == SpecsOf(s.specs);
  }

  lemma {:induction false} AnsweredRun(env: Env, s: Chain, i: nat, j: nat, m: nat, h: Option<Hook>)
    requires Fits(env, s) && i < |env.hooks| && j <= |env.hooks[i]| && (h.Some? ==> j < |env.hooks[i]|) && m < |s.store|
    requires AllFaithful(env) && (h.Some? ==> Faithful(h.value))
    ensures var r := Exec(env, s, i, j, m, h); r.1 ==> Answered(env, Batches(s.log), r.0)
    decreases |env.hooks| - i, |env.hooks[i]| - j, Turn(h), Rest(h)
  {
    match h
    case None =>
      if j < |env.hooks[i]| {
        NoteBatches(s.log, Enter(i, j));
        AnsweredRun(env, Note(s, Enter(i, j)), i, j, m, Some(env.hooks[i][j]));
      } else {
        var p := Plan(env, s, i, m);
        if p.1 {
          NoteBatches(s.log, Passed(i, SpecOf(s.store[m])));
          AnsweredInner(env, p.0, i);
        }
      }
    case Some(Return(_)) =>
    case Some(Edit(change, rest)) => AnsweredRun(env, s.(store := s.store[m := change(s.store[m])]), i, j, m, Some(rest));
    case Some(Swap(build, rest)) =>
      AnsweredRun(env, s.(store := s.store + [build(s.store[m])]), i, j, |s.store|, Some(rest));
    case Some(Branch(test, yes, no)) => AnsweredRun(env, s, i, j, m, Some(if test(s.store[m]) then yes else no));
    case Some(Next(onOk, onErr)) =>
      AnsweredRun(env, s, i, j + 1, m, None);
      var r := Exec(env, s, i, j + 1, m, None);
      EndsKeeps(env, r.0, i, j, m, if r.1 then onOk else onErr, r.1);
  }

  lemma {:induction false} AnsweredInner(env: Env, s: Chain, i: nat)
    requires Fits(env, s) && i < |env.hooks| && AllFaithful(env)
    ensures var r := Inner(env, s, i); r.1 ==> Answered(env, Batches(s.log), r.0)
    decreases |env.hooks| - i - 1, |if i + 1 < |env.hooks| then env.hooks[i + 1] else []|, 2
  {
    if i + 1 < |env.hooks| {
      AnsweredRun(env, s, i + 1, 0, s.current[i + 1], None);
    } else if Insert(env, s).1 {
      InsertAnswered(env, s);
    }
  }

  /** The contract "inserts everything and fills in the ids, or fails". */
  ghost predicate FillsIds(env: Env) {
    forall n, sent, k | env.batch(n, sent).Some? && 0 <= k < |sent| :: env.batch(n, sent).value(k).Some?
  }

  /** Node k and its mutation have the id that the database answered at place k, and the mutation is done. */
  ghost predicate HasRowId(env: Env, r: Chain, k: nat)
    requires k < |r.current| == |r.nodes| == |r.specs|
  {
    var answer := env.batch(0, SpecsOf(r.specs));
    && answer.Some? && answer.value(k).Some? && r.nodes[k].Some? && r.current[k] < |r.store|
    && Field(r.nodes[k].value, Id) == Some(IntValue(answer.value(k).value))
    && r.store[r.current[k]].id == answer.value(k) && r.store[r.current[k]].done
  }

  /** With hooks that call exactly once and pass the outcome through: the rows are inserted exactly once if `Save`
      succeeds, every spec then has the id answered at its place, every node has that id and every mutation is done;
      otherwise nothing is inserted or done. */
  lemma SaveAllOrNothing(env: Env, ms: seq<Mutation>)
    requires |ms| == |env.hooks| && AllFaithful(env) && NoneDone(ms)
    ensures var r := SaveAll(env, ms);
      && Batches(r.0.log) <= 1 && Inserted(r.0.log) == (if r.1 && ms != [] then 1 else 0) && (ms == [] ==> r.1)
      && (r.1 && ms != [] ==> Answered(env, 0, r.0))
      && (if r.1 then forall k | 0 <= k < |ms| :: SavedAt(r.0, k) else NoneDone(r.0.store))
      && (r.1 && FillsIds(env) ==> forall k | 0 <= k < |ms| :: HasRowId(env, r.0, k))
  {
    if ms == [] {
      return;
    }
    var s := Start(env.rt, ms);
    FaithfulRun(env, s, 0, 0, 0, None);
    AnsweredRun(env, s, 0, 0, 0, None);
    forall i, j | 0 <= i < |env.hooks| && 0 <= j < |env.hooks[i]| ensures AtMostOnce(env.hooks[i][j]) {
      FaithfulOnce(env.hooks[i][j]);
    }
    SaveInsertsAtMostOnce(env, ms);
    var r := SaveAll(env, ms);
    if r.1 && FillsIds(env) {
      forall k | 0 <= k < |ms| ensures HasRowId(env, r.0, k) {
        SavedHasRowId(env, r.0, k);
      }
    }
  }

  lemma SavedHasRowId(env: Env, r: Chain, k: nat)
    requires k < |r.current| == |r.nodes| == |r.specs| && SavedAt(r, k) && Answered(env, 0, r) && FillsIds(env)
    ensures HasRowId(env, r, k)
  {
    assert |SpecsOf(r.specs)| == |r.specs|;
  }

  // --- Without hooks ---

  /** The specs of these mutations, in order. */
  function AllSpecs(ms: seq<Mutation>): seq<Option<Spec>> {
    seq(|ms|, k requires 0 <= k < |ms| => Some(SpecOf(ms[k])))
  }

  /** Builders before i are planned: their own mutations made node and spec. */
  ghost predicate PlannedTo(s: Chain, ms: seq<Mutation>, i: nat)
    requires |s.current| == |s.nodes| == |s.specs| == |ms| && i <= |ms|
  {
    && s.store == ms && Untouched(s) && Batches(s.log) == 0
    && forall k | 0 <= k < i :: s.nodes[k] == Some(NodeOf(ms[k])) && s.specs[k] == Some(Planned(SpecOf(ms[k]), None))
  }

  function Identified(node: map<Column, Value>, id: Option<int>): map<Column, Value> {
    if id.Some? then node[Id := IntValue(id.value)] else node
  }

  /** The builders from i on are finished with these ids; those before only have the ids in their specs. */
  ghost predicate FinishedFrom(r: Chain, ms: seq<Mutation>, i: nat, ids: nat -> Option<int>)
    requires |r.current| == |r.nodes| == |r.specs| == |ms|
  {
    && Untouched(r) && |r.store| == |ms|
    && (forall k | 0 <= k < |ms| :: r.specs[k] == Some(Planned(SpecOf(ms[k]), ids(k))))
    && (forall k | 0 <= k < |ms| :: r.nodes[k] == Some(if k < i then NodeOf(ms[k]) else Identified(NodeOf(ms[k]), ids(k))))
    && (forall k | 0 <= k < |ms| ::
          r.store[k] == if k < i then ms[k] else ms[k].(id := Some(IdOr0(ids(k))), done := true))
  }

  ghost predicate NoHooks(env: Env) {
    forall i | 0 <= i < |env.hooks| :: env.hooks[i] == []
  }

  predicate AcceptedFrom(rt: Runtime, ms: seq<Mutation>, i: nat) {
    forall k | i <= k < |ms| :: CheckOf(rt, ms[k].values) == None
  }

  /** The outcome of the chain from builder i on. */
  ghost predicate PlainOutcome(env: Env, ms: seq<Mutation>, i: nat, r: (Chain, bool))
    requires |r.0.current| == |r.0.nodes| == |r.0.specs| == |ms|
  {
    var answer := env.batch(0, AllSpecs(ms));
    && (r.1 <==> AcceptedFrom(env.rt, ms, i) && answer.Some?)
    && (r.1 ==> FinishedFrom(r.0, ms, i, answer.value))
    && (!r.1 ==> r.0.store == ms)
  }

  lemma PlainPlan(env: Env, s: Chain, ms: seq<Mutation>, i: nat)
    requires Fits(env, s) && |env.hooks| == |ms| && i < |ms| && PlannedTo(s, ms, i)
    ensures var p := Plan(env, s, i, i);
      && (p.1 <==> CheckOf(env.rt, ms[i].values) == None)
      && (p.1 ==> PlannedTo(p.0, ms, i + 1)) && (!p.1 ==> p.0.store == ms)
  {
    NoteBatches(s.log, Passed(i, SpecOf(s.store[i])));
  }

  lemma PlainInsert(env: Env, s: Chain, ms: seq<Mutation>)
    requires Fits(env, s) && |env.hooks| == |ms| && PlannedTo(s, ms, |ms|)
    ensures PlainOutcome(env, ms, |ms|, Insert(env, s))
  {
    assert SpecsOf(s.specs) == AllSpecs(ms);
  }

  lemma PlainFinish(env: Env, r: Chain, ms: seq<Mutation>, i: nat, ids: nat -> Option<int>)
    requires Fits(env, r) && |env.hooks| == |ms| && i < |ms| && FinishedFrom(r, ms, i + 1, ids)
    ensures FinishedFrom(Finish(env, r, i, i), ms, i, ids)
  {
  }

  lemma {:induction false} PlainRun(env: Env, s: Chain, ms: seq<Mutation>, i: nat)
    requires Fits(env, s) && |env.hooks| == |ms| && i < |ms| && NoHooks(env) && PlannedTo(s, ms, i)
    ensures PlainOutcome(env, ms, i, Exec(env, s, i, 0, i, None))
    decreases |ms| - i
  {
    PlainPlan(env, s, ms, i);
    var p := Plan(env, s, i, i);
    if p.1 {
      if i + 1 < |ms| {
        assert p.0.current[i + 1] == i + 1;
        PlainRun(env, p.0, ms, i + 1);
      } else {
        PlainInsert(env, p.0, ms);
      }
      var r := Inner(env, p.0, i);
      assert PlainOutcome(env, ms, i + 1, r);
      if r.1 {
        PlainFinish(env, r.0, ms, i, env.batch(0, AllSpecs(ms)).value);
      }
    }
  }

  /** Without hooks: success exactly if every check passes and the batch of all specs, in builder order, is accepted, which
      a bulk without builders does not even send; then node k is that of mutation k with the id answered at place k, and
      that mutation is done; otherwise all mutations are as `defaults` left them. */
  lemma SaveWithoutHooks(env: Env, ms: seq<Mutation>)
    requires |ms| == |env.hooks| && NoHooks(env)
    ensures var r, full := SaveAll(env, ms), WithDefaults(env.rt, ms); var answer := env.batch(0, AllSpecs(full));
      && (r.1 <==> AcceptedFrom(env.rt, full, 0) && (ms == [] || answer.Some?))
      && (r.1 ==> forall k | 0 <= k < |ms| ::
            && r.0.nodes[k] == Some(Identified(NodeOf(full[k]), answer.value(k)))
            && r.0.store[k] == full[k].(id := Some(match answer.value(k) case Some(n) => n case None => 0), done := true))
      && (!r.1 ==> r.0.store == full)
  {
    if ms != [] {
      PlainRun(env, Start(env.rt, ms), WithDefaults(env.rt, ms), 0);
    }
  }

  /** The first hook of the first builder is the outermost: when it returns at once, nothing else happens. */
  lemma OutermostHook(env: Env, ms: seq<Mutation>, ok: bool)
    requires |ms| == |env.hooks| > 0 && env.hooks[0] != [] && env.hooks[0][0] == Return(ok)
    ensures SaveAll(env, ms) == (Start(env.rt, ms).(log := [Enter(0, 0), Leave(0, 0, ok)]), ok)
  {
    var s := Note(Start(env.rt, ms), Enter(0, 0));
    assert Exec(env, s, 0, 0, 0, Some(Return(ok))) == (s, ok);
    assert s.log + [Leave(0, 0, ok)] == [Enter(0, 0), Leave(0, 0, ok)];
  }

  // --- What is inserted was checked ---

  /** The hook passes on the mutation that it was given. */
  predicate NoSwap(h: Hook) {
    match h
    case Return(_) => true
    case Edit(_, rest) => NoSwap(rest)
    case Swap(_, _) => false
    case Branch(_, yes, no) => NoSwap(yes) && NoSwap(no)
    case Next(onOk, onErr) => NoSwap(onOk) && NoSwap(onErr)
  }

  ghost predicate AllNoSwap(env: Env) {
    forall i, j | 0 <= i < |env.hooks| && 0 <= j < |env.hooks[i]| :: NoSwap(env.hooks[i][j])
  }

  /** The spec of a mutation that `check` accepts. */
  ghost predicate Accepted(rt: Runtime, spec: Spec) {
    exists m: Mutation :: CheckOf(rt, m.values) == None && SpecOf(m) == spec
  }

  ghost predicate AllAccepted(rt: Runtime, log: seq<Event>) {
    forall k | 0 <= k < |log| && log[k].Passed? :: Accepted(rt, log[k].spec)
  }

  /** Every builder still has the mutation it started with. */
  ghost predicate Untouched(s: Chain) {
    forall k | 0 <= k < |s.current| :: s.current[k] == k
  }

  lemma PlanAccepts(env: Env, s: Chain, i: nat)
    requires Fits(env, s) && i < |env.hooks| && i < |s.store| && Untouched(s) && AllAccepted(env.rt, s.log)
    ensures Untouched(Plan(env, s, i, i).0) && AllAccepted(env.rt, Plan(env, s, i, i).0.log)
  {
    var p := Plan(env, s, i, i);
    if p.1 {
      var m := s.store[i];
      assert CheckOf(env.rt, m.values) == None && SpecOf(m) == SpecOf(s.store[i]);
      assert Accepted(env.rt, SpecOf(m));
    }
  }

  lemma {:induction false} RunAccepts(env: Env, s: Chain, i: nat, j: nat, h: Option<Hook>)
    requires Fits(env, s) && i < |env.hooks| && j <= |env.hooks[i]| && (h.Some? ==> j < |env.hooks[i]| && NoSwap(h.value))
    requires i < |s.store| && AllNoSwap(env) && Untouched(s) && AllAccepted(env.rt, s.log)
    ensures var r := Exec(env, s, i, j, i, h); Untouched(r.0) && AllAccepted(env.rt, r.0.log)
    decreases |env.hooks| - i, |env.hooks[i]| - j, Turn(h), Rest(h)
  {
    match h
    case None =>
      if j < |env.hooks[i]| {
        RunAccepts(env, Note(s, Enter(i, j)), i, j, Some(env.hooks[i][j]));
      } else {
        PlanAccepts(env, s, i);
        var p := Plan(env, s, i, i);
        if p.1 {
          InnerAccepts(env, p.0, i);
        }
      }
    case Some(Return(_)) =>
    case Some(Edit(change, rest)) => RunAccepts(env, s.(store := s.store[i := change(s.store[i])]), i, j, Some(rest));
    case Some(Branch(test, yes, no)) => RunAccepts(env, s, i, j, Some(if test(s.store[i]) then yes else no));
    case Some(Next(onOk, onErr)) =>
      RunAccepts(env, s, i, j + 1, None);
      var r := Exec(env, s, i, j + 1, i, None);
      RunAccepts(env, r.0, i, j, Some(if r.1 then onOk else onErr));
  }

  lemma {:induction false} InnerAccepts(env: Env, s: Chain, i: nat)
    requires Fits(env, s) && i < |env.hooks| && AllNoSwap(env) && Untouched(s) && AllAccepted(env.rt, s.log)
    ensures var r := Inner(env, s, i); Untouched(r.0) && AllAccepted(env.rt, r.0.log)
    decreases |env.hooks| - i - 1, |if i + 1 < |env.hooks| then env.hooks[i + 1] else []|, 2
  {
    if i + 1 < |env.hooks| {
      assert s.current[i + 1] == i + 1;
      RunAccepts(env, s, i + 1, 0, None);
    }
  }

  lemma {:induction false} LastCheckLogged(log: seq<Event>, k: nat)
    requires LastCheck(log, k).Some?
    ensures exists p :: 0 <= p < |log| && log[p].Passed? && log[p].spec == LastCheck(log, k).value
  {
    var n := |log| - 1;
    if !(log[n].Passed? && log[n].i == k) {
      LastCheckLogged(log[..n], k);
      var p :| 0 <= p < n && log[..n][p].Passed? && log[..n][p].spec == LastCheck(log, k).value;
      assert log[p].Passed?;
    }
  }

  lemma {:induction false} SentAccepted(rt: Runtime, n: nat, log: seq<Event>)
    requires Safe(n, log) && AllAccepted(rt, log)
    ensures forall p, k | 0 <= p < |log| && log[p].Batch? && 0 <= k < |log[p].sent| ::
      log[p].sent[k].Some? && Accepted(rt, log[p].sent[k].value)
  {
    if log != [] {
      var before, e := log[..|log| - 1], log[|log| - 1];
      assert forall p | 0 <= p < |before| :: before[p] == log[p];
      SentAccepted(rt, n, before);
      forall k | e.Batch? && 0 <= k < |e.sent| ensures e.sent[k].Some? && Accepted(rt, e.sent[k].value) {
        LastCheckLogged(before, k);
        var p :| 0 <= p < |before| && before[p].Passed? && before[p].spec == LastCheck(before, k).value;
        assert log[p] == before[p];
      }
    }
  }

  /** When no hook goes on with another mutation, every inserted spec is that of a mutation which `check` accepts. */
  lemma SaveInsertsChecked(env: Env, ms: seq<Mutation>)
    requires |ms| == |env.hooks| && AllNoSwap(env)
    ensures var log := SaveAll(env, ms).0.log;
      forall p, k | 0 <= p < |log| && log[p].Batch? && 0 <= k < |log[p].sent| ::
        log[p].sent[k].Some? && Accepted(env.rt, log[p].sent[k].value)
  {
    SaveIsSafe(env, ms);
    if ms != [] {
      var s := Start(env.rt, ms);
      assert Fits(env, s) && Untouched(s) && s.log == [];
      RunAccepts(env, s, 0, 0, None);
    }
    SentAccepted(env.rt, |env.hooks|, SaveAll(env, ms).0.log);
  }
}
