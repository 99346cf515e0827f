/** Plain fields of an account update: what the builder's calls record, and the lists of the update they end up in. */
module FieldDeltas {
  import opened Collections
  import opened Schema
  import opened RowCodec

  /** What a mutation records for one field. */
  datatype FieldDelta = FieldDelta(value: Option<Value>, added: Option<Value>, cleared: bool)

  type FieldDeltas = map<Column, FieldDelta>

  const Untouched := FieldDelta(None, None, false)

  /** In the order of `sqlSave`. */
  const UPDATED_FIELDS: seq<Column> :=
    [UpdatedAt, DeletedAt, Name, Notes, Platform, Type, Credentials, Extra, ProxyFallbackOriginId, Concurrency, LoadFactor,
     Priority, RateMultiplier, Status, ErrorMessage, LastUsedAt, ExpiresAt, AutoPauseOnExpired, Schedulable, RateLimitedAt,
     RateLimitResetAt, OverloadUntil, TempUnschedulableUntil, TempUnschedulableReason, SessionWindowStart, SessionWindowEnd,
     SessionWindowStatus, QuotaDimension]

  /** Fields with an `Add` call. */
  predicate Numeric(c: Column) {
    c in {ProxyFallbackOriginId, Concurrency, LoadFactor, Priority, RateMultiplier}
  }

  /** Fields with a `Clear` call. */
  predicate Clearable(c: Column) {
    c in {DeletedAt, Notes, ProxyFallbackOriginId, LoadFactor, ErrorMessage, LastUsedAt, ExpiresAt, RateLimitedAt,
          RateLimitResetAt, OverloadUntil, TempUnschedulableUntil, TempUnschedulableReason, SessionWindowStart,
          SessionWindowEnd, SessionWindowStatus}
  }

  // --- What one call records ---

  datatype FieldCall = SetTo(v: Value) | Increase(amount: Value) | SetNull

  predicate Offered(c: Column, call: FieldCall) {
    match call
    case SetTo(_) => c in UPDATED_FIELDS
    case Increase(_) => Numeric(c)
    case SetNull => Clearable(c)
  }

  /** The sum of two 64-bit integers, as one. */
  function Sum64(a: int, b: int): int {
    var n := a + b;
    if n >= 0x8000_0000_0000_0000 then n - 0x1_0000_0000_0000_0000
    else if n < -0x8000_0000_0000_0000 then n + 0x1_0000_0000_0000_0000
    else n
  }

  function Plus(a: Value, b: Value): Value {
    if a.IntValue? && b.IntValue? then IntValue(Sum64(a.n, b.n))
    else if a.FloatValue? && b.FloatValue? then FloatValue(a.x + b.x)
    else b
  }

  /** Setting a numeric field first resets all that was recorded for it; setting another field does not. */
  function RecordField(c: Column, d: FieldDelta, call: FieldCall): FieldDelta {
    match call
    case SetTo(v) => if Numeric(c) then FieldDelta(Some(v), None, false) else d.(value := Some(v))
    case Increase(n) => d.(added := Some(if d.added.Some? then Plus(d.added.value, n) else n))
    case SetNull => FieldDelta(None, None, true)
  }

  function RecordedField(c: Column, calls: seq<FieldCall>): FieldDelta {
    if calls == [] then Untouched else RecordField(c, RecordedField(c, calls[..|calls| - 1]), calls[|calls| - 1])
  }

  // --- The lists of the update ---

  function SetOf(c: Column, d: FieldDelta): seq<(Column, Value)> {
    if d.value.Some? then [(c, d.value.value)] else []
  }

  function AddOf(c: Column, d: FieldDelta): seq<(Column, Value)> {
    if d.added.Some? then [(c, d.added.value)] else []
  }

  function NullOf(c: Column, d: FieldDelta): seq<Column> {
    if d.cleared then [c] else []
  }

  /** What a part of the update lists, key by key. */
  function Compiled<K, D, T>(ds: map<K, D>, keys: seq<K>, part: (K, D) -> seq<T>): seq<T>
    requires forall k | k in keys :: k in ds
  {
    if keys == [] then [] else
    var k := keys[|keys| - 1];
    Compiled(ds, keys[..|keys| - 1], part) + part(k, ds[k])
  }

  lemma CompiledStep<K, D, T>(ds: map<K, D>, keys: seq<K>, i: nat, part: (K, D) -> seq<T>)
    requires i < |keys| && forall k | k in keys :: k in ds
    ensures keys[i] in ds && forall k | k in keys[..i + 1] :: k in ds
    ensures Compiled(ds, keys[..i + 1], part) == Compiled(ds, keys[..i], part) + part(keys[i], ds[keys[i]])
  {
    assert keys[..i + 1][..i] == keys[..i] && keys[i] in keys;
  }

  lemma {:induction false} CompiledMember<K, D, T>(ds: map<K, D>, keys: seq<K>, part: (K, D) -> seq<T>, x: T)
    requires forall k | k in keys :: k in ds
    ensures x in Compiled(ds, keys, part) <==> exists k | k in keys :: x in part(k, ds[k])
  {
    if keys != [] {
      var n := |keys| - 1;
      assert keys == keys[..n] + [keys[n]];
      CompiledMember(ds, keys[..n], part, x);
    }
  }

  // --- What a sequence of calls leaves in the lists ---

  /** A Set that is followed by Adds only, at least one. */
  predicate SetThenIncreased(calls: seq<FieldCall>) {
    |calls| > 1 && calls[|calls| - 1].Increase?
    && (calls[|calls| - 2].SetTo? || SetThenIncreased(calls[..|calls| - 1]))
  }

  /** A Clear that is followed by Adds only, at least one. */
  predicate ClearedThenIncreased(calls: seq<FieldCall>) {
    |calls| > 1 && calls[|calls| - 1].Increase?
    && (calls[|calls| - 2].SetNull? || ClearedThenIncreased(calls[..|calls| - 1]))
  }

  lemma PlainStep(c: Column, d: FieldDelta, call: FieldCall)
    requires !Numeric(c) && !call.Increase? && d.added == None
    ensures var d' := RecordField(c, d, call);
      d'.added == None && (d'.value.Some? <==> call.SetTo?) && (d'.cleared <==> d.cleared || call == SetNull)
  {
  }

  /** What a field that is not numeric has recorded after these calls. */
  ghost predicate PlainlyRecorded(d: FieldDelta, calls: seq<FieldCall>) {
    && d.added == None
    && (d.value.Some? <==> calls != [] && calls[|calls| - 1].SetTo?)
    && (d.cleared <==> SetNull in calls)
  }

  lemma PlainSnoc(c: Column, d: FieldDelta, before: seq<FieldCall>, last: FieldCall)
    requires !Numeric(c) && !last.Increase? && PlainlyRecorded(d, before)
    ensures PlainlyRecorded(RecordField(c, d, last), before + [last])
  {
    PlainStep(c, d, last);
  }

  lemma {:induction false} PlainRecorded(c: Column, calls: seq<FieldCall>)
    requires !Numeric(c) && forall call | call in calls :: !call.Increase?
    ensures PlainlyRecorded(RecordedField(c, calls), calls)
  {
    if calls != [] {
      var before, last := calls[..|calls| - 1], calls[|calls| - 1];
      assert calls == before + [last] && last in calls;
      PlainRecorded(c, before);
      PlainSnoc(c, RecordedField(c, before), before, last);
    }
  }

  lemma {:induction false} NumericRecorded(c: Column, calls: seq<FieldCall>)
    requires Numeric(c)
    ensures var d := RecordedField(c, calls);
      && !(d.value.Some? && d.cleared)
      && (d.added.Some? <==> calls != [] && calls[|calls| - 1].Increase?)
      && (d.value.Some? <==> calls != [] && (calls[|calls| - 1].SetTo? || SetThenIncreased(calls)))
      && (d.cleared <==> calls != [] && (calls[|calls| - 1].SetNull? || ClearedThenIncreased(calls)))
  {
    if calls != [] {
      NumericRecorded(c, calls[..|calls| - 1]);
    }
  }

  /** When one field is in two lists of the update: set and cleared, exactly when a field that is not numeric was cleared
      at some time and set last; increased besides, exactly when the last calls are Adds after a Set or after a Clear. */
  lemma FieldInTwoLists(c: Column, calls: seq<FieldCall>)
    requires forall call | call in calls :: Offered(c, call)
    ensures var d := RecordedField(c, calls);
      && (d.value.Some? && d.cleared <==> !Numeric(c) && calls != [] && calls[|calls| - 1].SetTo? && SetNull in calls)
      && (d.value.Some? && d.added.Some? <==> SetThenIncreased(calls))
      && (d.cleared && d.added.Some? <==> ClearedThenIncreased(calls))
  {
    if Numeric(c) {
      NumericRecorded(c, calls);
    } else {
      forall call | call in calls ensures !call.Increase? {
        assert Offered(c, call);
      }
      PlainRecorded(c, calls);
      assert calls != [] ==> calls[|calls| - 1] in calls;
    }
  }

  // --- The values in the lists ---

  /** The last Set that no Clear follows gives the value. */
  lemma {:induction false} LastSetCounts(c: Column, calls: seq<FieldCall>, k: nat)
    requires k < |calls| && calls[k].SetTo? && forall j | k < j < |calls| :: calls[j].Increase?
    ensures RecordedField(c, calls).value == Some(calls[k].v)
    decreases |calls|
  {
    if k < |calls| - 1 {
      LastSetCounts(c, calls[..|calls| - 1], k);
    }
  }

  /** The 64-bit integer that an integer wraps around to. */
  function Wrapped(n: int): int {
    (n + 0x8000_0000_0000_0000) % 0x1_0000_0000_0000_0000 - 0x8000_0000_0000_0000
  }

  lemma WrappedMeans(n: int)
    ensures -0x8000_0000_0000_0000 <= Wrapped(n) < 0x8000_0000_0000_0000
    ensures (n - Wrapped(n)) % 0x1_0000_0000_0000_0000 == 0
    ensures -0x8000_0000_0000_0000 <= n < 0x8000_0000_0000_0000 ==> Wrapped(n) == n
  {
    var m := n + 0x8000_0000_0000_0000;
    assert m == (m / 0x1_0000_0000_0000_0000) * 0x1_0000_0000_0000_0000 + m % 0x1_0000_0000_0000_0000;
    assert n - Wrapped(n) == (m / 0x1_0000_0000_0000_0000) * 0x1_0000_0000_0000_0000;
  }

  /** Adding step by step wraps around to what adding everything does. */
  lemma SumWraps(total: int, n: int)
    requires -0x8000_0000_0000_0000 <= n < 0x8000_0000_0000_0000
    ensures Sum64(Wrapped(total), n) == Wrapped(total + n)
  {
    var w := 0x1_0000_0000_0000_0000;
    var a := Wrapped(total);
    var k := (total + 0x8000_0000_0000_0000) / w;
    assert total == a + k * w && -0x8000_0000_0000_0000 <= a < 0x8000_0000_0000_0000;
    Shifted(a + n, k);
    WrappedMeans(a + n);
    WrappedMeans(Sum64(a, n));
    Shifted(Sum64(a, n), if a + n >= 0x8000_0000_0000_0000 then 1 else if a + n < -0x8000_0000_0000_0000 then -1 else 0);
  }

  lemma Shifted(n: int, k: int)
    ensures Wrapped(n + k * 0x1_0000_0000_0000_0000) == Wrapped(n)
  {
    ModShift(n + 0x8000_0000_0000_0000, k);
  }

  lemma ModShift(x: int, k: int)
    ensures (x + k * 0x1_0000_0000_0000_0000) % 0x1_0000_0000_0000_0000 == x % 0x1_0000_0000_0000_0000
  {
  }

  ghost predicate IntAmounts(calls: seq<FieldCall>) {
    forall call | call in calls && call.Increase? ::
      call.amount.IntValue? && -0x8000_0000_0000_0000 <= call.amount.n < 0x8000_0000_0000_0000
  }

  /** The amounts since the last Set or Clear, added up. */
  function Total(calls: seq<FieldCall>): int {
    if calls == [] || !calls[|calls| - 1].Increase? || !calls[|calls| - 1].amount.IntValue? then 0
    else Total(calls[..|calls| - 1]) + calls[|calls| - 1].amount.n
  }

  lemma TotalSnoc(before: seq<FieldCall>, n: int)
    ensures Total(before + [Increase(IntValue(n))]) == Total(before) + n
  {
    assert (before + [Increase(IntValue(n))])[..|before|] == before;
  }

  /** What is sent as an increase is the sum of the amounts since the last Set or Clear, as a 64-bit number. */
  lemma {:induction false} IncreasesAddUp(c: Column, calls: seq<FieldCall>)
    requires Numeric(c) && IntAmounts(calls) && calls != [] && calls[|calls| - 1].Increase?
    ensures RecordedField(c, calls).added == Some(IntValue(Wrapped(Total(calls))))
  {
    var before, last := calls[..|calls| - 1], calls[|calls| - 1];
    assert last in calls;
    var n := last.amount.n;
    assert calls == before + [Increase(IntValue(n))];
    TotalSnoc(before, n);
    if before != [] && before[|before| - 1].Increase? {
      IncreasesAddUp(c, before);
      SumWraps(Total(before), n);
    } else {
      NumericRecorded(c, before);
      WrappedMeans(n);
    }
  }

  ghost predicate RealAmounts(calls: seq<FieldCall>) {
    forall call | call in calls && call.Increase? :: call.amount.FloatValue?
  }

  function RealTotal(calls: seq<FieldCall>): real {
    if calls == [] || !calls[|calls| - 1].Increase? || !calls[|calls| - 1].amount.FloatValue? then 0.0
    else RealTotal(calls[..|calls| - 1]) + calls[|calls| - 1].amount.x
  }

  lemma RealTotalSnoc(before: seq<FieldCall>, x: real)
    ensures RealTotal(before + [Increase(FloatValue(x))]) == RealTotal(before) + x
  {
    assert (before + [Increase(FloatValue(x))])[..|before|] == before;
  }

  /** The same of real amounts, those of the rate multiplier, rounding apart. */
  lemma {:induction false} RealIncreasesAddUp(c: Column, calls: seq<FieldCall>)
    requires Numeric(c) && RealAmounts(calls) && calls != [] && calls[|calls| - 1].Increase?
    ensures RecordedField(c, calls).added == Some(FloatValue(RealTotal(calls)))
  {
    var before, last := calls[..|calls| - 1], calls[|calls| - 1];
    assert last in calls;
    var x := last.amount.x;
    assert calls == before + [Increase(FloatValue(x))];
    RealTotalSnoc(before, x);
    if before != [] && before[|before| - 1].Increase? {
      RealIncreasesAddUp(c, before);
    } else {
      NumericRecorded(c, before);
    }
  }
}
