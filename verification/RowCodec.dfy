/** Decoding of account rows: `scanValues` makes one cell per column, `assignValues` reads the cells back. */
module RowCodec {
  import opened Collections
  import opened Schema

  /** A field of an account. JSON documents, floats and times are opaque values. */
  datatype Value =
    | DocValue(doc: nat) | BoolValue(b: bool) | FloatValue(x: real) | IntValue(n: int) | TextValue(s: string) | TimeValue(t: int)

  /** A cell to scan into; NULL leaves it without a value, or without bytes. */
  datatype Scanned =
    | Bytes(raw: seq<bv8>)
    | NullBool(flag: Option<bool>)
    | NullFloat64(float: Option<real>)
    | NullInt64(number: Option<int>)
    | NullString(text: Option<string>)
    | NullTime(time: Option<int>)
    | UnknownType(any: nat)

  datatype Kind = DocKind | BoolKind | FloatKind | IntKind | TextKind | TimeKind | UnknownKind

  function KindOf(cell: Scanned): Kind {
    match cell
    case Bytes(_) => DocKind
    case NullBool(_) => BoolKind
    case NullFloat64(_) => FloatKind
    case NullInt64(_) => IntKind
    case NullString(_) => TextKind
    case NullTime(_) => TimeKind
    case UnknownType(_) => UnknownKind
  }

  // --- scanValues ---

  function NewCell(c: Column): Scanned {
    match c
    case Credentials | Extra => Bytes([])
    case AutoPauseOnExpired | Schedulable => NullBool(None)
    case RateMultiplier => NullFloat64(None)
    case Id | ProxyId | ProxyFallbackOriginId | Concurrency | LoadFactor | Priority | ParentAccountId => NullInt64(None)
    case Name | Notes | Platform | Type | Status | ErrorMessage | TempUnschedulableReason | SessionWindowStatus
       | QuotaDimension => NullString(None)
    case CreatedAt | UpdatedAt | DeletedAt | LastUsedAt | ExpiresAt | RateLimitedAt | RateLimitResetAt | OverloadUntil
       | TempUnschedulableUntil | SessionWindowStart | SessionWindowEnd => NullTime(None)
    case _ => UnknownType(0)
  }

  method ScanValues(columns: seq<Column>) returns (values: array<Scanned>)
    ensures fresh(values) && values.Length == |columns|
    ensures forall i | 0 <= i < |columns| :: values[i] == NewCell(columns[i])
  {
    values := new Scanned[|columns|](i => UnknownType(0));
    for i := 0 to |columns|
      invariant forall j | 0 <= j < i :: values[j] == NewCell(columns[j])
    {
      values[i] := NewCell(columns[i]);
    }
  }

  // --- assignValues ---

  /** `json.Unmarshal` into a field that may already hold a document; fails on malformed bytes. */
  type Unmarshal = (Option<Value>, seq<bv8>) -> Option<Value>

  datatype ScanError = Mismatch | WrongType(c: Column) | BadJson(c: Column)

  datatype Decoded = Decoded(fields: map<Column, Value>, selected: map<Column, Scanned>)
  datatype Outcome = Outcome(state: Decoded, err: Option<ScanError>)

  /** The type that each case asserts; none for the default case. */
  function Wanted(c: Column): Kind {
    match c
    case Id => IntKind
    case CreatedAt => TimeKind
    case UpdatedAt => TimeKind
    case DeletedAt => TimeKind
    case Name => TextKind
    case Notes => TextKind
    case Platform => TextKind
    case Type => TextKind
    case Credentials => DocKind
    case Extra => DocKind
    case ProxyId => IntKind
    case ProxyFallbackOriginId => IntKind
    case Concurrency => IntKind
    case LoadFactor => IntKind
    case Priority => IntKind
    case RateMultiplier => FloatKind
    case Status => TextKind
    case ErrorMessage => TextKind
    case LastUsedAt => TimeKind
    case ExpiresAt => TimeKind
    case AutoPauseOnExpired => BoolKind
    case Schedulable => BoolKind
    case RateLimitedAt => TimeKind
    case RateLimitResetAt => TimeKind
    case OverloadUntil => TimeKind
    case TempUnschedulableUntil => TimeKind
    case TempUnschedulableReason => TextKind
    case SessionWindowStart => TimeKind
    case SessionWindowEnd => TimeKind
    case SessionWindowStatus => TextKind
    case ParentAccountId => IntKind
    case QuotaDimension => TextKind
    case _ => UnknownKind
  }

  predicate Known(c: Column) {
    Wanted(c) != UnknownKind
  }

  /** The columns of accounts are those with a name of their own, but for the two that only other tables have. */
  lemma KnownColumns(c: Column)
    ensures Known(c) <==> !c.Other? && c != AccountId && c != GroupId
  {
  }

  /** The Go types of the entity's fields. */
  lemma ColumnKinds(c: Column)
    requires Known(c)
    ensures Wanted(c) == DocKind <==> c in {Credentials, Extra}
    ensures Wanted(c) == BoolKind <==> c in {AutoPauseOnExpired, Schedulable}
    ensures Wanted(c) == FloatKind <==> c == RateMultiplier
    ensures Wanted(c) == IntKind <==> c in {Id, ProxyId, ProxyFallbackOriginId, Concurrency, LoadFactor, Priority, ParentAccountId}
    ensures Wanted(c) == TextKind <==>
      c in {Name, Notes, Platform, Type, Status, ErrorMessage, TempUnschedulableReason, SessionWindowStatus, QuotaDimension}
    ensures KindOf(NewCell(c)) == Wanted(c)
  {
  }

  predicate Scalar(c: Column) {
    Known(c) && c != Id && Wanted(c) != DocKind
  }

  /** The value in a cell other than a document, unless it is NULL. */
  function ValueOf(cell: Scanned): Option<Value> {
    match cell
    case NullBool(Some(b)) => Some(BoolValue(b))
    case NullFloat64(Some(x)) => Some(FloatValue(x))
    case NullInt64(Some(n)) => Some(IntValue(n))
    case NullString(Some(s)) => Some(TextValue(s))
    case NullTime(Some(t)) => Some(TimeValue(t))
    case _ => None
  }

  /** An id that is NULL is assigned as zero. */
  function IdCell(cell: Scanned): int {
    if cell.NullInt64? && cell.number.Some? then cell.number.value else 0
  }

  function Lookup(d: Decoded, c: Column): Option<Value> {
    if c in d.fields then Some(d.fields[c]) else None
  }

  function Assigned(json: Unmarshal, d: Decoded, c: Column, cell: Scanned): Outcome {
    if !Known(c) then Outcome(d.(selected := d.selected[c := cell]), None)
    else if KindOf(cell) != Wanted(c) then Outcome(d, Some(WrongType(c)))
    else if c == Id then Outcome(d.(fields := d.fields[Id := IntValue(IdCell(cell))]), None)
    else if cell.Bytes? then
      if cell.raw == [] then Outcome(d, None)
      else
        match json(Lookup(d, c), cell.raw)
        case Some(v) => Outcome(d.(fields := d.fields[c := v]), None)
        case None => Outcome(d, Some(BadJson(c)))
    else
      match ValueOf(cell)
      case Some(v) => Outcome(d.(fields := d.fields[c := v]), None)
      case None => Outcome(d, None)
  }

  /** The state and the error, if any, after the first n columns. */
  function AssignAll(json: Unmarshal, d: Decoded, columns: seq<Column>, values: seq<Scanned>, n: nat): Outcome
    requires n <= |columns| && n <= |values|
  {
    if n == 0 then Outcome(d, None) else
    var before := AssignAll(json, d, columns, values, n - 1);
    if before.err.Some? then before else Assigned(json, before.state, columns[n - 1], values[n - 1])
  }

  function AssignValues(json: Unmarshal, d: Decoded, columns: seq<Column>, values: seq<Scanned>): Outcome {
    if |values| < |columns| then Outcome(d, Some(Mismatch)) else AssignAll(json, d, columns, values, |columns|)
  }

  class AccountNode {
    var fields: map<Column, Value>
    var selectValues: map<Column, Scanned>

    constructor ()
      ensures State() == Decoded(map[], map[])
    {
      fields, selectValues := map[], map[];
    }

    function State(): Decoded
      reads this
    {
      Decoded(fields, selectValues)
    }

    /** The cases for scalar columns all look like this one. */
    method AssignScalar(ghost json: Unmarshal, c: Column, cell: Scanned, want: Kind) returns (err: Option<ScanError>)
      requires want == Wanted(c) && Scalar(c)
      modifies this
      ensures Outcome(State(), err) == Assigned(json, old(State()), c, cell)
    {
      if KindOf(cell) != want {
        return Some(WrongType(c));
      }
      var value := ValueOf(cell);
      if value.Some? {
        fields := fields[c := value.value];
      }
      err := None;
    }

    method AssignDocument(json: Unmarshal, c: Column, cell: Scanned) returns (err: Option<ScanError>)
      requires Wanted(c) == DocKind
      modifies this
      ensures Outcome(State(), err) == Assigned(json, old(State()), c, cell)
    {
      if !cell.Bytes? {
        return Some(WrongType(c));
      }
      if cell.raw != [] {
        var value := json(if c in fields then Some(fields[c]) else None, cell.raw);
        if value == None {
          return Some(BadJson(c));
        }
        fields := fields[c := value.value];
      }
      err := None;
    }

    method AssignColumn(json: Unmarshal, c: Column, cell: Scanned) returns (err: Option<ScanError>)
      modifies this
      ensures Outcome(State(), err) == Assigned(json, old(State()), c, cell)
    {
      match c
      case Id =>
        if !cell.NullInt64? {
          return Some(WrongType(Id));
        }
        fields := fields[Id := IntValue(IdCell(cell))];
        err := None;
      case CreatedAt | UpdatedAt | DeletedAt | LastUsedAt | ExpiresAt | RateLimitedAt | RateLimitResetAt | OverloadUntil
         | TempUnschedulableUntil | SessionWindowStart | SessionWindowEnd =>
        err := AssignScalar(json, c, cell, TimeKind);
      case Name | Notes | Platform | Type | Status | ErrorMessage | TempUnschedulableReason | SessionWindowStatus
         | QuotaDimension =>
        err := AssignScalar(json, c, cell, TextKind);
      case Credentials | Extra =>
        err := AssignDocument(json, c, cell);
      case ProxyId | ProxyFallbackOriginId | Concurrency | LoadFactor | Priority | ParentAccountId =>
        err := AssignScalar(json, c, cell, IntKind);
      case RateMultiplier =>
        err := AssignScalar(json, c, cell, FloatKind);
      case AutoPauseOnExpired | Schedulable =>
        err := AssignScalar(json, c, cell, BoolKind);
      case AccountId | GroupId | Other(_) =>
        selectValues := selectValues[c := cell];
        err := None;
    }

    method AssignRow(json: Unmarshal, columns: seq<Column>, values: seq<Scanned>) returns (err: Option<ScanError>)
      modifies this
      ensures Outcome(State(), err) == AssignValues(json, old(State()), columns, values)
    {
      if |values| < |columns| {
        return Some(Mismatch);
      }
      for i := 0 to |columns|
        invariant Outcome(State(), None) == AssignAll(json, old(State()), columns, values, i)
      {
        err := AssignColumn(json, columns[i], values[i]);
        if err.Some? {
          FirstErrorStays(json, old(State()), columns, values, i + 1, |columns|);
          return;
        }
      }
      err := None;
    }
  }

  lemma {:induction false} FirstErrorStays(json: Unmarshal, d: Decoded, columns: seq<Column>, values: seq<Scanned>, i: nat, n: nat)
    requires i <= n <= |columns| <= |values| && AssignAll(json, d, columns, values, i).err.Some?
    ensures AssignAll(json, d, columns, values, n) == AssignAll(json, d, columns, values, i)
  {
    if i < n {
      FirstErrorStays(json, d, columns, values, i, n - 1);
    }
  }

  // --- What the pair guarantees ---

  /** Cells as the driver leaves them: their types are those of the new cells, their contents are arbitrary. */
  ghost predicate Filled(columns: seq<Column>, values: seq<Scanned>) {
    |values| == |columns| && forall i | 0 <= i < |columns| :: KindOf(values[i]) == KindOf(NewCell(columns[i]))
  }

  /** The two switches agree, so only a malformed document can fail the assignment of scanned cells. */
  lemma {:induction false} NoTypeErrors(json: Unmarshal, d: Decoded, columns: seq<Column>, values: seq<Scanned>, n: nat)
    requires Filled(columns, values) && n <= |columns|
    ensures var r := AssignAll(json, d, columns, values, n);
      r.err.Some? ==> r.err.value.BadJson? && r.err.value.c in {Credentials, Extra}
  {
    if n > 0 {
      NoTypeErrors(json, d, columns, values, n - 1);
    }
  }

  /** Cell j is the last one of its column among the first n that is not NULL. */
  ghost predicate LastValid(columns: seq<Column>, values: seq<Scanned>, n: nat, j: nat)
    requires n <= |columns| && |columns| <= |values|
  {
    j < n && ValueOf(values[j]).Some? && forall k | j < k < n && columns[k] == columns[j] :: ValueOf(values[k]) == None
  }

  ghost predicate AllNull(columns: seq<Column>, values: seq<Scanned>, n: nat, c: Column)
    requires n <= |columns| <= |values|
  {
    forall k | 0 <= k < n && columns[k] == c :: ValueOf(values[k]) == None
  }

  /** What one assignment does to any field and any selected value. */
  lemma AssignedEffect(json: Unmarshal, d: Decoded, at: Column, cell: Scanned, c: Column)
    requires Assigned(json, d, at, cell).err == None
    ensures var r := Assigned(json, d, at, cell).state;
      && (Scalar(c) ==> Lookup(r, c) == if at == c && ValueOf(cell).Some? then ValueOf(cell) else Lookup(d, c))
      && (c == Id ==> Lookup(r, c) == if at == c then Some(IntValue(IdCell(cell))) else Lookup(d, c))
      && (at != c || !Known(c) ==> Lookup(r, c) == Lookup(d, c))
      && r.selected == if Known(at) then d.selected else d.selected[at := cell]
  {
    if at != c {
      AssignedElsewhere(json, d, at, cell, c);
    } else if Scalar(c) {
      assert !cell.Bytes?;
    }
    AssignedSelected(json, d, at, cell);
  }

  lemma AssignedElsewhere(json: Unmarshal, d: Decoded, at: Column, cell: Scanned, c: Column)
    requires at != c
    ensures Lookup(Assigned(json, d, at, cell).state, c) == Lookup(d, c)
  {
  }

  lemma AssignedSelected(json: Unmarshal, d: Decoded, at: Column, cell: Scanned)
    ensures Assigned(json, d, at, cell).state.selected == if Known(at) then d.selected else d.selected[at := cell]
  {
  }

  /** A document is decoded into the one that the field already holds; no bytes leave it alone. */
  lemma DocumentDecoded(json: Unmarshal, d: Decoded, c: Column, raw: seq<bv8>)
    requires c in {Credentials, Extra}
    ensures var r := Assigned(json, d, c, Bytes(raw)); var decoded := json(if c in d.fields then Some(d.fields[c]) else None, raw);
      && (raw == [] ==> r == Outcome(d, None))
      && (raw != [] && decoded.Some? ==> r.err == None && Lookup(r.state, c) == decoded)
      && (raw != [] && decoded == None ==> r == Outcome(d, Some(BadJson(c))))
  {
  }

  /** An id cell is assigned as it is, NULL as zero. */
  lemma IdAssigned(json: Unmarshal, d: Decoded, number: Option<int>)
    ensures Lookup(Assigned(json, d, Id, NullInt64(number)).state, Id) ==
      Some(IntValue(if number.Some? then number.value else 0))
  {
  }

  /** A cell of another type than the one that is scanned for the column is refused, and nothing else changes. */
  lemma WrongTypeReported(json: Unmarshal, d: Decoded, c: Column, cell: Scanned)
    requires Known(c)
    ensures Assigned(json, d, c, cell) == Outcome(d, Some(WrongType(c))) <==> KindOf(cell) != KindOf(NewCell(c))
  {
  }

  /** Cells that no column names are ignored; too few cells are an error before anything is assigned. */
  lemma {:induction false} SpareCells(json: Unmarshal, d: Decoded, columns: seq<Column>, values: seq<Scanned>, more: seq<Scanned>, n: nat)
    requires n <= |columns| && n <= |values|
    ensures AssignAll(json, d, columns, values + more, n) == AssignAll(json, d, columns, values, n)
    ensures AssignValues(json, d, columns, values) == Outcome(d, Some(Mismatch)) <==> |values| < |columns|
  {
    NeverMismatch(json, d, columns, values, |columns|);
    if n > 0 {
      SpareCells(json, d, columns, values, more, n - 1);
    }
  }

  lemma {:induction false} NeverMismatch(json: Unmarshal, d: Decoded, columns: seq<Column>, values: seq<Scanned>, n: nat)
    requires n <= |columns|
    ensures n <= |values| ==> AssignAll(json, d, columns, values, n).err != Some(Mismatch)
  {
    if 0 < n <= |values| {
      NeverMismatch(json, d, columns, values, n - 1);
    }
  }

  /** A scalar field ends with its last value that is not NULL, wherever it stands, or stays as it was. */
  lemma {:induction false} LastValidWins(json: Unmarshal, d: Decoded, columns: seq<Column>, values: seq<Scanned>, n: nat, c: Column)
    requires n <= |columns| && |columns| <= |values| && Scalar(c)
    requires AssignAll(json, d, columns, values, n).err == None
    ensures var r := AssignAll(json, d, columns, values, n).state;
      && (forall j: nat | LastValid(columns, values, n, j) && columns[j] == c :: Lookup(r, c) == ValueOf(values[j]))
      && (AllNull(columns, values, n, c) ==> Lookup(r, c) == Lookup(d, c))
  {
    if n > 0 {
      LastValidWins(json, d, columns, values, n - 1, c);
      var before, r := AssignAll(json, d, columns, values, n - 1).state, AssignAll(json, d, columns, values, n).state;
      AssignedEffect(json, before, columns[n - 1], values[n - 1], c);
      forall j: nat | LastValid(columns, values, n, j) && columns[j] == c ensures Lookup(r, c) == ValueOf(values[j]) {
        if j < n - 1 {
          assert LastValid(columns, values, n - 1, j);
        }
      }
    }
  }

  /** The id is the exception: its last occurrence counts even when it is NULL, and then it is zero. */
  lemma {:induction false} LastIdWins(json: Unmarshal, d: Decoded, columns: seq<Column>, values: seq<Scanned>, n: nat, j: nat)
    requires j < n <= |columns| && |columns| <= |values| && columns[j] == Id && forall k | j < k < n :: columns[k] != Id
    requires AssignAll(json, d, columns, values, n).err == None
    ensures Lookup(AssignAll(json, d, columns, values, n).state, Id) == Some(IntValue(IdCell(values[j])))
  {
    AssignedEffect(json, AssignAll(json, d, columns, values, n - 1).state, columns[n - 1], values[n - 1], Id);
    if j < n - 1 {
      LastIdWins(json, d, columns, values, n - 1, j);
    }
  }

  ghost predicate LastOf(columns: seq<Column>, n: nat, j: nat)
    requires n <= |columns|
  {
    j < n && forall k | j < k < n :: columns[k] != columns[j]
  }

  /** Unknown columns go to the selected values, the last occurrence winning, and nothing else does. */
  lemma {:induction false} UnknownSelected(json: Unmarshal, d: Decoded, columns: seq<Column>, values: seq<Scanned>, n: nat, c: Column)
    requires n <= |columns| && |columns| <= |values| && AssignAll(json, d, columns, values, n).err == None
    ensures var r := AssignAll(json, d, columns, values, n).state;
      && (Known(c) ==> (c in r.selected <==> c in d.selected))
      && (!Known(c) ==> Lookup(r, c) == Lookup(d, c))
      && (forall j: nat | LastOf(columns, n, j) && columns[j] == c && !Known(c) ::
            c in r.selected && r.selected[c] == values[j])
  {
    if n > 0 {
      UnknownSelected(json, d, columns, values, n - 1, c);
      var before, r := AssignAll(json, d, columns, values, n - 1).state, AssignAll(json, d, columns, values, n).state;
      AssignedEffect(json, before, columns[n - 1], values[n - 1], c);
      forall j: nat | LastOf(columns, n, j) && columns[j] == c && !Known(c)
        ensures c in r.selected && r.selected[c] == values[j]
      {
        if j < n - 1 {
          assert LastOf(columns, n - 1, j);
        }
      }
    }
  }

  // --- The join column in front ---

  /** The scan of a many-to-many load: one more cell, before those of the target's columns. */
  method ScanJoined(columns: seq<Column>) returns (values: seq<Scanned>)
    requires columns != []
    ensures |values| == |columns| && values[0] == NullInt64(None)
    ensures forall i | 1 <= i < |columns| :: values[i] == NewCell(columns[i])
  {
    var rest := ScanValues(columns[1..]);
    values := [NullInt64(None)] + rest[..];
  }

  /** The two ids that the assignment of a many-to-many load takes from the front are the join column and the id that the
      shifted assignment decodes, provided that the id is selected once and first. */
  lemma JoinAligned(json: Unmarshal, d: Decoded, columns: seq<Column>, values: seq<Scanned>)
    requires |columns| >= 2 && columns[1] == Id && Id !in columns[2..] && |values| == |columns|
    requires KindOf(values[0]) == IntKind && forall i | 1 <= i < |columns| :: KindOf(values[i]) == KindOf(NewCell(columns[i]))
    ensures values[0].NullInt64? && values[1].NullInt64? && Filled(columns[1..], values[1..])
    ensures var r := AssignValues(json, d, columns[1..], values[1..]);
      r.err == None ==> Lookup(r.state, Id) == Some(IntValue(IdCell(values[1])))
  {
    var cols, vals := columns[1..], values[1..];
    assert forall k | 0 < k < |cols| :: cols[k] == columns[2..][k - 1];
    if AssignValues(json, d, cols, vals).err == None {
      LastIdWins(json, d, cols, vals, |cols|, 0);
    }
  }
}
