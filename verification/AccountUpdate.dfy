/** Updates of accounts: what the builder's calls record, the lists they compile to, and the links that an account has
    afterwards. */
module AccountUpdate {
  import opened Collections
  import opened Schema
  import opened RowCodec
  import opened AccountCreate
  import opened FieldDeltas
  import opened SqlGraph

  /** What a mutation records for one edge. A unique edge can be cleared as a field and as an edge. */
  datatype Delta =
    | Many(added: set<int>, removed: set<int>, cleared: bool)
    | Unique(value: Option<int>, fieldCleared: bool, edgeCleared: bool)

  type Deltas = map<Edge, Delta>

  const UPDATED: seq<Edge> := [AccountToGroups, AccountToProxy, AccountToParent, AccountToChildren, AccountToUsageLogs]

  ghost predicate WellShaped(ds: Deltas) {
    forall e | e in UPDATED :: e in ds && (ds[e].Unique? <==> ShapeOf(e).ManyToOne?)
  }

  ghost predicate AllFields(fs: FieldDeltas) {
    forall c | c in UPDATED_FIELDS :: c in fs
  }

  // --- What one call records ---

  datatype Call = Add(ids: seq<int>) | Remove(ids: seq<int>) | Clear

  function IdSet(ids: seq<int>): set<int> {
    set id | id in ids
  }

  function Record(d: Delta, c: Call): Delta
    requires d.Many?
  {
    match c
    case Add(ids) => d.(added := d.added + IdSet(ids))
    case Remove(ids) => d.(added := d.added - IdSet(ids), removed := d.removed + IdSet(ids))
    case Clear => d.(cleared := true)
  }

  datatype UniqueCall = Set(id: int) | ClearField | ClearEdge

  function RecordUnique(d: Delta, c: UniqueCall): Delta
    requires d.Unique?
  {
    match c
    case Set(id) => d.(value := Some(id))
    case ClearField => d.(value := None, fieldCleared := true)
    case ClearEdge => d.(fieldCleared := true, edgeCleared := true)
  }

  /** A call on one edge or field of the builder, or a `Where`. */
  datatype Step =
    | OnList(e: Edge, call: Call) | OnUnique(e: Edge, unique: UniqueCall) | OnField(c: Column, field: FieldCall)
    | OnRows(ps: seq<Pred>)

  predicate Possible(step: Step) {
    match step
    case OnList(e, _) => e in UPDATED && !ShapeOf(e).ManyToOne?
    case OnUnique(e, _) => e in UPDATED && ShapeOf(e).ManyToOne?
    case OnField(c, call) => c in UPDATED_FIELDS && Offered(c, call)
    case OnRows(_) => true
  }

  // --- Compilation ---

  /** An entry without targets clears the whole edge. */
  function ClearsOf(e: Edge, d: Delta): seq<EdgeSpec> {
    match d
    case Many(_, removed, cleared) => if cleared then [EdgeSpec(e, {})] else Link([], e, removed)
    case Unique(_, fieldCleared, edgeCleared) => if fieldCleared || edgeCleared then [EdgeSpec(e, {})] else []
  }

  function AddsOf(e: Edge, d: Delta): seq<EdgeSpec> {
    match d
    case Many(added, _, _) => Link([], e, added)
    case Unique(value, _, _) => Link([], e, Only(value))
  }

  // --- Saving ---

  const UPDATE_CHECKED: seq<Column> := [Name, Platform, Type, Status, SessionWindowStatus, QuotaDimension]

  datatype UpdateError = NoDefault(c: Column) | Rejected(c: Column) | MissingId | UnknownColumn(c: Column) | Failed | NotDecoded(error: ScanError)

  datatype FieldLists = FieldLists(sets: seq<(Column, Value)>, adds: seq<(Column, Value)>, nulls: seq<Column>)
  datatype EdgeLists = EdgeLists(clear: seq<EdgeSpec>, add: seq<EdgeSpec>)

  /** What reaches the database. The many-row update has no id and reads nothing back. */
  datatype Update = Update(id: Option<int>, columns: seq<Column>, preds: seq<Pred>, fields: FieldLists, edges: EdgeLists)

  function FieldListsOf(fs: FieldDeltas): FieldLists
    requires forall c | c in UPDATED_FIELDS :: c in fs
  {
    FieldLists(Compiled(fs, UPDATED_FIELDS, SetOf), Compiled(fs, UPDATED_FIELDS, AddOf), Compiled(fs, UPDATED_FIELDS, NullOf))
  }

  function EdgeListsOf(ds: Deltas): EdgeLists
    requires forall e | e in UPDATED :: e in ds
  {
    EdgeLists(Compiled(ds, UPDATED, ClearsOf), Compiled(ds, UPDATED, AddsOf))
  }

  /** The columns that a one-row update reads back. */
  function ReadColumns(fields: seq<Column>, columns: seq<Column>): seq<Column> {
    if fields == [] then columns else [Id] + Filter(fields, NotId)
  }

  /** A field that is set to a value which its validator does not accept. */
  predicate Rejects(rt: Runtime, fs: FieldDeltas, c: Column) {
    c in UPDATE_CHECKED && c in fs && fs[c].value.Some? && !rt.accepts(c, fs[c].value.value)
  }

  ghost predicate FieldsValid(rt: Runtime, fs: FieldDeltas) {
    forall c | c in UPDATE_CHECKED :: !Rejects(rt, fs, c)
  }

  predicate NotId(c: Column) { c != Id }

  ghost predicate AllValid(fields: seq<Column>, valid: Column -> bool) {
    forall c | c in fields :: valid(c)
  }

  predicate Decodes(json: Unmarshal, columns: seq<Column>, row: Option<seq<Scanned>>) {
    row.Some? && AssignValues(json, Decoded(map[], map[]), columns, row.value).err == None
  }

  class UpdateMutation {
    var fields: FieldDeltas
    var deltas: Deltas
    var preds: seq<Pred>
    var done: bool

    ghost predicate Valid()
      reads this
    {
      AllFields(fields) && WellShaped(deltas)
    }

    ghost function Sent(id: Option<int>, columns: seq<Column>): Update
      requires Valid()
      reads this
    {
      Update(id, columns, preds, FieldListsOf(fields), EdgeListsOf(deltas))
    }

    constructor ()
      ensures Valid() && preds == [] && !done
      ensures forall c | c in UPDATED_FIELDS :: fields[c] == Untouched
      ensures forall e | e in UPDATED :: deltas[e] == if ShapeOf(e).ManyToOne? then Unique(None, false, false) else Many({}, {}, false)
    {
      preds, done := [], false;
      fields := map c | c in UPDATED_FIELDS :: Untouched;
      deltas := map e | e in UPDATED :: if ShapeOf(e).ManyToOne? then Unique(None, false, false) else Many({}, {}, false);
    }

    /** Only the fields that are set are validated. */
    method Check(rt: Runtime) returns (err: Option<UpdateError>)
      requires AllFields(fields)
      ensures err == None <==> FieldsValid(rt, fields)
      ensures err.Some? ==> err.value.Rejected? && Rejects(rt, fields, err.value.c)
    {
      var columns := UPDATE_CHECKED;
      for i := 0 to |columns|
        invariant forall j | 0 <= j < i :: !Rejects(rt, fields, columns[j])
      {
        var c := columns[i];
        if fields[c].value.Some? && !rt.accepts(c, fields[c].value.value) {
          assert c in columns && Rejects(rt, fields, c);
          return Some(Rejected(c));
        }
      }
      err := None;
    }

    /** `updated_at` gets its default unless it is set; fails without a default function. */
    method Defaults(rt: Runtime) returns (err: Option<UpdateError>)
      requires Valid()
      modifies `fields
      ensures Valid() && (err == None <==> fields[UpdatedAt].value.Some?)
      ensures fields == if old(fields[UpdatedAt]).value == None && UpdatedAt in rt.functions
        then old(fields)[UpdatedAt := RecordField(UpdatedAt, old(fields[UpdatedAt]), SetTo(rt.functions[UpdatedAt]))]
        else old(fields)
    {
      if fields[UpdatedAt].value == None {
        if UpdatedAt !in rt.functions {
          return Some(NoDefault(UpdatedAt));
        }
        SetField(UpdatedAt, rt.functions[UpdatedAt]);
      }
      err := None;
    }

    /** `Save` of the many-row builder without hooks: nothing reaches the database when the default or the check fails. */
    method SaveDefaulted(rt: Runtime, database: Update -> Option<nat>) returns (affected: nat, err: Option<UpdateError>)
      requires Valid()
      modifies `fields, `done
      ensures Valid() && (err == None <==> fields[UpdatedAt].value.Some? && FieldsValid(rt, fields) && database(Sent(None, [])).Some?)
      ensures err == None ==> affected == database(Sent(None, [])).value && done
      ensures err.Some? ==> affected == 0 && done == old(done)
    {
      err := Defaults(rt);
      if err.Some? {
        return 0, err;
      }
      affected, err := SaveMany(rt, database);
    }

    /** `sqlSave` of the many-row update; the number of rows on success. */
    method SaveMany(rt: Runtime, database: Update -> Option<nat>) returns (affected: nat, err: Option<UpdateError>)
      requires Valid()
      modifies `done
      ensures var sent := Sent(None, []);
        && (err == None <==> FieldsValid(rt, fields) && database(sent).Some?)
        && (err == None ==> affected == database(sent).value && done)
        && (err.Some? ==> affected == 0 && done == old(done))
    {
      affected := 0;
      err := Check(rt);
      if err.Some? {
        return;
      }
      var update := Compile(None, []);
      var r := database(update);
      if r == None {
        return 0, Some(Failed);
      }
      done := true;
      affected := r.value;
    }

    /** The columns that a one-row update reads back; an empty selection stands for all of `columns`. */
    method ReadBack(fields: seq<Column>, columns: seq<Column>, valid: Column -> bool) returns (r: Option<seq<Column>>)
      ensures r == if !AllValid(fields, valid) then None else Some(ReadColumns(fields, columns))
    {
      if fields == [] {
        return Some(columns);
      }
      var cols := [Id];
      for i := 0 to |fields|
        invariant forall j | 0 <= j < i :: valid(fields[j])
        invariant cols == [Id] + Filter(fields[..i], NotId)
      {
        if !valid(fields[i]) {
          assert fields[i] in fields;
          return None;
        }
        assert fields[..i + 1][..i] == fields[..i];
        if fields[i] != Id {
          cols := cols + [fields[i]];
        }
      }
      assert fields[..|fields|] == fields;
      r := Some(cols);
    }

    /** `sqlSave` of the one-row update: it needs an id and columns to read back that exist, and decodes the row it reads back. */
    method SaveOne(rt: Runtime, json: Unmarshal, id: Option<int>, selection: seq<Column>, columns: seq<Column>,
        valid: Column -> bool, database: Update -> Option<seq<Scanned>>) returns (node: Option<Decoded>, err: Option<UpdateError>)
      requires Valid()
      modifies `done
      ensures var read := ReadColumns(selection, columns);
        var row := database(Sent(id, read));
        && (err == None <==> FieldsValid(rt, fields) && id.Some? && AllValid(selection, valid) && Decodes(json, read, row))
        && node == (if err == None then Some(AssignValues(json, Decoded(map[], map[]), read, row.value).state) else None)
        && done == if err == None then true else old(done)
    {
      node := None;
      err := Check(rt);
      if err.Some? {
        return;
      }
      if id == None {
        return None, Some(MissingId);
      }
      var read := ReadBack(selection, columns, valid);
      if read == None {
        var c :| c in selection && !valid(c);
        return None, Some(UnknownColumn(c));
      }
      var update := Compile(id, read.value);
      var row := database(update);
      if row == None {
        return None, Some(Failed);
      }
      var decoded := AssignValues(json, Decoded(map[], map[]), read.value, row.value);
      if decoded.err.Some? {
        return None, Some(NotDecoded(decoded.err.value));
      }
      done := true;
      node := Some(decoded.state);
    }

    method Where(ps: seq<Pred>)
      modifies `preds
      ensures preds == old(preds) + ps
    {
      preds := preds + ps;
    }

    /** The `Set`, `Add` and `Clear` methods of plain fields. Those that set a numeric field reset it first. */
    method SetField(c: Column, v: Value)
      requires c in fields
      modifies `fields
      ensures fields == old(fields)[c := RecordField(c, old(fields[c]), SetTo(v))]
    {
      if Numeric(c) {
        fields := fields[c := Untouched];
      }
      fields := fields[c := fields[c].(value := Some(v))];
    }

    method IncreaseField(c: Column, amount: Value)
      requires c in fields
      modifies `fields
      ensures fields == old(fields)[c := RecordField(c, old(fields[c]), Increase(amount))]
    {
      var d, amount' := fields[c], amount;
      if d.added.Some? {
        amount' := Plus(d.added.value, amount);
      }
      fields := fields[c := d.(added := Some(amount'))];
    }

    method ClearPlainField(c: Column)
      requires c in fields
      modifies `fields
      ensures fields == old(fields)[c := RecordField(c, old(fields[c]), SetNull)]
    {
      fields := fields[c := fields[c].(value := None, added := None, cleared := true)];
    }

    method AddIds(e: Edge, ids: seq<int>)
      requires e in deltas && deltas[e].Many?
      modifies `deltas
      ensures deltas == old(deltas)[e := Record(old(deltas[e]), Add(ids))]
    {
      var added := deltas[e].added;
      for i := 0 to |ids|
        invariant added == deltas[e].added + IdSet(ids[..i])
      {
        assert ids[..i + 1] == ids[..i] + [ids[i]];
        added := added + {ids[i]};
      }
      assert ids[..|ids|] == ids;
      deltas := deltas[e := deltas[e].(added := added)];
    }

    method RemoveIds(e: Edge, ids: seq<int>)
      requires e in deltas && deltas[e].Many?
      modifies `deltas
      ensures deltas == old(deltas)[e := Record(old(deltas[e]), Remove(ids))]
    {
      var added, removed := deltas[e].added, deltas[e].removed;
      for i := 0 to |ids|
        invariant added == deltas[e].added - IdSet(ids[..i])
        invariant removed == deltas[e].removed + IdSet(ids[..i])
      {
        assert ids[..i + 1] == ids[..i] + [ids[i]];
        added, removed := added - {ids[i]}, removed + {ids[i]};
      }
      assert ids[..|ids|] == ids;
      deltas := deltas[e := deltas[e].(added := added, removed := removed)];
    }

    method ClearIds(e: Edge)
      requires e in deltas && deltas[e].Many?
      modifies `deltas
      ensures deltas == old(deltas)[e := Record(old(deltas[e]), Clear)]
    {
      deltas := deltas[e := deltas[e].(cleared := true)];
    }

    method SetId(e: Edge, id: int)
      requires e in deltas && deltas[e].Unique?
      modifies `deltas
      ensures deltas == old(deltas)[e := RecordUnique(old(deltas[e]), Set(id))]
    {
      deltas := deltas[e := deltas[e].(value := Some(id))];
    }

    /** `ClearProxyID` drops the recorded id; `ClearProxy`, below, does not. */
    method ClearIdField(e: Edge)
      requires e in deltas && deltas[e].Unique?
      modifies `deltas
      ensures deltas == old(deltas)[e := RecordUnique(old(deltas[e]), ClearField)]
    {
      deltas := deltas[e := deltas[e].(value := None, fieldCleared := true)];
    }

    method ClearUnique(e: Edge)
      requires e in deltas && deltas[e].Unique?
      modifies `deltas
      ensures deltas == old(deltas)[e := RecordUnique(old(deltas[e]), ClearEdge)]
    {
      deltas := deltas[e := deltas[e].(edgeCleared := true, fieldCleared := true)];
    }

    /** The statements of `sqlSave` for one field. */
    method CompileField(c: Column, lists: FieldLists) returns (lists': FieldLists)
      requires c in fields
      ensures lists' == FieldLists(lists.sets + SetOf(c, fields[c]), lists.adds + AddOf(c, fields[c]), lists.nulls + NullOf(c, fields[c]))
    {
      lists' := lists;
      if fields[c].value.Some? {
        lists' := lists'.(sets := lists'.sets + [(c, fields[c].value.value)]);
      }
      if fields[c].added.Some? {
        lists' := lists'.(adds := lists'.adds + [(c, fields[c].added.value)]);
      }
      if fields[c].cleared {
        lists' := lists'.(nulls := lists'.nulls + [c]);
      }
    }

    method CompileFields() returns (lists: FieldLists)
      requires AllFields(fields)
      ensures lists == FieldListsOf(fields)
    {
      var columns := UPDATED_FIELDS;
      lists := FieldLists([], [], []);
      for i := 0 to |columns|
        invariant lists == FieldLists(Compiled(fields, columns[..i], SetOf), Compiled(fields, columns[..i], AddOf),
                                      Compiled(fields, columns[..i], NullOf))
      {
        CompiledStep(fields, columns, i, SetOf);
        CompiledStep(fields, columns, i, AddOf);
        CompiledStep(fields, columns, i, NullOf);
        lists := CompileField(columns[i], lists);
      }
      assert columns[..|columns|] == columns;
    }

    /** The statements of `sqlSave` for one edge. */
    method CompileEdge(e: Edge, clear: seq<EdgeSpec>, add: seq<EdgeSpec>) returns (clear': seq<EdgeSpec>, add': seq<EdgeSpec>)
      requires e in deltas
      ensures clear' == clear + ClearsOf(e, deltas[e]) && add' == add + AddsOf(e, deltas[e])
    {
      clear', add' := clear, add;
      match deltas[e]
      case Many(added, removed, cleared) =>
        if cleared {
          clear' := clear' + [EdgeSpec(e, {})];
        }
        if removed != {} && !cleared {
          clear' := clear' + [EdgeSpec(e, removed)];
        }
        if added != {} {
          add' := add' + [EdgeSpec(e, added)];
        }
      case Unique(value, fieldCleared, edgeCleared) =>
        if fieldCleared || edgeCleared {
          clear' := clear' + [EdgeSpec(e, {})];
        }
        if value.Some? {
          add' := add' + [EdgeSpec(e, {value.value})];
        }
    }

    method CompileEdges() returns (lists: EdgeLists)
      requires WellShaped(deltas)
      ensures lists == EdgeListsOf(deltas)
    {
      var edges := UPDATED;
      var clear, add := [], [];
      for i := 0 to |edges|
        invariant clear == Compiled(deltas, edges[..i], ClearsOf) && add == Compiled(deltas, edges[..i], AddsOf)
      {
        CompiledStep(deltas, edges, i, ClearsOf);
        CompiledStep(deltas, edges, i, AddsOf);
        clear, add := CompileEdge(edges[i], clear, add);
      }
      assert edges[..|edges|] == edges;
      lists := EdgeLists(clear, add);
    }

    method Compile(id: Option<int>, columns: seq<Column>) returns (update: Update)
      requires Valid()
      ensures update == Sent(id, columns)
    {
      var fieldLists := CompileFields();
      var edgeLists := CompileEdges();
      update := Update(id, columns, preds, fieldLists, edgeLists);
    }

    /** One call of the builder. */
    method Take(step: Step)
      requires Valid() && Possible(step)
      modifies `fields, `deltas, `preds
      ensures Valid()
      ensures Taken(step, old(deltas), old(fields), deltas, fields)
      ensures preds == old(preds) + if step.OnRows? then step.ps else []
    {
      match step
      case OnList(e, Add(ids)) => AddIds(e, ids);
      case OnList(e, Remove(ids)) => RemoveIds(e, ids);
      case OnList(e, Clear) => ClearIds(e);
      case OnUnique(e, Set(id)) => SetId(e, id);
      case OnUnique(e, ClearField) => ClearIdField(e);
      case OnUnique(e, ClearEdge) => ClearUnique(e);
      case OnField(c, SetTo(v)) => SetField(c, v);
      case OnField(c, Increase(amount)) => IncreaseField(c, amount);
      case OnField(c, SetNull) => ClearPlainField(c);
      case OnRows(ps) => Where(ps);
    }
  }

  // --- The calls on one edge or field, in order ---

  function ListCalls(steps: seq<Step>, e: Edge): seq<Call> {
    if steps == [] then [] else
    var before, last := ListCalls(steps[..|steps| - 1], e), steps[|steps| - 1];
    if last.OnList? && last.e == e then before + [last.call] else before
  }

  function UniqueCalls(steps: seq<Step>, e: Edge): seq<UniqueCall> {
    if steps == [] then [] else
    var before, last := UniqueCalls(steps[..|steps| - 1], e), steps[|steps| - 1];
    if last.OnUnique? && last.e == e then before + [last.unique] else before
  }

  function FieldCalls(steps: seq<Step>, c: Column): seq<FieldCall> {
    if steps == [] then [] else
    var before, last := FieldCalls(steps[..|steps| - 1], c), steps[|steps| - 1];
    if last.OnField? && last.c == c then before + [last.field] else before
  }

  /** The predicates of all `Where` calls, in order. */
  function Conditions(steps: seq<Step>): seq<Pred> {
    if steps == [] then [] else
    Conditions(steps[..|steps| - 1]) + if steps[|steps| - 1].OnRows? then steps[|steps| - 1].ps else []
  }

  lemma ConditionsSnoc(steps: seq<Step>, step: Step)
    ensures Conditions(steps + [step]) == Conditions(steps) + if step.OnRows? then step.ps else []
  {
    assert (steps + [step])[..|steps|] == steps;
  }

  lemma {:induction false} ConditionsMember(steps: seq<Step>, p: Pred)
    ensures p in Conditions(steps) <==> exists step | step in steps :: step.OnRows? && p in step.ps
  {
    if steps != [] {
      var n := |steps| - 1;
      assert steps == steps[..n] + [steps[n]];
      ConditionsMember(steps[..n], p);
    }
  }

  /** The rows that the database applies an update to. */
  predicate Addresses(db: Database, update: Update, row: Row) {
    (update.id.Some? ==> IdOf(row) == update.id.value) && Sat(db, update.preds, row)
  }

  /** The row passes every predicate of every `Where`. */
  ghost predicate PassesAll(db: Database, steps: seq<Step>, row: Row) {
    forall step | step in steps && step.OnRows? :: Passes(db, step.ps, row)
  }

  lemma ConditionsPass(db: Database, steps: seq<Step>, row: Row)
    ensures Sat(db, Conditions(steps), row) <==> PassesAll(db, steps, row)
  {
    if Sat(db, Conditions(steps), row) {
      forall step | step in steps && step.OnRows? ensures Passes(db, step.ps, row) {
        forall p | p in step.ps ensures Meets(db, p, row) {
          ConditionsMember(steps, p);
        }
        SatIsPasses(db, step.ps, row);
      }
    }
    if PassesAll(db, steps, row) {
      forall p | p in Conditions(steps) ensures Meets(db, p, row) {
        ConditionsMember(steps, p);
        var step :| step in steps && step.OnRows? && p in step.ps;
        SatIsPasses(db, step.ps, row);
      }
    }
  }

  /** Every edge and field has recorded exactly its own calls. */
  ghost predicate RecordedAll(steps: seq<Step>, deltas: Deltas, fields: FieldDeltas)
    requires WellShaped(deltas) && AllFields(fields)
  {
    && (forall e | e in UPDATED && !ShapeOf(e).ManyToOne? :: deltas[e] == Recorded(ListCalls(steps, e)))
    && (forall e | e in UPDATED && ShapeOf(e).ManyToOne? :: deltas[e] == RecordedUnique(UniqueCalls(steps, e)))
    && (forall c | c in UPDATED_FIELDS :: fields[c] == RecordedField(c, FieldCalls(steps, c)))
  }

  lemma RecordedSnoc(calls: seq<Call>, c: Call)
    ensures Recorded(calls + [c]) == Record(Recorded(calls), c)
  {
    assert (calls + [c])[..|calls|] == calls;
  }

  lemma RecordedUniqueSnoc(calls: seq<UniqueCall>, c: UniqueCall)
    ensures RecordedUnique(calls + [c]) == RecordUnique(RecordedUnique(calls), c)
  {
    assert (calls + [c])[..|calls|] == calls;
  }

  lemma RecordedFieldSnoc(c: Column, calls: seq<FieldCall>, call: FieldCall)
    ensures RecordedField(c, calls + [call]) == RecordField(c, RecordedField(c, calls), call)
  {
    assert (calls + [call])[..|calls|] == calls;
  }

  lemma ListStep(steps: seq<Step>, step: Step, e: Edge)
    ensures Recorded(ListCalls(steps + [step], e)) ==
      if step.OnList? && step.e == e then Record(Recorded(ListCalls(steps, e)), step.call) else Recorded(ListCalls(steps, e))
  {
    assert (steps + [step])[..|steps|] == steps;
    if step.OnList? {
      RecordedSnoc(ListCalls(steps, e), step.call);
    }
  }

  lemma UniqueStep(steps: seq<Step>, step: Step, e: Edge)
    ensures RecordedUnique(UniqueCalls(steps + [step], e)) ==
      if step.OnUnique? && step.e == e then RecordUnique(RecordedUnique(UniqueCalls(steps, e)), step.unique)
      else RecordedUnique(UniqueCalls(steps, e))
  {
    assert (steps + [step])[..|steps|] == steps;
    if step.OnUnique? {
      RecordedUniqueSnoc(UniqueCalls(steps, e), step.unique);
    }
  }

  lemma FieldStep(steps: seq<Step>, step: Step, c: Column)
    ensures RecordedField(c, FieldCalls(steps + [step], c)) ==
      if step.OnField? && step.c == c then RecordField(c, RecordedField(c, FieldCalls(steps, c)), step.field)
      else RecordedField(c, FieldCalls(steps, c))
  {
    assert (steps + [step])[..|steps|] == steps;
    if step.OnField? {
      RecordedFieldSnoc(c, FieldCalls(steps, c), step.field);
    }
  }

  /** What one call does to the recordings: it reaches the edge or field that it is made on, and no other. */
  ghost predicate Taken(step: Step, deltas: Deltas, fields: FieldDeltas, deltas': Deltas, fields': FieldDeltas)
    requires WellShaped(deltas) && AllFields(fields) && WellShaped(deltas') && AllFields(fields')
  {
    && (forall e | e in UPDATED && !ShapeOf(e).ManyToOne? ::
          deltas'[e] == if step.OnList? && step.e == e then Record(deltas[e], step.call) else deltas[e])
    && (forall e | e in UPDATED && ShapeOf(e).ManyToOne? ::
          deltas'[e] == if step.OnUnique? && step.e == e then RecordUnique(deltas[e], step.unique) else deltas[e])
    && (forall c | c in UPDATED_FIELDS ::
          fields'[c] == if step.OnField? && step.c == c then RecordField(c, fields[c], step.field) else fields[c])
  }

  lemma RecordedAllStep(steps: seq<Step>, step: Step, deltas: Deltas, fields: FieldDeltas, deltas': Deltas, fields': FieldDeltas)
    requires WellShaped(deltas) && AllFields(fields) && WellShaped(deltas') && AllFields(fields')
    requires RecordedAll(steps, deltas, fields) && Taken(step, deltas, fields, deltas', fields')
    ensures RecordedAll(steps + [step], deltas', fields')
  {
    forall e | e in UPDATED && !ShapeOf(e).ManyToOne? ensures deltas'[e] == Recorded(ListCalls(steps + [step], e)) {
      ListStep(steps, step, e);
    }
    forall e | e in UPDATED && ShapeOf(e).ManyToOne? ensures deltas'[e] == RecordedUnique(UniqueCalls(steps + [step], e)) {
      UniqueStep(steps, step, e);
    }
    forall c | c in UPDATED_FIELDS ensures fields'[c] == RecordedField(c, FieldCalls(steps + [step], c)) {
      FieldStep(steps, step, c);
    }
  }

  /** Making the calls, in any order over the edges and fields, records on each exactly its own calls, and the predicates. */
  method Replay(steps: seq<Step>) returns (m: UpdateMutation)
    requires forall step | step in steps :: Possible(step)
    ensures fresh(m) && m.Valid() && RecordedAll(steps, m.deltas, m.fields) && m.preds == Conditions(steps) && !m.done
  {
    m := new UpdateMutation();
    for i := 0 to |steps|
      invariant fresh(m) && m.Valid() && RecordedAll(steps[..i], m.deltas, m.fields) && m.preds == Conditions(steps[..i]) && !m.done
    {
      assert steps[..i + 1] == steps[..i] + [steps[i]] && steps[i] in steps;
      ghost var deltas, fields := m.deltas, m.fields;
      m.Take(steps[i]);
      RecordedAllStep(steps[..i], steps[i], deltas, fields, m.deltas, m.fields);
      ConditionsSnoc(steps[..i], steps[i]);
    }
    assert steps[..|steps|] == steps;
  }

  /** What an update does, in terms of the calls that led to it: the rows it is applied to, the links of every edge, and the
      fields it sets, increases and clears. */
  ghost predicate Carries(update: Update, steps: seq<Step>) {
    && (forall db, row :: Addresses(db, update, row) <==>
          (update.id.Some? ==> IdOf(row) == update.id.value) && PassesAll(db, steps, row))
    && (forall e, links | e in UPDATED && !ShapeOf(e).ManyToOne? ::
          AfterLists(update.edges, e, links) == InTurn(ListCalls(steps, e), links) + Stale(ListCalls(steps, e)))
    && (forall e, links | e in UPDATED && ShapeOf(e).ManyToOne? ::
          AfterLists(update.edges, e, links) == Target(RecordedUnique(UniqueCalls(steps, e)), links))
    && (forall c, v :: ListsRecorded(update.fields, c, RecordedField(c, FieldCalls(steps, c)), v))
  }

  lemma SentCarries(update: Update, steps: seq<Step>, deltas: Deltas, fields: FieldDeltas)
    requires WellShaped(deltas) && AllFields(fields) && RecordedAll(steps, deltas, fields)
    requires update.preds == Conditions(steps) && update.fields == FieldListsOf(fields) && update.edges == EdgeListsOf(deltas)
    ensures Carries(update, steps)
  {
    forall db, row ensures Sat(db, update.preds, row) <==> PassesAll(db, steps, row) {
      ConditionsPass(db, steps, row);
    }
    forall e, links | e in UPDATED
      ensures AfterLists(update.edges, e, links) ==
        if ShapeOf(e).ManyToOne? then Target(RecordedUnique(UniqueCalls(steps, e)), links)
        else InTurn(ListCalls(steps, e), links) + Stale(ListCalls(steps, e))
    {
      UpdateReachesTarget(deltas, e, links);
      CallsAndStale(ListCalls(steps, e), links);
    }
    FieldsListed(steps, deltas, fields);
  }

  /** The calls leave this field set to a value that its validator does not accept. */
  ghost predicate CallsReject(rt: Runtime, steps: seq<Step>, c: Column) {
    var v := RecordedField(c, FieldCalls(steps, c)).value;
    v.Some? && !rt.accepts(c, v.value)
  }

  /** Every validated field that the calls leave set is valid. */
  ghost predicate CallsValid(rt: Runtime, steps: seq<Step>) {
    forall c | c in {Name, Platform, Type, Status, SessionWindowStatus, QuotaDimension} :: !CallsReject(rt, steps, c)
  }

  lemma ValidCalls(rt: Runtime, steps: seq<Step>, deltas: Deltas, fields: FieldDeltas)
    requires WellShaped(deltas) && AllFields(fields) && RecordedAll(steps, deltas, fields)
    ensures FieldsValid(rt, fields) <==> CallsValid(rt, steps)
  {
    forall c ensures Rejects(rt, fields, c) <==>
      c in {Name, Platform, Type, Status, SessionWindowStatus, QuotaDimension} && CallsReject(rt, steps, c)
    {
      CheckedUpdate(c);
      if c in UPDATE_CHECKED {
        assert fields[c] == RecordedField(c, FieldCalls(steps, c));
      }
    }
    RejectsAreChecked(rt, fields);
  }

  lemma RejectsAreChecked(rt: Runtime, fields: FieldDeltas)
    ensures FieldsValid(rt, fields) <==> forall c :: !Rejects(rt, fields, c)
  {
  }

  lemma CheckedUpdate(c: Column)
    ensures c in UPDATE_CHECKED <==> c in {Name, Platform, Type, Status, SessionWindowStatus, QuotaDimension}
    ensures c in UPDATE_CHECKED <==> Validated(c)
    ensures c in UPDATE_CHECKED ==> c in UPDATED_FIELDS
  {
  }

  /** From the calls to the database, many rows. */
  method ReplayAndSave(steps: seq<Step>, rt: Runtime, database: Update -> Option<nat>)
      returns (sent: Update, affected: nat, err: Option<UpdateError>)
    requires forall step | step in steps :: Possible(step)
    ensures sent.id == None && Carries(sent, steps)
    ensures err == None <==> CallsValid(rt, steps) && database(sent).Some?
    ensures err == None ==> database(sent) == Some(affected)
  {
    var m := Replay(steps);
    sent := m.Compile(None, []);
    SentCarries(sent, steps, m.deltas, m.fields);
    ValidCalls(rt, steps, m.deltas, m.fields);
    affected, err := m.SaveMany(rt, database);
  }

  /** From the calls to the database, the one row with this id. */
  method ReplayAndSaveOne(steps: seq<Step>, rt: Runtime, json: Unmarshal, id: int, selection: seq<Column>, columns: seq<Column>,
      valid: Column -> bool, database: Update -> Option<seq<Scanned>>)
      returns (sent: Update, node: Option<Decoded>, err: Option<UpdateError>)
    requires forall step | step in steps :: Possible(step)
    ensures sent.id == Some(id) && sent.columns == ReadColumns(selection, columns) && Carries(sent, steps)
    ensures err == None <==>
      CallsValid(rt, steps) && AllValid(selection, valid) && Decodes(json, sent.columns, database(sent))
    ensures err == None ==> node == Some(AssignValues(json, Decoded(map[], map[]), sent.columns, database(sent).value).state)
  {
    var m := Replay(steps);
    sent := m.Compile(Some(id), ReadColumns(selection, columns));
    SentCarries(sent, steps, m.deltas, m.fields);
    ValidCalls(rt, steps, m.deltas, m.fields);
    node, err := m.SaveOne(rt, json, Some(id), selection, columns, valid, database);
  }

  /** The field is set to the value, increased by it, cleared, exactly as recorded. */
  ghost predicate ListsRecorded(lists: FieldLists, c: Column, d: FieldDelta, v: Value) {
    && ((c, v) in lists.sets <==> c in UPDATED_FIELDS && d.value == Some(v))
    && ((c, v) in lists.adds <==> c in UPDATED_FIELDS && d.added == Some(v))
    && (c in lists.nulls <==> c in UPDATED_FIELDS && d.cleared)
  }

  lemma FieldsListed(steps: seq<Step>, deltas: Deltas, fields: FieldDeltas)
    requires WellShaped(deltas) && AllFields(fields) && RecordedAll(steps, deltas, fields)
    ensures forall c, v :: ListsRecorded(FieldListsOf(fields), c, RecordedField(c, FieldCalls(steps, c)), v)
  {
    forall c, v ensures ListsRecorded(FieldListsOf(fields), c, RecordedField(c, FieldCalls(steps, c)), v) {
      ListMembers(fields, UPDATED_FIELDS, c, v);
    }
  }

  lemma ListMembers(fs: FieldDeltas, columns: seq<Column>, c: Column, v: Value)
    requires forall c | c in columns :: c in fs
    ensures (c, v) in Compiled(fs, columns, SetOf) <==> c in columns && fs[c].value == Some(v)
    ensures (c, v) in Compiled(fs, columns, AddOf) <==> c in columns && fs[c].added == Some(v)
    ensures c in Compiled(fs, columns, NullOf) <==> c in columns && fs[c].cleared
  {
    CompiledMember(fs, columns, SetOf, (c, v));
    CompiledMember(fs, columns, AddOf, (c, v));
    CompiledMember(fs, columns, NullOf, c);
  }

  // --- Nothing is left out of an update ---

  lemma UpdatableListed(c: Column)
    requires Settable(c) && c != CreatedAt
    ensures c in UPDATED_FIELDS
  {
  }

  lemma ListedUpdatable(i: nat)
    requires i < |UPDATED_FIELDS|
    ensures Settable(UPDATED_FIELDS[i]) && UPDATED_FIELDS[i] != CreatedAt
  {
  }

  /** Every field but the id, the creation time and the two keys that are set as edges can be updated. */
  lemma UpdatableFields(c: Column)
    ensures c in UPDATED_FIELDS <==> Settable(c) && c != CreatedAt
  {
    var columns := UPDATED_FIELDS;
    if c in columns {
      var i :| 0 <= i < |columns| && columns[i] == c;
      ListedUpdatable(i);
    } else if Settable(c) && c != CreatedAt {
      UpdatableListed(c);
    }
  }

  /** Those that may be NULL can be cleared, and those that are numbers increased. */
  lemma ClearableFields(c: Column)
    ensures Settable(c) ==> (Clearable(c) <==> !NotNull(c))
    ensures Numeric(c) <==> Settable(c) && Wanted(c) in {IntKind, FloatKind}
  {
  }

  /** Every edge of an account can be updated, but for the one to the rows of the join table. */
  lemma UpdatableEdges(e: Edge)
    ensures e in UPDATED <==> Owner(e) == Account && e != AccountToAccountGroups
  {
  }

  /** A selection is read back whole, the id once and first. */
  lemma ReadColumnsMean(fields: seq<Column>, columns: seq<Column>, c: Column)
    ensures fields == [] ==> ReadColumns(fields, columns) == columns
    ensures fields != [] ==> var read := ReadColumns(fields, columns);
      read != [] && read[0] == Id && Id !in read[1..] && (c in read <==> c == Id || c in fields)
  {
    FilterMember(fields, NotId, c);
    FilterMember(fields, NotId, Id);
    assert fields != [] ==> ReadColumns(fields, columns)[1..] == Filter(fields, NotId);
  }

  // --- What the database does with the lists, edge by edge ---

  /** All Clear entries are applied first, in order. */
  function AfterClears(clears: seq<EdgeSpec>, e: Edge, links: set<int>): set<int> {
    if clears == [] then links else
    var before, c := AfterClears(clears[..|clears| - 1], e, links), clears[|clears| - 1];
    if c.edge != e then before else if c.targets == {} then {} else before - c.targets
  }

  /** Then the Add entries; on a unique edge the foreign key is overwritten. */
  function AfterAdds(adds: seq<EdgeSpec>, e: Edge, links: set<int>): set<int> {
    if adds == [] then links else
    var before, a := AfterAdds(adds[..|adds| - 1], e, links), adds[|adds| - 1];
    if a.edge != e then before else if ShapeOf(e).ManyToOne? then a.targets else before + a.targets
  }

  function AfterLists(lists: EdgeLists, e: Edge, links: set<int>): set<int> {
    AfterAdds(lists.add, e, AfterClears(lists.clear, e, links))
  }

  /** The intended result of a delta. */
  function Target(d: Delta, links: set<int>): set<int> {
    match d
    case Many(added, removed, cleared) => (if cleared then {} else links - removed) + added
    case Unique(value, fieldCleared, edgeCleared) =>
      if value.Some? then {value.value} else if fieldCleared || edgeCleared then {} else links
  }

  lemma {:induction false} ClearsConcat(a: seq<EdgeSpec>, b: seq<EdgeSpec>, e: Edge, links: set<int>)
    ensures AfterClears(a + b, e, links) == AfterClears(b, e, AfterClears(a, e, links))
  {
    if b == [] {
      assert a + b == a;
    } else {
      assert (a + b)[..|a + b| - 1] == a + b[..|b| - 1];
      ClearsConcat(a, b[..|b| - 1], e, links);
    }
  }

  lemma {:induction false} AddsConcat(a: seq<EdgeSpec>, b: seq<EdgeSpec>, e: Edge, links: set<int>)
    ensures AfterAdds(a + b, e, links) == AfterAdds(b, e, AfterAdds(a, e, links))
  {
    if b == [] {
      assert a + b == a;
    } else {
      assert (a + b)[..|a + b| - 1] == a + b[..|b| - 1];
      AddsConcat(a, b[..|b| - 1], e, links);
    }
  }

  /** Only an edge's own entries matter to it, wherever they stand in the lists. */
  lemma {:induction false} OwnEntries(ds: Deltas, edges: seq<Edge>, e: Edge, links: set<int>)
    requires Distinct(edges) && forall x | x in edges :: x in ds
    ensures AfterClears(Compiled(ds, edges, ClearsOf), e, links) == if e in edges then AfterClears(ClearsOf(e, ds[e]), e, links) else links
    ensures AfterAdds(Compiled(ds, edges, AddsOf), e, links) == if e in edges then AfterAdds(AddsOf(e, ds[e]), e, links) else links
  {
    if edges != [] {
      var n := |edges| - 1;
      var last := edges[n];
      assert edges == edges[..n] + [last] && last !in edges[..n];
      OwnEntries(ds, edges[..n], e, links);
      ClearsConcat(Compiled(ds, edges[..n], ClearsOf), ClearsOf(last, ds[last]), e, links);
      AddsConcat(Compiled(ds, edges[..n], AddsOf), AddsOf(last, ds[last]), e, links);
      EntriesOf(last, ds[last], e, AfterClears(Compiled(ds, edges[..n], ClearsOf), e, links));
      EntriesOf(last, ds[last], e, AfterAdds(Compiled(ds, edges[..n], AddsOf), e, links));
    }
  }

  lemma EntriesOf(at: Edge, d: Delta, e: Edge, links: set<int>)
    ensures at != e ==> AfterClears(ClearsOf(at, d), e, links) == links && AfterAdds(AddsOf(at, d), e, links) == links
  {
  }

  /** Running the compiled lists gives every edge its intended links and leaves other edges alone. Skipping the removals
      under a full clear is part of this. */
  lemma {:induction false} UpdateReachesTarget(ds: Deltas, e: Edge, links: set<int>)
    requires WellShaped(ds)
    ensures AfterLists(EdgeListsOf(ds), e, links) == if e in UPDATED then Target(ds[e], links) else links
  {
    var edges := UPDATED;
    UpdatedDistinct();
    OwnEntries(ds, edges, e, links);
    OwnEntries(ds, edges, e, AfterClears(Compiled(ds, edges, ClearsOf), e, links));
    if e in edges {
      DeltaEffect(e, ds[e], links);
    }
  }

  /** An edge that is cleared is listed without targets, and its removals are left out. */
  predicate ClearEntry(d: Delta, targets: set<int>) {
    match d
    case Many(_, removed, cleared) => if cleared then targets == {} else targets != {} && targets == removed
    case Unique(_, fieldCleared, edgeCleared) => (fieldCleared || edgeCleared) && targets == {}
  }

  predicate AddEntry(d: Delta, targets: set<int>) {
    match d
    case Many(added, _, _) => targets != {} && targets == added
    case Unique(value, _, _) => value.Some? && targets == {value.value}
  }

  lemma EntryOf(e: Edge, d: Delta, l: EdgeSpec)
    ensures l in ClearsOf(e, d) <==> l.edge == e && ClearEntry(d, l.targets)
    ensures l in AddsOf(e, d) <==> l.edge == e && AddEntry(d, l.targets)
  {
  }

  /** Which entries the lists have. */
  lemma EdgeEntries(ds: Deltas, l: EdgeSpec)
    requires WellShaped(ds)
    ensures l in EdgeListsOf(ds).clear <==> l.edge in UPDATED && ClearEntry(ds[l.edge], l.targets)
    ensures l in EdgeListsOf(ds).add <==> l.edge in UPDATED && AddEntry(ds[l.edge], l.targets)
  {
    var edges := UPDATED;
    forall e | e in edges {
      EntryOf(e, ds[e], l);
    }
    CompiledMember(ds, edges, ClearsOf, l);
    CompiledMember(ds, edges, AddsOf, l);
  }

  lemma UpdatedDistinct()
    ensures Distinct(UPDATED)
  {
  }

  lemma OneClear(c: EdgeSpec, links: set<int>)
    ensures AfterClears([c], c.edge, links) == if c.targets == {} then {} else links - c.targets
  {
    assert [c][..0] == [];
  }

  lemma OneAdd(a: EdgeSpec, links: set<int>)
    ensures AfterAdds([a], a.edge, links) == if ShapeOf(a.edge).ManyToOne? then a.targets else links + a.targets
  {
    assert [a][..0] == [];
  }

  lemma ClearEffect(e: Edge, d: Delta, links: set<int>)
    ensures AfterClears(ClearsOf(e, d), e, links) ==
      if d.Unique? then (if d.fieldCleared || d.edgeCleared then {} else links)
      else if d.cleared then {} else links - d.removed
  {
    OneClear(EdgeSpec(e, {}), links);
    if d.Many? {
      OneClear(EdgeSpec(e, d.removed), links);
    }
  }

  lemma AddEffect(e: Edge, d: Delta, links: set<int>)
    requires d.Unique? <==> ShapeOf(e).ManyToOne?
    ensures AfterAdds(AddsOf(e, d), e, links) ==
      if d.Many? then links + d.added else if d.value.Some? then {d.value.value} else links
  {
    if d.Many? {
      OneAdd(EdgeSpec(e, d.added), links);
    } else {
      OneAdd(EdgeSpec(e, Only(d.value)), links);
    }
  }

  lemma DeltaEffect(e: Edge, d: Delta, links: set<int>)
    requires d.Unique? <==> ShapeOf(e).ManyToOne?
    ensures AfterAdds(AddsOf(e, d), e, AfterClears(ClearsOf(e, d), e, links)) == Target(d, links)
  {
    ClearEffect(e, d, links);
    AddEffect(e, d, AfterClears(ClearsOf(e, d), e, links));
  }

  // --- What a sequence of calls means ---

  function Recorded(calls: seq<Call>): (d: Delta)
    ensures d.Many?
  {
    if calls == [] then Many({}, {}, false) else Record(Recorded(calls[..|calls| - 1]), calls[|calls| - 1])
  }

  /** The calls carried out one after the other. */
  function InTurn(calls: seq<Call>, links: set<int>): set<int> {
    if calls == [] then links else
    var before := InTurn(calls[..|calls| - 1], links);
    match calls[|calls| - 1]
    case Add(ids) => before + IdSet(ids)
    case Remove(ids) => before - IdSet(ids)
    case Clear => {}
  }

  /** Ids that a Clear should have dropped but whose Add, before it, is still recorded. */
  function Stale(calls: seq<Call>): set<int> {
    if calls == [] then {} else
    var before := calls[..|calls| - 1];
    match calls[|calls| - 1]
    case Add(ids) => Stale(before) - IdSet(ids)
    case Remove(ids) => Stale(before) - IdSet(ids)
    case Clear => Recorded(before).added
  }

  /** The recorded calls do what the calls in turn would do, and besides re-add the stale ids. */
  lemma {:induction false} CallsAndStale(calls: seq<Call>, links: set<int>)
    ensures Target(Recorded(calls), links) == InTurn(calls, links) + Stale(calls)
    ensures InTurn(calls, links) !! Stale(calls) && Stale(calls) <= Recorded(calls).added
  {
    if calls != [] {
      CallsAndStale(calls[..|calls| - 1], links);
    }
  }

  predicate Mentions(c: Call, id: int) {
    (c.Add? || c.Remove?) && id in c.ids
  }

  /** The k-th call adds the id, and no later Add or Remove mentions it. */
  ghost predicate LastAdded(calls: seq<Call>, id: int, k: int) {
    0 <= k < |calls| && calls[k].Add? && id in calls[k].ids && forall j | k < j < |calls| :: !Mentions(calls[j], id)
  }

  /** Between that Add and the end the edge is cleared. */
  ghost predicate Overtaken(calls: seq<Call>, id: int) {
    exists k, l :: LastAdded(calls, id, k) && k < l < |calls| && calls[l].Clear?
  }

  lemma LastAddedSnoc(calls: seq<Call>, c: Call, id: int, k: int)
    ensures LastAdded(calls + [c], id, k) <==>
      (LastAdded(calls, id, k) && !Mentions(c, id)) || (k == |calls| && c.Add? && id in c.ids)
  {
    var all := calls + [c];
    assert all[|calls|] == c && forall j | 0 <= j < |calls| :: all[j] == calls[j];
  }

  lemma {:induction false} AddedMeans(calls: seq<Call>, id: int)
    ensures id in Recorded(calls).added <==> exists k :: LastAdded(calls, id, k)
  {
    if calls != [] {
      var before, c := calls[..|calls| - 1], calls[|calls| - 1];
      assert calls == before + [c];
      AddedMeans(before, id);
      forall k {
        LastAddedSnoc(before, c, id, k);
      }
      if Mentions(c, id) && c.Add? {
        assert LastAdded(calls, id, |before|);
      }
    }
  }

  /** What was once removed stays recorded as removed, and a Clear as a Clear, whatever follows. */
  lemma {:induction false} RemovedMeans(calls: seq<Call>, id: int)
    ensures id in Recorded(calls).removed <==> exists c | c in calls :: c.Remove? && id in c.ids
    ensures Recorded(calls).cleared <==> Clear in calls
  {
    if calls != [] {
      var before, last := calls[..|calls| - 1], calls[|calls| - 1];
      RemovedMeans(before, id);
      assert calls == before + [last];
    }
  }

  lemma OvertakenSnoc(calls: seq<Call>, c: Call, id: int)
    ensures Overtaken(calls + [c], id) <==>
      (Overtaken(calls, id) && !Mentions(c, id)) || (c.Clear? && exists k :: LastAdded(calls, id, k))
  {
    var all := calls + [c];
    forall k ensures LastAdded(all, id, k) <==> (LastAdded(calls, id, k) && !Mentions(c, id)) || (k == |calls| && c.Add? && id in c.ids) {
      LastAddedSnoc(calls, c, id, k);
    }
    if k, l :| LastAdded(all, id, k) && k < l < |all| && all[l].Clear? {
      assert LastAdded(calls, id, k);
    }
    if k, l :| LastAdded(calls, id, k) && k < l < |calls| && calls[l].Clear? {
      assert all[l] == calls[l];
    }
    if k :| LastAdded(calls, id, k) && c.Clear? {
      assert LastAdded(all, id, k) && all[|calls|] == c;
    }
  }

  /** The stale ids are those whose last mention is an Add that some Clear follows. */
  lemma {:induction false} StaleMeans(calls: seq<Call>, id: int)
    ensures id in Stale(calls) <==> Overtaken(calls, id)
  {
    if calls != [] {
      var before, c := calls[..|calls| - 1], calls[|calls| - 1];
      assert calls == before + [c];
      StaleMeans(before, id);
      AddedMeans(before, id);
      OvertakenSnoc(before, c, id);
      if c.Clear? && id in Stale(before) {
        CallsAndStale(before, {});
      }
    }
  }

  /** So they agree exactly when no added id is overtaken by a Clear. */
  lemma {:induction false} CallsAgree(calls: seq<Call>, links: set<int>)
    ensures Target(Recorded(calls), links) == InTurn(calls, links) <==> forall id :: !Overtaken(calls, id)
  {
    CallsAndStale(calls, links);
    forall id ensures id in Stale(calls) <==> Overtaken(calls, id) {
      StaleMeans(calls, id);
    }
    if Stale(calls) != {} {
      var id := Member(Stale(calls));
      assert Overtaken(calls, id);
    }
  }

  /** Adding and then clearing keeps the added ids. */
  lemma ClearKeepsAdded(id: int, links: set<int>)
    ensures Target(Recorded([Add([id]), Clear]), links) == {id} && InTurn([Add([id]), Clear], links) == {}
  {
    var calls := [Add([id]), Clear];
    assert calls[..1] == [Add([id])] && calls[..1][..0] == [];
    assert Recorded(calls[..1]) == Many({id}, {}, false);
  }

  function RecordedUnique(calls: seq<UniqueCall>): (d: Delta)
    ensures d.Unique?
  {
    if calls == [] then Unique(None, false, false) else RecordUnique(RecordedUnique(calls[..|calls| - 1]), calls[|calls| - 1])
  }

  /** The last call decides. */
  function LastCall(calls: seq<UniqueCall>, links: set<int>): set<int> {
    if calls == [] then links else
    match calls[|calls| - 1] case Set(id) => {id} case _ => {}
  }

  /** The last call that is no ClearEdge is a Set. */
  predicate SetSurvives(calls: seq<UniqueCall>) {
    calls != [] && (calls[|calls| - 1].Set? || (calls[|calls| - 1].ClearEdge? && SetSurvives(calls[..|calls| - 1])))
  }

  lemma {:induction false} RecordedUniqueMeans(calls: seq<UniqueCall>)
    ensures var d := RecordedUnique(calls);
      && (d.value.Some? <==> SetSurvives(calls))
      && (d.fieldCleared || d.edgeCleared <==> exists c | c in calls :: !c.Set?)
  {
    if calls != [] {
      var n := |calls| - 1;
      RecordedUniqueMeans(calls[..n]);
      assert forall c | c in calls :: c == calls[n] || c in calls[..n];
      assert calls[n] in calls && forall c | c in calls[..n] :: c in calls;
    }
  }

  /** On a unique edge the last call decides, except that a Set survives a ClearEdge after it. */
  lemma {:induction false} UniqueCallsAgree(calls: seq<UniqueCall>, links: set<int>)
    ensures Target(RecordedUnique(calls), links) == LastCall(calls, links) <==>
      calls == [] || !(calls[|calls| - 1].ClearEdge? && SetSurvives(calls))
  {
    RecordedUniqueMeans(calls);
    if calls != [] {
      assert calls[|calls| - 1] in calls;
    }
  }
}
