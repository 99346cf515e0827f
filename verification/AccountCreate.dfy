/** The create builder of accounts: defaults, checks, the insert it sends, and what a re-read of the row gives. */
module AccountCreate {
  import opened Collections
  import opened Schema
  import opened RowCodec

  /** Optional fields, ids of linked nodes, and whether the mutation was executed. */
  datatype Mutation = Mutation(values: map<Column, Value>, groups: set<int>, proxy: Option<int>, parent: Option<int>,
                               children: set<int>, usageLogs: set<int>, id: Option<int>, done: bool)

  /** What the package variables hold: the default functions that are initialised (with the values they would give),
      the default constants, and the validators. */
  datatype Runtime = Runtime(functions: map<Column, Value>, constants: Column -> Value, accepts: (Column, Value) -> bool)

  datatype EdgeSpec = EdgeSpec(edge: Edge, targets: set<int>)
  datatype Spec = Spec(fields: map<Column, Value>, edges: seq<EdgeSpec>)
  datatype SaveError = Uninitialised(c: Column) | Missing(c: Column) | Invalid(c: Column) | Database

  /** Columns whose default is a function, in the order of `defaults`, and then those whose default is a constant. */
  const FUNCTION_DEFAULTS: seq<Column> := [CreatedAt, UpdatedAt, Credentials, Extra]
  const CONSTANT_DEFAULTS: seq<Column> := [Concurrency, Priority, RateMultiplier, Status, AutoPauseOnExpired, Schedulable, QuotaDimension]

  /** The columns of `check`, in its order. */
  const CHECKED: seq<Column> := [CreatedAt, UpdatedAt, Name, Platform, Type, Credentials, Extra, Concurrency, Priority,
    RateMultiplier, Status, AutoPauseOnExpired, Schedulable, SessionWindowStatus, QuotaDimension]

  predicate Demanded(c: Column) { c in CHECKED && c != SessionWindowStatus }

  predicate Validated(c: Column) { c in {Name, Platform, Type, Status, SessionWindowStatus, QuotaDimension} }

  /** The fields that `createSpec` copies one by one: every column but the id and the two foreign keys. */
  const COPIED: seq<Column> := [CreatedAt, UpdatedAt, DeletedAt, Name, Notes, Platform, Type, Credentials, Extra,
    ProxyFallbackOriginId, Concurrency, LoadFactor, Priority, RateMultiplier, Status, ErrorMessage, LastUsedAt, ExpiresAt,
    AutoPauseOnExpired, Schedulable, RateLimitedAt, RateLimitResetAt, OverloadUntil, TempUnschedulableUntil,
    TempUnschedulableReason, SessionWindowStart, SessionWindowEnd, SessionWindowStatus, QuotaDimension]

  predicate Copied(c: Column) {
    Known(c) && c !in {Id, ProxyId, ParentAccountId}
  }

  lemma CopiedListed(c: Column)
    requires Copied(c)
    ensures c in COPIED
  {
  }

  lemma ListedCopied(i: nat)
    requires i < |COPIED|
    ensures Copied(COPIED[i])
  {
  }

  // --- Defaults ---

  function SetFunctions(rt: Runtime, values: map<Column, Value>, columns: seq<Column>, i: nat): (map<Column, Value>, Option<SaveError>)
    requires i <= |columns|
    decreases |columns| - i
  {
    if i == |columns| then (values, None) else
    var c := columns[i];
    if c in values then SetFunctions(rt, values, columns, i + 1)
    else if c !in rt.functions then (values, Some(Uninitialised(c)))
    else SetFunctions(rt, values[c := rt.functions[c]], columns, i + 1)
  }

  function SetConstants(rt: Runtime, values: map<Column, Value>, columns: seq<Column>, i: nat): map<Column, Value>
    requires i <= |columns|
    decreases |columns| - i
  {
    if i == |columns| then values else
    var c := columns[i];
    SetConstants(rt, if c in values then values else values[c := rt.constants(c)], columns, i + 1)
  }

  /** The fields after `defaults`, and its error; the error leaves the later defaults unset. */
  function Defaulted(rt: Runtime, values: map<Column, Value>): (map<Column, Value>, Option<SaveError>) {
    var r := SetFunctions(rt, values, FUNCTION_DEFAULTS, 0);
    if r.1.Some? then r else (SetConstants(rt, r.0, CONSTANT_DEFAULTS, 0), None)
  }

  function Field(values: map<Column, Value>, c: Column): Option<Value> {
    if c in values then Some(values[c]) else None
  }

  // --- Checks ---

  function Violation(rt: Runtime, values: map<Column, Value>, c: Column): Option<SaveError> {
    if c !in values then (if c == SessionWindowStatus then None else Some(Missing(c)))
    else if Validated(c) && !rt.accepts(c, values[c]) then Some(Invalid(c))
    else None
  }

  /** The first violation in the order of `check`. */
  function CheckFrom(rt: Runtime, values: map<Column, Value>, columns: seq<Column>, i: nat): Option<SaveError>
    requires i <= |columns|
    decreases |columns| - i
  {
    if i == |columns| then None else
    var v := Violation(rt, values, columns[i]);
    if v.Some? then v else CheckFrom(rt, values, columns, i + 1)
  }

  function CheckOf(rt: Runtime, values: map<Column, Value>): Option<SaveError> {
    CheckFrom(rt, values, CHECKED, 0)
  }

  // --- The insert ---

  /** The fields of the insert. */
  function OwnFields(m: Mutation): map<Column, Value> {
    map c | c in m.values && Copied(c) :: m.values[c]
  }

  function Link(edges: seq<EdgeSpec>, edge: Edge, targets: set<int>): seq<EdgeSpec> {
    if targets == {} then edges else edges + [EdgeSpec(edge, targets)]
  }

  function Only(id: Option<int>): set<int> {
    match id case Some(n) => {n} case None => {}
  }

  /** The links to write, in order; an edge without targets is left out. */
  function LinksOf(m: Mutation): seq<EdgeSpec> {
    Link(Link(Link(Link(Link([], AccountToGroups, m.groups), AccountToProxy, Only(m.proxy)),
      AccountToParent, Only(m.parent)), AccountToChildren, m.children), AccountToUsageLogs, m.usageLogs)
  }

  function SpecOf(m: Mutation): Spec {
    Spec(OwnFields(m), LinksOf(m))
  }

  /** The fields of the node before its id is known; the two foreign keys come from the edges. */
  function NodeOf(m: Mutation): map<Column, Value> {
    var fields := OwnFields(m);
    var fields := if m.proxy.Some? then fields[ProxyId := IntValue(m.proxy.value)] else fields;
    if m.parent.Some? then fields[ParentAccountId := IntValue(m.parent.value)] else fields
  }

  /** `CreateNode`: the id of the new row, or nothing on failure. */
  type CreateNode = Spec -> Option<int>

  class Builder {
    var mutation: Mutation

    constructor (m: Mutation)
      ensures mutation == m
    {
      mutation := m;
    }

    method Defaults(rt: Runtime) returns (err: Option<SaveError>)
      modifies this
      ensures var r := Defaulted(rt, old(mutation).values); mutation == old(mutation).(values := r.0) && err == r.1
    {
      err := DefaultFunctions(rt, FUNCTION_DEFAULTS);
      if err.Some? {
        return;
      }
      DefaultConstants(rt, CONSTANT_DEFAULTS);
    }

    method DefaultFunctions(rt: Runtime, columns: seq<Column>) returns (err: Option<SaveError>)
      modifies this
      ensures var r := SetFunctions(rt, old(mutation).values, columns, 0);
        mutation == old(mutation).(values := r.0) && err == r.1
    {
      for i := 0 to |columns|
        invariant mutation == old(mutation).(values := mutation.values)
        invariant SetFunctions(rt, mutation.values, columns, i) == SetFunctions(rt, old(mutation).values, columns, 0)
      {
        var c := columns[i];
        if c !in mutation.values {
          if c !in rt.functions {
            return Some(Uninitialised(c));
          }
          mutation := mutation.(values := mutation.values[c := rt.functions[c]]);
        }
      }
      err := None;
    }

    method DefaultConstants(rt: Runtime, columns: seq<Column>)
      modifies this
      ensures mutation == old(mutation).(values := SetConstants(rt, old(mutation).values, columns, 0))
    {
      for i := 0 to |columns|
        invariant mutation == old(mutation).(values := mutation.values)
        invariant SetConstants(rt, mutation.values, columns, i) == SetConstants(rt, old(mutation).values, columns, 0)
      {
        var c := columns[i];
        if c !in mutation.values {
          mutation := mutation.(values := mutation.values[c := rt.constants(c)]);
        }
      }
    }

    method Check(rt: Runtime) returns (err: Option<SaveError>)
      ensures err == CheckOf(rt, mutation.values)
    {
      var columns := CHECKED;
      for i := 0 to |columns|
        invariant CheckFrom(rt, mutation.values, columns, i) == CheckFrom(rt, mutation.values, columns, 0)
      {
        var c := columns[i];
        if c != SessionWindowStatus && c !in mutation.values {
          return Some(Missing(c));
        }
        if Validated(c) && c in mutation.values && !rt.accepts(c, mutation.values[c]) {
          return Some(Invalid(c));
        }
      }
      err := None;
    }

    method CopyFields() returns (node: map<Column, Value>, fields: map<Column, Value>)
      ensures node == fields == OwnFields(mutation)
    {
      fields, node := map[], map[];
      for i := 0 to |COPIED|
        invariant node == fields
        invariant forall c :: Field(fields, c) == if c in COPIED[..i] then Field(mutation.values, c) else None
      {
        var c := COPIED[i];
        assert COPIED[..i + 1] == COPIED[..i] + [c];
        if c in mutation.values {
          fields := fields[c := mutation.values[c]];
          node := node[c := mutation.values[c]];
        }
      }
      assert COPIED[..|COPIED|] == COPIED;
      forall c ensures c in COPIED <==> Copied(c) {
        if Copied(c) {
          CopiedListed(c);
        }
        if i: nat :| i < |COPIED| && COPIED[i] == c {
          ListedCopied(i);
        }
      }
      forall c ensures Field(fields, c) == Field(OwnFields(mutation), c) {
      }
      assert forall c :: c in fields <==> Field(fields, c).Some?;
    }

    method CreateSpec() returns (node: map<Column, Value>, spec: Spec)
      ensures node == NodeOf(mutation) && spec == SpecOf(mutation)
    {
      var fields;
      node, fields := CopyFields();
      var edges := [];
      if mutation.groups != {} {
        edges := edges + [EdgeSpec(AccountToGroups, mutation.groups)];
      }
      if mutation.proxy.Some? {
        node := node[ProxyId := IntValue(mutation.proxy.value)];
        edges := edges + [EdgeSpec(AccountToProxy, {mutation.proxy.value})];
      }
      if mutation.parent.Some? {
        node := node[ParentAccountId := IntValue(mutation.parent.value)];
        edges := edges + [EdgeSpec(AccountToParent, {mutation.parent.value})];
      }
      if mutation.children != {} {
        edges := edges + [EdgeSpec(AccountToChildren, mutation.children)];
      }
      if mutation.usageLogs != {} {
        edges := edges + [EdgeSpec(AccountToUsageLogs, mutation.usageLogs)];
      }
      spec := Spec(fields, edges);
    }

    /** On success the node has its id and the mutation is done; a failed check or insert changes nothing. */
    method SqlSave(rt: Runtime, create: CreateNode) returns (node: map<Column, Value>, err: Option<SaveError>)
      modifies this
      ensures var m := old(mutation); var id := create(SpecOf(m));
        && err == (if CheckOf(rt, m.values).Some? then CheckOf(rt, m.values) else if id == None then Some(Database) else None)
        && (err == None ==> node == NodeOf(m)[Id := IntValue(id.value)] && mutation == m.(id := id, done := true))
        && (err.Some? ==> mutation == m)
    {
      node := map[];
      err := Check(rt);
      if err.Some? {
        return;
      }
      var spec;
      node, spec := CreateSpec();
      var id := create(spec);
      if id == None {
        err := Some(Database);
        return;
      }
      node := node[Id := IntValue(id.value)];
      mutation := mutation.(id := id, done := true);
    }
  }

  // --- What defaults and checks mean ---

  ghost predicate Acceptable(rt: Runtime, values: map<Column, Value>) {
    && (forall c | Demanded(c) :: c in values)
    && (forall c | Validated(c) && c in values :: rt.accepts(c, values[c]))
  }

  lemma {:induction false} CheckFromMeans(rt: Runtime, values: map<Column, Value>, columns: seq<Column>, i: nat)
    requires i <= |columns|
    ensures CheckFrom(rt, values, columns, i) == None <==>
      forall j | i <= j < |columns| :: Violation(rt, values, columns[j]) == None
    decreases |columns| - i
  {
    if i < |columns| {
      CheckFromMeans(rt, values, columns, i + 1);
    }
  }

  lemma CheckedListed(c: Column)
    ensures c in CHECKED <==> Demanded(c) || Validated(c)
  {
  }

  /** `check` accepts exactly the mutations with all required fields in which every validated field is valid. */
  lemma CheckMeans(rt: Runtime, values: map<Column, Value>)
    ensures CheckOf(rt, values) == None <==> Acceptable(rt, values)
  {
    var columns := CHECKED;
    CheckFromMeans(rt, values, columns, 0);
    forall c ensures c in columns <==> Demanded(c) || Validated(c) {
      CheckedListed(c);
    }
    if CheckOf(rt, values) == None {
      forall c | c in columns ensures Violation(rt, values, c) == None {
        var j :| 0 <= j < |columns| && columns[j] == c;
      }
    }
    if Acceptable(rt, values) {
      forall j | 0 <= j < |columns| ensures Violation(rt, values, columns[j]) == None {
        assert columns[j] in columns;
      }
    }
  }

  /** Setting default functions keeps every set field, and stops at the first column that has neither value nor default. */
  lemma {:induction false} FunctionsSet(rt: Runtime, values: map<Column, Value>, columns: seq<Column>, i: nat)
    requires i <= |columns| && Distinct(columns)
    ensures var r := SetFunctions(rt, values, columns, i);
      && (r.1 == None <==> forall j | i <= j < |columns| :: columns[j] in values || columns[j] in rt.functions)
      && (r.1.Some? ==> r.1.value.Uninitialised? && r.1.value.c in columns && r.1.value.c !in r.0)
    decreases |columns| - i
  {
    if i < |columns| {
      var c := columns[i];
      FunctionsSet(rt, if c !in values && c in rt.functions then values[c := rt.functions[c]] else values, columns, i + 1);
    }
  }

  lemma {:induction false} FunctionsGive(rt: Runtime, values: map<Column, Value>, columns: seq<Column>, i: nat, c: Column)
    requires i <= |columns| && SetFunctions(rt, values, columns, i).1 == None
    ensures Field(SetFunctions(rt, values, columns, i).0, c) ==
      if c in values || c !in columns[i..] then Field(values, c) else Field(rt.functions, c)
    decreases |columns| - i
  {
    if i < |columns| {
      var d := columns[i];
      assert columns[i..] == [d] + columns[i + 1..];
      FunctionsGive(rt, if d !in values && d in rt.functions then values[d := rt.functions[d]] else values, columns, i + 1, c);
    }
  }

  lemma {:induction false} ConstantsGive(rt: Runtime, values: map<Column, Value>, columns: seq<Column>, i: nat, c: Column)
    requires i <= |columns|
    ensures Field(SetConstants(rt, values, columns, i), c) ==
      if c in values || c !in columns[i..] then Field(values, c) else Some(rt.constants(c))
    decreases |columns| - i
  {
    if i < |columns| {
      var d := columns[i];
      assert columns[i..] == [d] + columns[i + 1..];
      ConstantsGive(rt, if d in values then values else values[d := rt.constants(d)], columns, i + 1, c);
    }
  }

  /** What a field holds after `defaults`: its own value if it was set, its default if it has one. */
  function WithDefault(rt: Runtime, values: map<Column, Value>, c: Column): Option<Value> {
    if c in values then Some(values[c])
    else if c in FUNCTION_DEFAULTS then Field(rt.functions, c)
    else if c in CONSTANT_DEFAULTS then Some(rt.constants(c))
    else None
  }

  lemma DefaultListsDistinct()
    ensures Distinct(FUNCTION_DEFAULTS) && forall c | c in FUNCTION_DEFAULTS :: c !in CONSTANT_DEFAULTS
  {
  }

  lemma DefaultsMean(rt: Runtime, values: map<Column, Value>, c: Column)
    ensures Defaulted(rt, values).1 == None <==> forall f | f in FUNCTION_DEFAULTS :: f in values || f in rt.functions
    ensures Defaulted(rt, values).1 == None ==> Field(Defaulted(rt, values).0, c) == WithDefault(rt, values, c)
  {
    DefaultListsDistinct();
    var functions, constants := FUNCTION_DEFAULTS, CONSTANT_DEFAULTS;
    FunctionsSet(rt, values, functions, 0);
    var r := SetFunctions(rt, values, functions, 0);
    if r.1 == None {
      FunctionsGive(rt, values, functions, 0, c);
      ConstantsGive(rt, r.0, constants, 0, c);
      assert functions[0..] == functions && constants[0..] == constants;
    }
  }

  lemma FunctionDefaultsDemanded(c: Column)
    requires c in FUNCTION_DEFAULTS
    ensures Demanded(c)
  {
  }

  /** The column that `defaults` stopped at is required and still unset: without hooks, ignoring its error is safe. */
  lemma {:induction false} FailedDefaultsFailCheck(rt: Runtime, values: map<Column, Value>)
    requires Defaulted(rt, values).1.Some?
    ensures CheckOf(rt, Defaulted(rt, values).0).Some?
  {
    DefaultListsDistinct();
    FunctionsSet(rt, values, FUNCTION_DEFAULTS, 0);
    CheckMeans(rt, Defaulted(rt, values).0);
    FunctionDefaultsDemanded(Defaulted(rt, values).1.value.c);
  }

  /** After successful defaults `check` can only miss the three fields that have none. */
  lemma OnlyThreeCanMiss(rt: Runtime, values: map<Column, Value>, c: Column)
    requires Defaulted(rt, values).1 == None && Demanded(c) && c !in Defaulted(rt, values).0
    ensures c in {Name, Platform, Type} && c !in values
  {
    DefaultsMean(rt, values, c);
    DefaultsByKind(c);
  }

  /** Every column that is demanded, but for these three, has a default: times and documents from a function, the others
      from a constant; and no other column has one. */
  lemma DefaultsByKind(c: Column)
    ensures c in FUNCTION_DEFAULTS <==> Demanded(c) && KindOf(NewCell(c)) in {TimeKind, DocKind}
    ensures c in CONSTANT_DEFAULTS <==>
      Demanded(c) && KindOf(NewCell(c)) !in {TimeKind, DocKind} && c !in {Name, Platform, Type}
  {
    DemandedColumns(c);
    ListedDefaults(c);
  }

  lemma DemandedColumns(c: Column)
    ensures Demanded(c) <==> c in {CreatedAt, UpdatedAt, Name, Platform, Type, Credentials, Extra, Concurrency, Priority,
      RateMultiplier, Status, AutoPauseOnExpired, Schedulable, QuotaDimension}
  {
  }

  lemma ListedDefaults(c: Column)
    ensures c in FUNCTION_DEFAULTS <==> c in {CreatedAt, UpdatedAt, Credentials, Extra}
    ensures c in CONSTANT_DEFAULTS <==>
      c in {Concurrency, Priority, RateMultiplier, Status, AutoPauseOnExpired, Schedulable, QuotaDimension}
  {
  }

  /** So an ordinary create passes: with successful defaults, exactly when these three are set and every validated field,
      given or defaulted, is valid. */
  lemma OrdinaryCreate(rt: Runtime, values: map<Column, Value>)
    requires Defaulted(rt, values).1 == None
    ensures var full := Defaulted(rt, values).0;
      CheckOf(rt, full) == None <==>
        && Name in values && Platform in values && Type in values
        && forall c | c in {Name, Platform, Type, Status, SessionWindowStatus, QuotaDimension} && c in full :: rt.accepts(c, full[c])
  {
    var full := Defaulted(rt, values).0;
    CheckMeans(rt, full);
    NamesHaveNoDefault(rt, values);
    forall c | Demanded(c) && c !in full ensures c in {Name, Platform, Type} && c !in values {
      OnlyThreeCanMiss(rt, values, c);
    }
    NamesDemanded();
  }

  lemma NamesDemanded()
    ensures Demanded(Name) && Demanded(Platform) && Demanded(Type)
  {
  }

  lemma NamesHaveNoDefault(rt: Runtime, values: map<Column, Value>)
    requires Defaulted(rt, values).1 == None
    ensures forall c | c in {Name, Platform, Type} :: c in Defaulted(rt, values).0 <==> c in values
  {
    DefaultsMean(rt, values, Name);
    DefaultsMean(rt, values, Platform);
    DefaultsMean(rt, values, Type);
  }

  /** Columns that the schema declares without `Optional`. */
  predicate NotNull(c: Column) {
    c in {CreatedAt, UpdatedAt, Name, Platform, Type, Credentials, Extra, Concurrency, Priority, RateMultiplier, Status,
          AutoPauseOnExpired, Schedulable, QuotaDimension}
  }

  lemma NotNullDemanded(c: Column)
    ensures NotNull(c) <==> Demanded(c)
    ensures NotNull(c) ==> Copied(c)
  {
  }

  /** An insert that passed `check` writes every NOT NULL column. */
  lemma CheckedRowComplete(rt: Runtime, m: Mutation, c: Column)
    requires CheckOf(rt, m.values) == None && NotNull(c)
    ensures c in SpecOf(m).fields
  {
    CheckMeans(rt, m.values);
    NotNullDemanded(c);
  }

  // --- Create, then read ---

  function KindOfValue(v: Value): Kind {
    match v
    case DocValue(_) => DocKind
    case BoolValue(_) => BoolKind
    case FloatValue(_) => FloatKind
    case IntValue(_) => IntKind
    case TextValue(_) => TextKind
    case TimeValue(_) => TimeKind
  }

  /** The fields that have a setter: all columns of accounts but the id and the two that are set as edges. */
  predicate Settable(c: Column) {
    !c.Other? && c !in {Id, ProxyId, ParentAccountId, AccountId, GroupId}
  }

  /** The setters of the builder only accept values of the field's type. */
  ghost predicate Typed(m: Mutation) {
    forall c | c in m.values :: Settable(c) && KindOfValue(m.values[c]) == Wanted(c)
  }

  lemma SettableCopied(c: Column)
    ensures Settable(c) <==> Copied(c)
  {
    KnownColumns(c);
  }

  /** Nothing that was set is lost: the insert writes exactly the fields of the mutation, and the node has them all. */
  lemma NothingLost(m: Mutation)
    requires forall c | c in m.values :: Settable(c)
    ensures SpecOf(m).fields == m.values
    ensures forall c | c in m.values :: c in NodeOf(m) && NodeOf(m)[c] == m.values[c]
  {
    forall c {:trigger c in m.values} | c in m.values ensures Copied(c) {
      SettableCopied(c);
    }
  }

  type Marshal = Value -> seq<bv8>

  /** Documents are read back as they were written, and are never written as nothing. */
  ghost predicate Reads(marshal: Marshal, json: Unmarshal, m: Mutation) {
    forall c | c in m.values && m.values[c].DocValue? ::
      marshal(m.values[c]) != [] && json(None, marshal(m.values[c])) == Some(m.values[c])
  }

  function Encode(marshal: Marshal, v: Value): Scanned {
    match v
    case DocValue(_) => Bytes(marshal(v))
    case BoolValue(b) => NullBool(Some(b))
    case FloatValue(x) => NullFloat64(Some(x))
    case IntValue(n) => NullInt64(Some(n))
    case TextValue(s) => NullString(Some(s))
    case TimeValue(t) => NullTime(Some(t))
  }

  /** The row that an insert leaves: the id, the written fields, the foreign keys of many-to-one links, NULL elsewhere. */
  ghost predicate Stored(marshal: Marshal, spec: Spec, id: int, row: Column -> Scanned) {
    && row(Id) == NullInt64(Some(id))
    && (forall c | c in spec.fields :: row(c) == Encode(marshal, spec.fields[c]))
    && (forall l, t | l in spec.edges && ShapeOf(l.edge).ManyToOne? && t in l.targets ::
          row(ShapeOf(l.edge).fk) == NullInt64(Some(t)))
    && (forall c | Known(c) && c != Id && c !in spec.fields && !Linked(spec, c) :: row(c) == NewCell(c))
  }

  ghost predicate Linked(spec: Spec, c: Column) {
    exists l | l in spec.edges :: ShapeOf(l.edge).ManyToOne? && ShapeOf(l.edge).fk == c
  }

  /** What the mutation links the new account to along an edge. */
  function TargetsOf(m: Mutation, e: Edge): set<int> {
    match e
    case AccountToGroups => m.groups
    case AccountToProxy => Only(m.proxy)
    case AccountToParent => Only(m.parent)
    case AccountToChildren => m.children
    case AccountToUsageLogs => m.usageLogs
    case _ => {}
  }

  lemma {:induction false} LinkMember(m: Mutation, l: EdgeSpec)
    ensures l in LinksOf(m) <==> l.targets != {} && l.targets == TargetsOf(m, l.edge)
  {
    var a := Link([], AccountToGroups, m.groups);
    var b := Link(a, AccountToProxy, Only(m.proxy));
    var c := Link(b, AccountToParent, Only(m.parent));
    var d := Link(c, AccountToChildren, m.children);
    assert l in b <==> l in a || (l == EdgeSpec(AccountToProxy, Only(m.proxy)) && l.targets != {});
    assert l in c <==> l in b || (l == EdgeSpec(AccountToParent, Only(m.parent)) && l.targets != {});
    assert l in d <==> l in c || (l == EdgeSpec(AccountToChildren, m.children) && l.targets != {});
  }

  lemma OnlyEqual(a: Option<int>, b: Option<int>)
    ensures Only(a) == Only(b) <==> a == b
  {
    if a.Some? && b.Some? {
      assert a.value in Only(a) && b.value in Only(b);
    } else if a.Some? {
      assert a.value in Only(a);
    } else if b.Some? {
      assert b.value in Only(b);
    }
  }

  lemma LinksTarget(m: Mutation, m': Mutation, e: Edge)
    requires LinksOf(m) == LinksOf(m')
    ensures TargetsOf(m, e) == TargetsOf(m', e)
  {
    LinkMember(m, EdgeSpec(e, TargetsOf(m, e)));
    LinkMember(m', EdgeSpec(e, TargetsOf(m, e)));
    LinkMember(m, EdgeSpec(e, TargetsOf(m', e)));
    LinkMember(m', EdgeSpec(e, TargetsOf(m', e)));
  }

  /** What is inserted determines the node: mutations with one spec have one node. */
  lemma SpecMakesNode(m: Mutation, m': Mutation)
    requires SpecOf(m) == SpecOf(m')
    ensures NodeOf(m) == NodeOf(m')
  {
    LinksTarget(m, m', AccountToProxy);
    LinksTarget(m, m', AccountToParent);
    OnlyEqual(m.proxy, m'.proxy);
    OnlyEqual(m.parent, m'.parent);
  }

  /** Only the two unique edges put a foreign key into the row itself. */
  lemma OwnColumnLink(m: Mutation, l: EdgeSpec)
    requires l in LinksOf(m) && ShapeOf(l.edge).ManyToOne?
    ensures (l.edge == AccountToProxy && m.proxy.Some?) || (l.edge == AccountToParent && m.parent.Some?)
  {
    LinkMember(m, l);
  }

  lemma LinkedMeans(m: Mutation, c: Column)
    ensures Linked(SpecOf(m), c) ==> (c == ProxyId && m.proxy.Some?) || (c == ParentAccountId && m.parent.Some?)
  {
    if Linked(SpecOf(m), c) {
      var l :| l in SpecOf(m).edges && ShapeOf(l.edge).ManyToOne? && ShapeOf(l.edge).fk == c;
      OwnColumnLink(m, l);
    }
  }

  /** The foreign keys that the links put into the row. */
  lemma LinkedCell(marshal: Marshal, spec: Spec, id: int, row: Column -> Scanned, e: Edge, t: int)
    requires Stored(marshal, spec, id, row) && ShapeOf(e).ManyToOne? && EdgeSpec(e, {t}) in spec.edges
    ensures row(ShapeOf(e).fk) == NullInt64(Some(t))
  {
    assert t in EdgeSpec(e, {t}).targets;
  }

  lemma LinkedColumns(marshal: Marshal, m: Mutation, id: int, row: Column -> Scanned)
    requires Stored(marshal, SpecOf(m), id, row)
    ensures m.proxy.Some? ==> row(ProxyId) == NullInt64(m.proxy)
    ensures m.parent.Some? ==> row(ParentAccountId) == NullInt64(m.parent)
  {
    var spec := SpecOf(m);
    if m.proxy.Some? {
      LinkMember(m, EdgeSpec(AccountToProxy, Only(m.proxy)));
      LinkedCell(marshal, spec, id, row, AccountToProxy, m.proxy.value);
    }
    if m.parent.Some? {
      LinkMember(m, EdgeSpec(AccountToParent, Only(m.parent)));
      LinkedCell(marshal, spec, id, row, AccountToParent, m.parent.value);
    }
  }

  function FreshValue(json: Unmarshal, c: Column, cell: Scanned): Option<Value> {
    if c == Id then Some(IntValue(IdCell(cell)))
    else if !cell.Bytes? then ValueOf(cell)
    else if cell.raw == [] then None
    else json(None, cell.raw)
  }

  /** The cell decodes, for a field that is not set yet, to this value or to none. */
  ghost predicate Gives(json: Unmarshal, c: Column, cell: Scanned, value: Option<Value>) {
    && KindOf(cell) == Wanted(c)
    && value == FreshValue(json, c, cell)
    && (cell.Bytes? && cell.raw != [] ==> value.Some?)
  }

  function IntOf(id: Option<int>): Option<Value> {
    match id case Some(n) => Some(IntValue(n)) case None => None
  }

  lemma NodeField(m: Mutation, id: int, c: Column)
    requires Typed(m)
    ensures Field(NodeOf(m)[Id := IntValue(id)], c) ==
      if c == Id then Some(IntValue(id))
      else if c == ProxyId then IntOf(m.proxy)
      else if c == ParentAccountId then IntOf(m.parent)
      else Field(m.values, c)
  {
    SettableCopied(c);
    assert c in OwnFields(m) <==> c in m.values;
  }

  lemma EncodedGives(marshal: Marshal, json: Unmarshal, c: Column, v: Value)
    requires c != Id && KindOfValue(v) == Wanted(c)
    requires v.DocValue? ==> marshal(v) != [] && json(None, marshal(v)) == Some(v)
    ensures Gives(json, c, Encode(marshal, v), Some(v))
  {
  }

  /** Every cell of the stored row gives the node's field. */
  lemma StoredGives(marshal: Marshal, json: Unmarshal, m: Mutation, id: int, row: Column -> Scanned, c: Column)
    requires Typed(m) && Reads(marshal, json, m) && Stored(marshal, SpecOf(m), id, row) && Known(c)
    ensures Gives(json, c, row(c), Field(NodeOf(m)[Id := IntValue(id)], c))
  {
    NodeField(m, id, c);
    LinkedColumns(marshal, m, id, row);
    LinkedMeans(m, c);
    if c in m.values {
      assert c in SpecOf(m).fields;
      EncodedGives(marshal, json, c, m.values[c]);
    } else if c != Id && !Linked(SpecOf(m), c) {
      NewCellGives(json, c);
      assert c == ProxyId ==> m.proxy == None by { LinkMember(m, EdgeSpec(AccountToProxy, Only(m.proxy))); }
      assert c == ParentAccountId ==> m.parent == None by { LinkMember(m, EdgeSpec(AccountToParent, Only(m.parent))); }
    } else {
      IntGives(json, c, row(c));
    }
  }

  lemma IntGives(json: Unmarshal, c: Column, cell: Scanned)
    requires c in {Id, ProxyId, ParentAccountId} && cell.NullInt64? && cell.number.Some?
    ensures Gives(json, c, cell, Some(IntValue(cell.number.value)))
  {
  }

  lemma NewCellGives(json: Unmarshal, c: Column)
    requires Known(c) && c != Id
    ensures Gives(json, c, NewCell(c), None)
  {
  }

  lemma GivenAssigned(json: Unmarshal, d: Decoded, c: Column, cell: Scanned, value: Option<Value>)
    requires Known(c) && Lookup(d, c) == None && Gives(json, c, cell, value)
    ensures var r := Assigned(json, d, c, cell); r.err == None && Lookup(r.state, c) == value
  {
  }

  /** The fields after n columns of a list without repetition. */
  lemma {:induction false} ReadPrefix(json: Unmarshal, node: map<Column, Value>, columns: seq<Column>, values: seq<Scanned>, n: nat)
    requires n <= |columns| && Distinct(columns) && |values| == |columns|
    requires forall i | 0 <= i < |columns| && Known(columns[i]) :: Gives(json, columns[i], values[i], Field(node, columns[i]))
    ensures var r := AssignAll(json, Decoded(map[], map[]), columns, values, n);
      r.err == None && forall c :: Lookup(r.state, c) == if Known(c) && c in columns[..n] then Field(node, c) else None
  {
    if n > 0 {
      ReadPrefix(json, node, columns, values, n - 1);
      var d, c := AssignAll(json, Decoded(map[], map[]), columns, values, n - 1).state, columns[n - 1];
      assert c !in columns[..n - 1] && columns[..n] == columns[..n - 1] + [c];
      if Known(c) {
        GivenAssigned(json, d, c, values[n - 1], Field(node, c));
      }
      forall c' | c' != c ensures Lookup(Assigned(json, d, c, values[n - 1]).state, c') == Lookup(d, c') {
        AssignedElsewhere(json, d, c, values[n - 1], c');
      }
    }
  }

  lemma SameFields(a: map<Column, Value>, b: map<Column, Value>)
    requires forall c :: Field(a, c) == Field(b, c)
    ensures a == b
  {
    assert forall c :: c in a <==> Field(a, c).Some?;
    assert forall c :: c in b <==> Field(b, c).Some?;
  }

  /** Reading the inserted row, with the columns in any order, gives the node that the builder returned. */
  lemma CreateThenRead(marshal: Marshal, json: Unmarshal, m: Mutation, id: int, row: Column -> Scanned,
      columns: seq<Column>, values: seq<Scanned>)
    requires Typed(m) && Reads(marshal, json, m) && Stored(marshal, SpecOf(m), id, row)
    requires Distinct(columns) && (forall c | Known(c) :: c in columns) && |values| == |columns|
    requires forall i | 0 <= i < |columns| && Known(columns[i]) :: values[i] == row(columns[i])
    ensures var r := AssignValues(json, Decoded(map[], map[]), columns, values);
      r.err == None && r.state.fields == NodeOf(m)[Id := IntValue(id)]
  {
    var node := NodeOf(m)[Id := IntValue(id)];
    forall i | 0 <= i < |columns| && Known(columns[i]) ensures Gives(json, columns[i], values[i], Field(node, columns[i])) {
      StoredGives(marshal, json, m, id, row, columns[i]);
    }
    forall c ensures c in node ==> c in columns && Known(c) {
      assert c in node ==> Known(c);
    }
    ReadAll(json, node, columns, values);
  }

  lemma ReadAll(json: Unmarshal, node: map<Column, Value>, columns: seq<Column>, values: seq<Scanned>)
    requires Distinct(columns) && |values| == |columns| && forall c | c in node :: c in columns && Known(c)
    requires forall i | 0 <= i < |columns| && Known(columns[i]) :: Gives(json, columns[i], values[i], Field(node, columns[i]))
    ensures var r := AssignValues(json, Decoded(map[], map[]), columns, values); r.err == None && r.state.fields == node
  {
    ReadPrefix(json, node, columns, values, |columns|);
    assert columns[..|columns|] == columns;
    var state := AssignValues(json, Decoded(map[], map[]), columns, values).state;
    forall c ensures Field(state.fields, c) == Field(node, c) {
      assert Field(state.fields, c) == Lookup(state, c);
    }
    SameFields(state.fields, node);
  }
}
