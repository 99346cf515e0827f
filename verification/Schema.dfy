/** Entities, columns and edges of the account part of the schema, and eager-load queries over them. */
module Schema {
  import opened Collections

  datatype Entity = Account | AccountGroup | Group | Proxy | UsageLog

  datatype Column =
    | Id | CreatedAt | UpdatedAt | DeletedAt | Name | Notes | Platform | Type | Credentials | Extra
    | ProxyId | ProxyFallbackOriginId | Concurrency | LoadFactor | Priority | RateMultiplier | Status
    | ErrorMessage | LastUsedAt | ExpiresAt | AutoPauseOnExpired | Schedulable | RateLimitedAt
    | RateLimitResetAt | OverloadUntil | TempUnschedulableUntil | TempUnschedulableReason
    | SessionWindowStart | SessionWindowEnd | SessionWindowStatus | ParentAccountId | QuotaDimension
    | AccountId | GroupId
    | Other(name: string)

  /** One constructor per `with*` slot, named owner-to-target. */
  datatype Edge =
    | AccountToGroups | AccountToProxy | AccountToParent | AccountToChildren
    | AccountToUsageLogs | AccountToAccountGroups
    | AccountGroupToAccount | AccountGroupToGroup
    | GroupToUsageLogs | GroupToAccounts | GroupToAccountGroups
    | ProxyToAccounts
    | UsageLogToAccount | UsageLogToGroup

  /** `nullable` says whether the decoded foreign key is a pointer. `outer` and `inner` are the join-table
      columns of the owner and of the target. */
  datatype Shape =
    | ManyToOne(fk: Column, nullable: bool)
    | OneToMany(fk: Column, nullable: bool)
    | ManyToMany(outer: Column, inner: Column)

  function ShapeOf(e: Edge): Shape {
    match e
    case AccountToGroups => ManyToMany(AccountId, GroupId)
    case AccountToProxy => ManyToOne(ProxyId, true)
    case AccountToParent => ManyToOne(ParentAccountId, true)
    case AccountToChildren => OneToMany(ParentAccountId, true)
    case AccountToUsageLogs => OneToMany(AccountId, false)
    case AccountToAccountGroups => OneToMany(AccountId, false)
    case AccountGroupToAccount => ManyToOne(AccountId, false)
    case AccountGroupToGroup => ManyToOne(GroupId, false)
    case GroupToUsageLogs => OneToMany(GroupId, true)
    case GroupToAccounts => ManyToMany(GroupId, AccountId)
    case GroupToAccountGroups => OneToMany(GroupId, false)
    case ProxyToAccounts => OneToMany(ProxyId, true)
    case UsageLogToAccount => ManyToOne(AccountId, false)
    case UsageLogToGroup => ManyToOne(GroupId, true)
  }

  function Owner(e: Edge): Entity {
    match e
    case AccountGroupToAccount | AccountGroupToGroup => AccountGroup
    case GroupToUsageLogs | GroupToAccounts | GroupToAccountGroups => Group
    case ProxyToAccounts => Proxy
    case UsageLogToAccount | UsageLogToGroup => UsageLog
    case _ => Account
  }

  function Target(e: Edge): Entity {
    match e
    case AccountToGroups | AccountGroupToGroup | UsageLogToGroup => Group
    case AccountToProxy => Proxy
    case AccountToUsageLogs | GroupToUsageLogs => UsageLog
    case AccountToAccountGroups | GroupToAccountGroups => AccountGroup
    case _ => Account
  }

  /** The order in which `sqlAll` runs the load steps. */
  function EdgesOf(t: Entity): seq<Edge> {
    match t
    case Account => [AccountToGroups, AccountToProxy, AccountToParent, AccountToChildren,
                     AccountToUsageLogs, AccountToAccountGroups]
    case AccountGroup => [AccountGroupToAccount, AccountGroupToGroup]
    case Group => [GroupToUsageLogs, GroupToAccounts, GroupToAccountGroups]
    case Proxy => [ProxyToAccounts]
    case UsageLog => [UsageLogToAccount, UsageLogToGroup]
  }

  /** Every entity but the join entity has a single `id` column. */
  predicate HasId(t: Entity) { t != AccountGroup }

  /** Foreign keys declared NOT NULL. */
  predicate Required(t: Entity, c: Column) {
    (t == AccountGroup && c in {AccountId, GroupId}) || (t == UsageLog && c == AccountId)
  }

  lemma EdgesOfOwner(t: Entity, e: Edge)
    ensures e in EdgesOf(t) <==> Owner(e) == t
  {
  }

  /** Ids are only taken from entities that have one, and a key decodes to a pointer exactly when it may be NULL. */
  lemma EdgeEnds(e: Edge)
    ensures ShapeOf(e).ManyToOne? ==>
      HasId(Target(e)) && (ShapeOf(e).nullable <==> !Required(Owner(e), ShapeOf(e).fk)) && ShapeOf(e).fk != Id
    ensures ShapeOf(e).OneToMany? ==>
      HasId(Owner(e)) && (ShapeOf(e).nullable <==> !Required(Target(e), ShapeOf(e).fk)) && ShapeOf(e).fk != Id
    ensures ShapeOf(e).ManyToMany? ==> HasId(Owner(e)) && HasId(Target(e))
  {
  }

  /** Foreign keys are named after what they point to. */
  lemma KeysNameTargets(e: Edge)
    ensures ShapeOf(e).ManyToOne? ==>
      || (ShapeOf(e).fk in {AccountId, ParentAccountId} && Target(e) == Account)
      || (ShapeOf(e).fk == ProxyId && Target(e) == Proxy)
      || (ShapeOf(e).fk == GroupId && Target(e) == Group)
    ensures ShapeOf(e).OneToMany? ==>
      || (ShapeOf(e).fk in {AccountId, ParentAccountId} && Owner(e) == Account)
      || (ShapeOf(e).fk == ProxyId && Owner(e) == Proxy)
      || (ShapeOf(e).fk == GroupId && Owner(e) == Group)
    ensures ShapeOf(e).ManyToMany? ==>
      || (Owner(e) == Account && Target(e) == Group && ShapeOf(e) == ManyToMany(AccountId, GroupId))
      || (Owner(e) == Group && Target(e) == Account && ShapeOf(e) == ManyToMany(GroupId, AccountId))
  {
  }

  /** An account points to its parent by one key and is pointed to by its logs and group links by another. */
  lemma AccountKeys(e: Edge)
    requires Target(e) == Account || Owner(e) == Account
    ensures !ShapeOf(e).ManyToMany? ==>
      (ShapeOf(e).fk == ParentAccountId <==> Owner(e) == Account && Target(e) == Account) &&
      (ShapeOf(e).fk == AccountId <==> AccountGroup in {Owner(e), Target(e)} || UsageLog in {Owner(e), Target(e)})
  {
  }

  /** The edge that is read the other way round. */
  function Inverse(e: Edge): Edge {
    match e
    case AccountToGroups => GroupToAccounts
    case GroupToAccounts => AccountToGroups
    case AccountToProxy => ProxyToAccounts
    case ProxyToAccounts => AccountToProxy
    case AccountToParent => AccountToChildren
    case AccountToChildren => AccountToParent
    case AccountToUsageLogs => UsageLogToAccount
    case UsageLogToAccount => AccountToUsageLogs
    case AccountToAccountGroups => AccountGroupToAccount
    case AccountGroupToAccount => AccountToAccountGroups
    case AccountGroupToGroup => GroupToAccountGroups
    case GroupToAccountGroups => AccountGroupToGroup
    case GroupToUsageLogs => UsageLogToGroup
    case UsageLogToGroup => GroupToUsageLogs
  }

  /** Both directions of an edge use the same columns. */
  lemma InverseEdges(e: Edge)
    ensures Inverse(Inverse(e)) == e && Owner(Inverse(e)) == Target(e)
    ensures ShapeOf(e).ManyToMany? ==> ShapeOf(Inverse(e)) == ManyToMany(ShapeOf(e).inner, ShapeOf(e).outer)
    ensures ShapeOf(e).ManyToOne? ==> ShapeOf(Inverse(e)) == OneToMany(ShapeOf(e).fk, ShapeOf(e).nullable)
    ensures ShapeOf(e).OneToMany? ==> ShapeOf(Inverse(e)) == ManyToOne(ShapeOf(e).fk, ShapeOf(e).nullable)
  {
  }

  // --- Rows ---

  datatype Cell = Null | Int(n: int) | Data(value: nat)
  type Row = map<Column, Cell>

  /** The integer in a column, if the column was read and is not NULL. */
  function Key(row: Row, c: Column): Option<int> {
    if c in row && row[c].Int? then Some(row[c].n) else None
  }

  /** An `int64` field: zero when the column was not read. */
  function IdOf(row: Row): int {
    match Key(row, Id) case Some(n) => n case None => 0
  }

  function Project(row: Row, cols: seq<Column>): Row {
    map c | c in cols && c in row :: row[c]
  }

  // --- Queries ---

  /** `User` is a caller's predicate; the load steps append the other two. */
  datatype Pred = User(token: nat) | IdIn(ids: seq<int>) | KeyIn(fk: Column, keys: seq<int>)

  /** A query builder by value. A `limit` or `offset` of zero is an absent clause. */
  datatype Query = Query(entity: Entity, preds: seq<Pred>, order: seq<nat>, fields: seq<Column>,
                         limit: nat, offset: nat, edges: Subqueries)
  datatype Subqueries = Subqueries(of: map<Edge, Query>)

  /** Sub-queries sit on edges of their owner and query the edge's target. */
  ghost predicate WellTyped(t: Entity, subs: Subqueries)
    decreases subs
  {
    forall e | e in subs.of ::
      Owner(e) == t && subs.of[e].entity == Target(e) && WellTyped(Target(e), subs.of[e].edges)
  }

  /** No sub-query, at any depth, has a Limit or an Offset. */
  ghost predicate Unbounded(subs: Subqueries)
    decreases subs
  {
    forall e | e in subs.of :: subs.of[e].limit == 0 && subs.of[e].offset == 0 && Unbounded(subs.of[e].edges)
  }
}
