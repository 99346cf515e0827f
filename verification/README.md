# A verified model of the account data layer and the audit-exception gate

The project models three parts of the repository and proves how they behave.

* **Eager loading** (`backend/ent/account_query.go`, `backend/ent/accountgroup_query.go` and the files generated from the
  same template): `All` on a tree of query builders runs one query per edge and scatters the results into the edge slots of
  the loaded objects. The result is proved equal to one lookup per node and edge, on the heap, for all three edge shapes,
  with the projection of columns, the error cases, the number of queries, and the effect of a window on a sub-query. `QueryBuilder` covers the
  builder objects and their cloning, `RowCodec` the decoding of rows.
* **Create, bulk create and update builders** (`backend/ent/account_create.go`, `backend/ent/account_update.go`): defaults,
  checks, the insert, the re-read of the inserted row; the chain of mutators of a bulk create under arbitrary hooks; the
  field, Clear and Add lists of updates and what sequences of calls amount to.
* **The audit-exception gate** (`tools/check_pnpm_audit_exceptions.py`): the text file and its line parser, the reading of
  the audit report, the index, the scan and the exit code.

`dafny verify dfyconfig.toml` checks everything.

## Structure

| files | content |
|---|---|
| `Collections`, `Text` | sequence and string operations |
| `Schema`, `SqlGraph` | entities, columns, edges, queries by value; what is assumed of the graph library and its database |
| `Projection`, `Trees`, `EagerSpec`, `EagerTheorems` | compiled column lists; batched and naive results by value; their equality and its limits |
| `Nodes`, `Graphs`, `EagerLoading` | entity objects, the scatter loops, the recursive loader on the heap |
| `QueryBuilder`, `QueryMeaning`, `RowCodec` | builder trees and cloning; what configuring them does to the rows of their queries; scanning and assigning rows |
| `AccountCreate`, `BulkCreate`, `BulkTheorems`, `BulkOutcomes`, `SingleSave`, `FieldDeltas`, `AccountUpdate` | the write builders |
| `ExceptionParser`, `ExceptionPrinter`, `ExceptionFile`, `AuditReport`, `AuditGate`, `GateTheorems` | the gate |

## What is assumed

`SqlGraph.Honest` states the contract of the graph library and the database: a query returns the rows that meet its
predicates, in a fixed order, with distinct primary keys (composite ones included), cut by Offset and Limit; a join returns
exactly the linked pairs, any number of times each, targets first appearing in the query's order. `AccountCreate.Stored` states what an insert leaves
in the row; `BatchCreate` is a function of the call number and the specs that gives ids or fails; an update applies its Clear
entries and then its Add entries, and an entry without targets clears the whole edge. Validators, default functions,
`json.Unmarshal`, `str.lower`, `date.fromisoformat` and the current date are parameters.

## Where the code does not do what one would expect

* A Limit or an Offset on a sub-query cuts the rows of the whole batch, not of each node
  (`EagerTheorems.SubLimitLosesRows`); `EagerTheorems.WindowedForeignKey` says exactly when this shows along a foreign key.
* Adding ids to a list edge and then clearing the edge leaves the added ids recorded, so they are linked
  (`AccountUpdate.ClearKeepsAdded`); the calls and their compiled form agree exactly when no added id is overtaken by a clear
  (`AccountUpdate.CallsAgree`). `ClearProxy` and `ClearParent` do not undo an earlier set, `ClearProxyID` and
  `ClearParentAccountID` do (`AccountUpdate.UniqueCallsAgree`).
* Setting a numeric field resets what was recorded for it, setting another field does not: a text or time that is cleared and
  then set is sent both as cleared and as set, and Adds after a Set or a Clear are sent beside it
  (`FieldDeltas.FieldInTwoLists`).
* In a bulk create, a hook that goes on with another mutation has the old one checked and the new one inserted; the single
  create checks what it inserts (`SingleSave.SavesDiffer`, `SingleSave.BulkInsertsUnchecked`). Without such hooks only
  checked mutations are inserted (`BulkOutcomes.SaveInsertsChecked`).
* A bulk create ignores the error of `defaults`. Without hooks its check fails then, but a hook can fill in what is missing, and
  the bulk succeeds where the single create has failed before any hook (`SingleSave.BulkSurvivesDefaults`).
* A clone of a query has lost the modifiers, row locks for instance, at every depth (`QueryBuilder.CloneIsExact`).
* The severity of an exception is compared only with the first finding of its key, so the order of the findings can decide
  the exit code (`GateTheorems.OrderMatters`, `GateTheorems.PassesInEveryOrder`).
* The script's comments say that a numeric `source` is handled, and for identifiers it is; but when it is the only title of
  a vulnerability's entry, joining the titles raises and the exit code is 1 (`GateTheorems.NumericSource`). A vulnerability
  whose `via` names no advisory is not looked at: a critical one passes without any exception (`GateTheorems.CriticalUnseen`),
  and in general it changes nothing (`GateTheorems.SilentIsIgnored`).
* A record is read back from the printed file exactly when no key or value holds a line break, its first key is trimmed and
  colon-free, its later keys moreover do not begin with `#` or `- ` and are not `version` or `exceptions`, and every value
  that is written without quotes is trimmed and not itself between two equal quotes
  (`ExceptionFile.RoundTripExactly`): on the first line of a record those words are harmless. A line break in a value can make
  the script fail (`ExceptionFile.BreakInValue`).
* An id column that is NULL is assigned as 0, all other NULLs leave the field alone (`RowCodec.LastIdWins`,
  `RowCodec.LastValidWins`).

## Model

| member | source | states |
|---|---|---|
| EagerLoading.AllIsNaive | backend/ent/account_query.go:550-626 | for every finite tree of nested eager-load queries without Limit or Offset on a sub-query: loading terminates, returns fresh objects that show the graph of one lookup per node and edge, at every depth with every selected column and its row's value (without a selection: every column of the table), fails exactly when a selected field of the query is no column or one of those lookups fails, and runs at most one query per query of the tree, however many rows there are |
| EagerTheorems.BatchIsNaive | backend/ent/account_query.go:550-846 | by value: the batched tree of every row of every batch equals the naive tree, at every depth and for all edge shapes, self-edges included |
| EagerTheorems.BatchFailsIffNaive | backend/ent/account_query.go:524-549 | the batched load fails exactly when some row's naive lookups fail |
| EagerTheorems.OwnedIsLookup | backend/ent/account_query.go:688-846 | the part of the batch's neighbours that goes to a node is what its own query returns, in the same order |
| EagerTheorems.LookupFinds | backend/ent/account_query.go:627-846 | in terms of cells: a lookup for one row finds exactly the rows of the edge's target that pass the query's predicates and that a foreign key, or a row of the join table, connects with it |
| EagerTheorems.LookupOrdered | backend/ent/account_query.go:627-846 | and it finds them in the order of the query |
| EagerTheorems.FailureMeans | backend/ent/account_query.go:688-708 | a lookup fails exactly when it is made (on a to-one edge: when there is a key) and selects a field that its target does not have, or a lookup below fails for a row that it finds |
| EagerTheorems.NaiveDepicts | backend/ent/account_query.go:550-626 | the naive tree of a row has, at every depth, all columns that were asked for and in every requested slot what the lookup for that row finds |
| EagerTheorems.BatchTreeDepicts | backend/ent/account_query.go:550-626 | the batched tree likewise, with each node's part of what the batch fetched |
| EagerTheorems.OneToManyPartitions | backend/ent/account_query.go:752-784 | with distinct owners every fetched child goes into exactly one list: the list lengths add up to the number of fetched rows, Limit or not |
| EagerTheorems.OwnedDistinct | backend/ent/account_query.go:627-687 | no edge list holds a neighbour twice: the primary keys in it differ, the composite key of `AccountGroup` included |
| EagerTheorems.WindowedForeignKey | backend/ent/account_query.go:688-846 | with any Offset and Limit on a sub-query along a foreign key a node gets what its own lookup returns if and only if, among the batch's neighbours, all before the offset are the node's and the cuts at the limit agree, or nothing in the window is the node's and it has no more neighbours than the offset skips |
| EagerTheorems.LimitedForeignKey | backend/ent/account_query.go:688-846 | with a Limit alone: if and only if the batch fits in the limit, or nothing of the node was cut off, or everything before the cut is the node's |
| EagerTheorems.LimitedJoin | backend/ent/account_query.go:627-687 | along a join, a Limit that cuts neither the batch's answer nor the node's own does not show |
| EagerTheorems.SkippedJoin | backend/ent/account_query.go:627-687 | an Offset that skips the whole answer of the batch shows exactly if it does not skip the node's own; one that skips the node's own shows exactly if it leaves the batch a joined row of the node |
| EagerSpec.RunsAtMostSize | backend/ent/account_query.go:584-624 | a load never runs a sub-query more than once, so the number of queries does not depend on the number of rows |
| EagerTheorems.SubLimitLosesRows | backend/ent/account_query.go:785-814 | a database and a query with Limit 1 on usage logs for which a node loses the row that its own lookup finds |
| EagerLoading.All | backend/ent/account_query.go:307-314 | any nested query, windows included: invalid fields are reported exactly when some performed query has one, no other error can occur, otherwise the objects show the batched tree, every node has every selected column with its row's value (without a selection: every column), those with equal foreign keys share their neighbour object, the lists of a join share one object per target, and exactly the performed queries have run |
| EagerLoading.PrepareQuery | backend/ent/account_query.go:524-549 | rejects a query exactly when it selects a field that is no column |
| EagerLoading.LoadManyToOne | backend/ent/account_query.go:688-751 | fills exactly the edge's slot of every node with the node's neighbour, if any was fetched, the same object for exactly the nodes with the same key; the unexpected-key error cannot occur; without keys nothing is queried and nothing fails |
| EagerLoading.LoadOneToMany | backend/ent/account_query.go:752-846 | fills exactly the edge's slot of every node with the fetched rows whose foreign key is its id, in fetched order; the nil-key and unexpected-key errors cannot occur |
| EagerLoading.LoadManyToMany | backend/ent/account_query.go:627-687 | for any repetition of join rows and any iteration order of the inner maps: fills exactly the edge's slot of every node with the fetched targets that the join rows pair it with, in order of first appearance; each target is one object, in whatever lists it is |
| EagerLoading.ScanJoin | backend/ent/account_query.go:654-670 | over the join rows: each target is kept once, at its first appearance, and the id map records exactly the pairs |
| EagerLoading.JoinOwns | backend/ent/account_query.go:664-668 | a node is in a target's inner map if and only if some join row pairs them |
| EagerLoading.Decode | backend/ent/account_query.go:563-571 | one new object per row, all different, with the requested edges marked loaded and no slot set |
| EagerLoading.LoadEdges | backend/ent/account_query.go:584-624 | the load steps in order: each requested edge is filled, the others stay unset, and the first failing edge ends the load |
| Nodes.IndexByKey | backend/ent/account_query.go:689-701 | the queried ids are the non-nil foreign keys, without repetition, and each is mapped to exactly its nodes, in order |
| Nodes.IndexAndInit | backend/ent/account_query.go:753-761 | indexes the nodes by id and empties the edge list of each |
| Nodes.ScatterOne | backend/ent/account_query.go:709-718 | after all neighbours every node has the last neighbour with its key, other slots unchanged |
| Nodes.ScatterByOwner | backend/ent/account_query.go:772-782 | every node's list is the neighbours whose key is its id, in order, other slots unchanged |
| Nodes.AppendTo | backend/ent/account_query.go:682-684 | appending to the nodes of an inner map has the same effect in every iteration order |
| Nodes.ScatterByJoin | backend/ent/account_query.go:677-685 | every node's list is the neighbours whose inner map has the node, in order |
| Graphs.FillManyToOne | backend/ent/account_query.go:709-718 | after the scatter a node whose slot is set shares the neighbour object with exactly the nodes that have the same key |
| Graphs.FillManyToMany | backend/ent/account_query.go:677-685 | after the scatter the lists of all nodes hold one object per target id |
| Graphs.OneOrErrMeaning | backend/ent/account.go:118-138 | after loading, the to-one accessor gives NotLoaded exactly when the edge was not requested, NotFound exactly when it was requested and nothing was fetched, and otherwise the neighbour that shows its tree |
| Graphs.ManyOrErrMeaning | backend/ent/account.go:109-166 | the list accessor gives NotLoaded exactly when the edge was not requested, and otherwise the list that shows the loaded trees |
| Schema.EdgeEnds | backend/ent/account.go:73-90 | ids are only read from entities that have an id column, and a foreign key decodes to a pointer exactly when it may be NULL |
| Schema.EdgesOfOwner | backend/ent/account_query.go:584-624 | the load steps of an entity are exactly its edges |
| Schema.InverseEdges | backend/ent/account/account.go:95-128 | an edge and the one that is read the other way round use the same columns |
| Projection.CompileColumns | backend/ent/account_query.go:858-880 | the column list of a compiled query |
| Projection.RequestedKept | backend/ent/account_query.go:858-880 | for every query the projected row has each column that was asked for, with the row's value: every column of the table without a selection, and otherwise every selected one |
| Projection.LinkedKept | backend/ent/account_query.go:762-764 | and so on a sub-query, to whose selection the foreign key is added |
| Projection.IdFirstOnce | backend/ent/account_query.go:866-873 | for every selection the id column is first and occurs once, where the entity has one |
| Projection.SelectedColumns | backend/ent/accountgroup_query.go:448-467 | for every selection the list holds exactly the id (if there is one), the selected fields and the foreign keys of requested to-one edges |
| Projection.ProjectionKeepsKeys | backend/ent/account_query.go:874-879 | decoding the projected row gives the same id and the same foreign keys for requested to-one edges as the full row |
| Projection.ProjectionKeepsLink | backend/ent/account_query.go:762-764 | decoding a projected child gives the foreign key through which its owner is found |
| QueryBuilder.Append | backend/ent/account_query.go:44-47 | appending gives the old items and the new ones, in the same array whenever it has room |
| QueryBuilder.SharedAppends | backend/ent/account_query.go:388-399 | of two appends to one slice with room the second overwrites the first: why the clone copies its slices |
| QueryBuilder.Builder.Clone | backend/ent/account_query.go:388-408 | the clone consists of new objects and new backing arrays at every depth and has the original's value at every depth, except that all modifiers are gone |
| QueryBuilder.Builder.Of | backend/ent/account_query.go:388-408 | a builder put together from parts owns these parts' objects and arrays, and a new one for its modifiers |
| QueryBuilder.Builder.Configure | backend/ent/account_query.go:44-72 | each configuring method changes its own component only; what that does to the query is said by the next rows |
| QueryMeaning.LimitMeans | backend/ent/account_query.go:50-53 | after `Limit(n)` a query without window returns its first n rows |
| QueryMeaning.OffsetMeans | backend/ent/account_query.go:56-59 | after `Offset(n)` what is left when its first n rows are skipped |
| QueryMeaning.PageMeans | backend/ent/account_query.go:50-59 | both together, in either order: n rows after the first m |
| QueryMeaning.WhereMeans | backend/ent/account_query.go:44-47 | after `Where` it returns, in order, those of its rows that pass the further predicates too |
| QueryMeaning.OrderMeans | backend/ent/account_query.go:69-72 | after `Order` the table in the longer order |
| QueryMeaning.SelectMeans | backend/ent/account_query.go:511-517 | after `Select` the columns read are the id, those selected before and now, and the keys of requested edges |
| QueryMeaning.FreshQuery | backend/ent/account_query.go:44-72 | before any step it returns the whole table |
| QueryMeaning.WithMeans | backend/ent/account_query.go:412-474 | `With*` requests its edge, and no other, by a query for all rows of the target |
| QueryMeaning.LastCounts | backend/ent/account_query.go:50-66 | for every sequence of steps: of several Limits, Offsets or Uniques the last one counts |
| QueryMeaning.StepsAddUp | backend/ent/account_query.go:44-72 | for every sequence of steps: predicates, order terms and selected columns add up in the order of the calls |
| QueryMeaning.StepReaches | backend/ent/account_query.go:412-474 | a step on a path of edges reaches the sub-builder at its end, and does nothing when the path leads nowhere |
| QueryMeaning.StepSpares | backend/ent/account_query.go:412-474 | every builder that is not at the end of the path or below it keeps its own configuration |
| QueryMeaning.ConfiguredQuery | backend/ent/account_query.go:584-624 | so the sub-query that eager loading runs at a path is the configured one |
| QueryBuilder.Builder.Attach | backend/ent/account_query.go:412-474 | `With*` replaces the builder on its edge by a new, empty one and leaves the others alone |
| QueryBuilder.Builder.StepAt | backend/ent/account_query.go:412-474 | configuring a sub-builder through any path changes exactly that sub-builder's part of the tree |
| QueryBuilder.Interleave | backend/ent/account_query.go:44-72 | steps on two disjoint trees, interleaved in any way: each tree ends as if only its own steps had happened |
| QueryBuilder.CloneAndDiverge | backend/ent/account_query.go:386-408 | an original and its clone are such a pair, appends in place included |
| QueryBuilder.CloneIsExact | backend/ent/account_query.go:388-408 | a clone has the value of what it was made from if and only if no builder of the tree has a modifier |
| QueryBuilder.CloneKeepsQuery | backend/ent/account_query.go:388-408 | the modifiers apart, which `sqlAll` passes on to the database, the clone's query is that of the original, at every depth |
| QueryBuilder.CloneTwice | backend/ent/account_query.go:388-408 | cloning a clone changes nothing more |
| RowCodec.ScanValues | backend/ent/account.go:168-190 | one new cell per column, of the column's type |
| RowCodec.AccountNode.AssignRow | backend/ent/account.go:193-417 | the fields and selected values after a row, and the first error, with what was assigned before it |
| RowCodec.NoTypeErrors | backend/ent/account.go:168-417 | for every column list the cells made by `scanValues` never give a type error: only a malformed document can fail |
| RowCodec.LastValidWins | backend/ent/account.go:203-413 | a scalar field ends with its last value that is not NULL, or as it was, whatever the order and repetition of columns |
| RowCodec.LastIdWins | backend/ent/account.go:199-204 | the id ends with its last occurrence, and a NULL id as zero |
| RowCodec.UnknownSelected | backend/ent/account.go:412-413 | unknown columns go to the selected values, the last occurrence winning, and known ones never do |
| RowCodec.WrongTypeReported | backend/ent/account.go:199-411 | a cell is refused exactly when it has another type than the one that is scanned for its column |
| RowCodec.DocumentDecoded | backend/ent/account.go:249-264 | a document is decoded into the one that the field holds, no bytes leave it alone, malformed ones are the error |
| RowCodec.SpareCells | backend/ent/account.go:193-197 | cells beyond the columns are ignored; too few are an error, and the only cause of that one |
| RowCodec.ScanJoined | backend/ent/account_query.go:654-660 | the wrapped scan puts one integer cell before those of the target's columns |
| RowCodec.JoinAligned | backend/ent/account_query.go:661-669 | both front cells have the asserted type, the shifted cells fit the shifted columns, and the inner id is the id that the shifted assignment decodes |
| AccountCreate.Builder.Defaults | backend/ent/account_create.go:527-585 | the fields after `defaults` and its error |
| AccountCreate.DefaultsMean | backend/ent/account_create.go:527-585 | `defaults` succeeds exactly when no needed default function is missing, and then every field has its own value or its default |
| AccountCreate.DefaultsByKind | backend/ent/account_create.go:527-585 | every required column but name, platform and type has a default, times and documents from a function, the others from a constant, and no other column has one |
| AccountCreate.Builder.Check | backend/ent/account_create.go:588-662 | the first violated check, in order |
| AccountCreate.CheckMeans | backend/ent/account_create.go:588-662 | `check` accepts exactly the mutations with all required fields in which every validated field is valid |
| AccountCreate.OrdinaryCreate | backend/ent/account_create.go:527-662 | after successful defaults `check` accepts exactly when name, platform and type are set and every validated field, given or defaulted, is valid |
| AccountCreate.FailedDefaultsFailCheck | backend/ent/account_create.go:527-662 | whenever `defaults` fails, `check` fails on what it left: without hooks, ignoring its error is safe |
| AccountCreate.CheckedRowComplete | backend/ent/schema/account.go:50-190 | an insert that passed `check` writes every NOT NULL column |
| AccountCreate.Builder.CopyFields | backend/ent/account_create.go:688-803 | the copied fields are all columns but the id and the two foreign keys |
| AccountCreate.Builder.CreateSpec | backend/ent/account_create.go:682-890 | node and insert of a mutation; the foreign keys of the node come from the edges |
| AccountCreate.LinkMember | backend/ent/account_create.go:804-888 | the insert has an edge entry exactly for every edge with targets, and it has exactly these targets |
| AccountCreate.NothingLost | backend/ent/account_create.go:682-803 | whatever fields are set, the insert writes exactly these and the node has them all |
| AccountCreate.Builder.SqlSave | backend/ent/account_create.go:664-680 | a failed check or insert changes nothing; success gives the node its id and marks the mutation done |
| AccountCreate.CreateThenRead | backend/ent/account.go:168-417 | decoding the inserted row, with the columns in any order, gives the node that the builder returned, with every field that was set, foreign keys carried as edges included |
| BulkCreate.Bulk.PlanOne | backend/ent/account_create.go:2111-2116 | the check looks at the builder's own mutation, the spec is made from the one that arrived |
| BulkCreate.Bulk.InsertAll | backend/ent/account_create.go:2120-2127 | the batch insert sends all specs in builder order and fills in the ids |
| BulkCreate.Bulk.FinishOne | backend/ent/account_create.go:2132-2137 | on the way back node and mutation get the id and the mutation is done |
| BulkCreate.Bulk.Mutate | backend/ent/account_create.go:2106-2143 | one mutator of the chain, hooks included, against the reference execution |
| BulkCreate.Bulk.Save | backend/ent/account_create.go:2095-2152 | the whole bulk save: all nodes or none are returned |
| BulkTheorems.ExecKeeps | backend/ent/account_create.go:2095-2152 | what every step of the chain keeps, every run keeps, whatever the hooks do |
| BulkTheorems.SaveIsSafe | backend/ent/account_create.go:2111-2127 | for all hooks: every batch insert carries, in builder order, exactly the specs of the last checks of all builders, none of which failed |
| BulkTheorems.SaveIsNested | backend/ent/account_create.go:2140-2143 | for all hooks: every event happens inside exactly the hooks that enclose it, builder 0 and `hooks[0]` outermost, and all hooks are left at the end |
| BulkTheorems.SaveNodesMatchSpecs | backend/ent/account_create.go:2116-2137 | for all hooks: every node is, but for its id, the one node that all mutations with the spec at its place have, so that the round trip of the single create applies to each |
| BulkOutcomes.SaveInsertsAtMostOnce | backend/ent/account_create.go:2117-2127 | with hooks that call the next mutator at most once the batch insert runs at most once |
| BulkOutcomes.SaveAllOrNothing | backend/ent/account_create.go:2117-2152 | with hooks that call once and pass the outcome through: rows are inserted if and only if the save succeeds, by one batch insert (none for a bulk without builders, which succeeds); on success every node and mutation has the id that the database answered at its place and every mutation is done, on failure none is; if the database fills every id, every node has its row's id |
| BulkOutcomes.SaveWithoutHooks | backend/ent/account_create.go:2095-2152 | without hooks, for any number of builders, none included: success exactly if every defaulted mutation passes its check and the database, if there is anything to send, accepts the batch of their specs in order; node k is then the node of mutation k with the k-th answered id |
| BulkOutcomes.OutermostHook | backend/ent/account_create.go:2140-2148 | the first hook of the first builder is the outermost: when it returns at once, nothing else happens |
| BulkOutcomes.SaveInsertsChecked | backend/ent/account_create.go:2111-2116 | with hooks that pass on the mutation they were given, every inserted spec is that of a mutation which `check` accepts |
| SingleSave.SaveHereIsSqlSave | backend/ent/ent.go:568-599 | the innermost step of the single create is `sqlSave` |
| SingleSave.SingletonBulk | backend/ent/account_create.go:497-502 | if no hook replaces the mutation, the single save ends in the same state, with the same events, as a bulk of one, and both succeed or both fail, if defaults succeed; otherwise it fails before any hook |
| SingleSave.SingletonWithoutHooks | backend/ent/account_create.go:2104-2113 | without hooks the outcomes agree on failing defaults too, and nothing is inserted |
| SingleSave.SavesDiffer | backend/ent/account_create.go:2104-2116 | for all hooks that call once and pass the outcome through, replacing the mutation or not, and whether defaults succeed or not: the bulk of one succeeds exactly if the builder's own mutation passes the check and the database takes the one that arrives, the single save exactly if defaults succeed, the mutation that arrives passes and the database takes it |
| SingleSave.BulkSurvivesDefaults | backend/ent/account_create.go:2104-2113 | a hook that fills in what failed defaults left unset: the bulk of one succeeds, the single save fails, and no mutation is replaced |
| SingleSave.BulkInsertsUnchecked | backend/ent/account_create.go:2111-2116 | so a bulk inserts a row without a name that the single save refuses |
| AccountUpdate.UpdateMutation.AddIds | backend/ent/mutation.go:3879-3886 | what adding ids records |
| AccountUpdate.UpdateMutation.RemoveIds | backend/ent/mutation.go:3899-3907 | what removing ids records: they are no longer added |
| AccountUpdate.UpdateMutation.ClearIds | backend/ent/mutation.go:3889-3891 | what clearing a list edge records: the added ids stay recorded |
| AccountUpdate.UpdateMutation.SetId | backend/ent/mutation.go:3960-3962 | what setting a unique edge records |
| AccountUpdate.UpdateMutation.ClearIdField | backend/ent/mutation.go:2821-2824 | clearing the field of a unique edge drops the recorded id |
| AccountUpdate.UpdateMutation.ClearUnique | backend/ent/mutation.go:3933-3936 | clearing a unique edge keeps the recorded id |
| AccountUpdate.UpdateMutation.CompileEdges | backend/ent/account_update.go:949-1153 | the Clear and Add lists, edge by edge |
| AccountUpdate.EdgeEntries | backend/ent/account_update.go:949-1153 | which entries the two lists have: a cleared edge is listed without targets and its removals are left out |
| AccountUpdate.RemovedMeans | backend/ent/mutation.go:3889-3907 | after any calls an id is recorded as removed exactly if some call removed it, and the edge as cleared exactly if some call cleared it |
| AccountUpdate.AddedMeans | backend/ent/mutation.go:3879-3907 | and an id as added exactly if its last mention is an Add |
| AccountUpdate.UpdateMutation.CompileFields | backend/ent/account_update.go:805-948 | the lists of fields that are set, increased and cleared, in the order of the columns |
| AccountUpdate.UpdatableFields | backend/ent/account_update.go:805-948 | every field but the id, the creation time and the two keys that are set as edges can be updated |
| AccountUpdate.ClearableFields | backend/ent/schema/account.go:54-202 | those that may be NULL can be cleared, those that are numbers increased |
| AccountUpdate.UpdateMutation.SetField | backend/ent/account_update.go:182-186 | setting a field; a numeric one is reset first |
| FieldDeltas.FieldInTwoLists | backend/ent/mutation.go:2597-2643 | for every sequence of calls on a field, exactly when it ends up in two lists of the update: set and cleared if it is not numeric, was cleared at some time and set last; increased besides if the last calls are Adds after a Set or after a Clear |
| FieldDeltas.LastSetCounts | backend/ent/mutation.go:3034-3038 | the value sent is that of the last Set, unless a Clear follows |
| FieldDeltas.IncreasesAddUp | backend/ent/mutation.go:3067-3073 | the increase sent is the sum of the amounts since the last Set or Clear, wrapped to 64 bits |
| FieldDeltas.RealIncreasesAddUp | backend/ent/mutation.go:3123-3129 | and so of the rate multiplier, rounding apart |
| AccountUpdate.UpdateReachesTarget | backend/ent/account_update.go:949-1153 | running the Clear and then the Add list turns the links of every edge into ((cleared ? nothing : old minus removed) plus added), the new id or nothing on a unique edge, and leaves other edges alone |
| AccountUpdate.Replay | backend/ent/account_update.go:182-186 | making any calls on a new builder, in any order over edges, fields and predicates, records on each exactly its own calls, and the predicates in order |
| AccountUpdate.ReplayAndSave | backend/ent/account_update.go:793-1165 | from the calls to the database: what the many-row save sends is applied to exactly the rows that pass the predicates of all `Where` calls, running its lists gives every list edge what the calls in turn give plus the stale ids, every unique edge what its calls intend, and the field lists hold exactly the values, increases and clears that the calls on each field leave; it succeeds exactly if every validated field that the calls leave set is valid and the database accepts |
| AccountUpdate.ReplayAndSaveOne | backend/ent/account_update.go:1946-2336 | the same of the one-row save, which is applied to no row but the one with its id |
| AccountUpdate.CallsAndStale | backend/ent/mutation.go:3879-3907 | what a sequence of add, remove and clear calls compiles to is the result of the calls in turn plus the stale ids, and the two are disjoint |
| AccountUpdate.StaleMeans | backend/ent/mutation.go:3879-3907 | the stale ids are those whose last mention in an Add or Remove is an Add that some Clear follows |
| AccountUpdate.CallsAgree | backend/ent/mutation.go:3879-3907 | the two agree if and only if there is no such id |
| AccountUpdate.ClearKeepsAdded | backend/ent/mutation.go:3889-3891 | add then clear keeps the added id |
| AccountUpdate.UniqueCallsAgree | backend/ent/mutation.go:3933-3936 | on a unique edge the last call decides, if and only if it is not an edge clear after a surviving set |
| AccountUpdate.UpdateMutation.Check | backend/ent/account_update.go:759-791 | accepts exactly when every validated field that is set is valid |
| AccountUpdate.UpdateMutation.SaveMany | backend/ent/account_update.go:793-1164 | `sqlSave` of the many-row builder: sends the recorded predicates, the field lists and the edge lists, succeeds exactly if check and database accept, and sets the done flag only then |
| AccountUpdate.UpdateMutation.Defaults | backend/ent/account_update.go:747-756 | `updated_at` gets its default unless it is set; the error exactly when it is not set and has no default function |
| AccountUpdate.UpdateMutation.SaveDefaulted | backend/ent/account_update.go:717-722 | `Save` without hooks: defaults, then `sqlSave`; nothing is sent when the default or the check fails |
| AccountUpdate.UpdateMutation.SaveOne | backend/ent/account_update.go:1946-2338 | `sqlSave` of the one-row builder: succeeds exactly if the check passes, an id is set, the selected columns exist, the database accepts and the row it reads back decodes; it then returns the decoded row, and nothing otherwise |
| AccountUpdate.UpdateMutation.ReadBack | backend/ent/account_update.go:1956-1967 | the columns read back: the id first and once, then the selected ones |
| AccountUpdate.ReadColumnsMean | backend/ent/account_update.go:1956-1967 | they are exactly the id and the selected ones, or all columns without a selection |
| ExceptionParser.ParseExceptions | tools/check_pnpm_audit_exceptions.py:23-48 | parsing raises exactly on an item line without a colon, and otherwise gives one record per item |
| ExceptionParser.UnquoteMeans | tools/check_pnpm_audit_exceptions.py:12-20 | a value between two equal quotes is read without them, a lone quote as nothing, every other value as it is |
| ExceptionParser.ClassifyColon | tools/check_pnpm_audit_exceptions.py:29-45 | every line with a colon: what is before the first colon decides whether it is a comment or header, an item or a pair, and its value is the trimmed rest, unquoted |
| ExceptionParser.ClassifyNoColon | tools/check_pnpm_audit_exceptions.py:29-45 | every line without a colon is skipped, or makes the script fail if it is an item |
| ExceptionParser.LastPairWins | tools/check_pnpm_audit_exceptions.py:43-45 | of several pairs of a record with one key the last one counts |
| ExceptionParser.OneRecordPerItem | tools/check_pnpm_audit_exceptions.py:34-47 | as many records as item lines |
| ExceptionParser.ItemHasText | tools/check_pnpm_audit_exceptions.py:38-41 | after the dash of an item line there is always text |
| ExceptionParser.RecordsConcat | tools/check_pnpm_audit_exceptions.py:23-48 | parsing a concatenation: the pairs at the head of the second part extend the last record of the first |
| ExceptionParser.ConcatComposes | tools/check_pnpm_audit_exceptions.py:23-48 | it is the concatenation of the parses if and only if there is nothing to extend or the extension repeats what the last record says |
| ExceptionParser.SkipsAreIgnored | tools/check_pnpm_audit_exceptions.py:30-33 | a blank, comment or header line anywhere changes nothing |
| ExceptionFile.RoundTripExactly | tools/check_pnpm_audit_exceptions.py:12-48 | for a printer that writes each value plain, in double or in single quotes: the text of printed records is read back as these records if and only if their keys have the stated form, every value that is written plain is trimmed and not between two equal quotes of its own, and no key or value holds a line break |
| ExceptionFile.LineEnds | tools/check_pnpm_audit_exceptions.py:27-29 | a line ends at a line feed, at a carriage return, at both together, or with the text |
| ExceptionFile.LinesOfFile | tools/check_pnpm_audit_exceptions.py:27-29 | cutting a file of lines without breaks gives these lines |
| ExceptionFile.BreakInValue | tools/check_pnpm_audit_exceptions.py:27-41 | a value with a line break for which the printed line alone is read back and the file makes the script fail |
| ExceptionPrinter.LinesRoundTrip | tools/check_pnpm_audit_exceptions.py:12-48 | line by line, printed records are read back if and only if their keys and plain values have the stated form |
| ExceptionPrinter.ReadMeans | tools/check_pnpm_audit_exceptions.py:12-20 | a single value is read back exactly when its style suits it |
| ExceptionPrinter.ClassifyLater | tools/check_pnpm_audit_exceptions.py:29-45 | what a printed continuation line is read as, for every clean key |
| AuditReport.IterVulns | tools/check_pnpm_audit_exceptions.py:64-111 | the findings of both sections in order; raises exactly when some title is a number |
| AuditReport.AdvisoryIdOrder | tools/check_pnpm_audit_exceptions.py:51-61 | the identifier of an advisory is the first of its GHSA id, URL, first CVE, id as text, title, advisory and overview that is given and neither empty nor zero |
| AuditReport.AdvisoryNameOrder | tools/check_pnpm_audit_exceptions.py:69-71 | its name is the module name or else the name, its severity is as reported |
| AuditReport.ViaOrder | tools/check_pnpm_audit_exceptions.py:90-102 | the identifier and the title of an entry of a vulnerability, likewise |
| AuditReport.ViaForms | tools/check_pnpm_audit_exceptions.py:87-108 | a text as `via` stands for the list of that text, an empty one for no entry, and what is neither text nor list is ignored |
| AuditReport.ConcatViaItems | tools/check_pnpm_audit_exceptions.py:88-111 | the findings of a vulnerability are in the order of its entries |
| AuditReport.AdvisoriesFirst | tools/check_pnpm_audit_exceptions.py:66-80 | the findings of the first section come first, one per advisory |
| AuditReport.DecimalReads | tools/check_pnpm_audit_exceptions.py:57-131 | a whole number that is used as an identifier is written in digits, without leading zeros, and reads as itself |
| AuditReport.ReadVulnerability | tools/check_pnpm_audit_exceptions.py:82-111 | the findings of one vulnerability |
| AuditReport.FromVulnerabilitiesMember | tools/check_pnpm_audit_exceptions.py:80-111 | a finding of the second section is exactly one non-empty identifier of one entry of one vulnerability |
| AuditReport.SilentVulnerability | tools/check_pnpm_audit_exceptions.py:82-111 | a vulnerability leaves the findings of a report as they are if and only if no entry of its `via` has an identifier |
| AuditGate.BuildIndex | tools/check_pnpm_audit_exceptions.py:153-185 | the errors, in order, and an index that holds the first valid exception of every key and nothing else |
| AuditGate.Scan | tools/check_pnpm_audit_exceptions.py:187-219 | the errors, the missing and the expired findings, in order |
| GateTheorems.Gate | tools/check_pnpm_audit_exceptions.py:142-243 | the exit code is 0 if and only if the exception file parses, the report is readable, and the parsed exceptions and the findings pass; what passing asks is said field by field by `PassesMeans` |
| GateTheorems.PassesMeans | tools/check_pnpm_audit_exceptions.py:152-243 | passing, field by field: every exception has all five fields, a date and a package and advisory that are not blank, no two agree on both, and every named high or critical finding has an identifier and an exception for its package and identifier, not expired on the day, whose severity, if not blank, is that of the first finding of its kind |
| GateTheorems.WrittenListJudged | tools/check_pnpm_audit_exceptions.py:23-48 | a list that can be written down is judged by the records that were written, however their values are quoted |
| GateTheorems.ProblemMeans | tools/check_pnpm_audit_exceptions.py:156-185 | which error an exception causes: a missing field, else a date that is none, else a blank package or advisory, else an earlier exception for the same |
| GateTheorems.HandledIsFirst | tools/check_pnpm_audit_exceptions.py:193-207 | which findings are reported or looked up: the serious ones without identifier, and the first of each kind of the others |
| GateTheorems.VerdictMeans | tools/check_pnpm_audit_exceptions.py:207-219 | for what they are reported: no good exception fits, or the first good one that fits has another severity, or has expired |
| GateTheorems.LastDay | tools/check_pnpm_audit_exceptions.py:216-219 | an exception counts on its last day and not on the next |
| GateTheorems.OthersAreIgnored | tools/check_pnpm_audit_exceptions.py:193-196 | a finding that is unnamed or neither high nor critical, anywhere in the report, leaves the outcome as it is |
| GateTheorems.OtherFieldsIgnored | tools/check_pnpm_audit_exceptions.py:156-185 | other fields of an exception do not matter |
| GateTheorems.ExcusedByGhsa | tools/check_pnpm_audit_exceptions.py:51-61 | whatever else an advisory carries, an exception for its GHSA id excuses it |
| GateTheorems.SilentIsIgnored | tools/check_pnpm_audit_exceptions.py:82-111 | a vulnerability without identifiers, whatever its severity, leaves the outcome as it is, unless its titles cannot be joined: then the exit code is 1 |
| GateTheorems.CriticalUnseen | tools/check_pnpm_audit_exceptions.py:84-111 | a critical vulnerability with an empty `via` passes with an empty exception file |
| GateTheorems.NumericSource | tools/check_pnpm_audit_exceptions.py:109-111 | an entry with a numeric `source` alone has that number as identifier, and yet no exception file lets the report pass |
| GateTheorems.Validate | tools/check_pnpm_audit_exceptions.py:152-243 | the same for parsed exceptions and findings |
| GateTheorems.EarlierDayPasses | tools/check_pnpm_audit_exceptions.py:216-219 | what passes today passed on every earlier day |
| GateTheorems.PermutedExceptions | tools/check_pnpm_audit_exceptions.py:156-185 | the outcome does not depend on the order of the exceptions |
| GateTheorems.SameFindings | tools/check_pnpm_audit_exceptions.py:192-215 | nor on the order and repetition of the findings, if findings with one key agree on the severity |
| GateTheorems.PassesInEveryOrder | tools/check_pnpm_audit_exceptions.py:203-215 | in general it passes in every order if and only if it passes and no finding, first or not, contradicts its exception's severity |
| GateTheorems.OrderMatters | tools/check_pnpm_audit_exceptions.py:211-215 | two findings whose order decides |
| GateTheorems.EachKeyOnce | tools/check_pnpm_audit_exceptions.py:203-207 | the findings that reach the index have different keys, and every key is among them |
| GateTheorems.CountsConserve | tools/check_pnpm_audit_exceptions.py:188-219 | missing, expired and covered findings add up to the number of different keys, however often these repeat |

## Left out

- EagerTheorems.LimitedJoin: one direction only; of a join answer that is cut in the middle, the assumed database says no more than the order of first appearances, so cut answers for different batches are unrelated.
- AccountCreate.Builder.CreateSpec: default fields of the join rows that group links create are not in the spec.
- SingleSave.SingletonBulk: the outcome of a hook is success or failure; the value it returns is not modelled (the single save returns the outermost hook's, the bulk its own nodes).
- AccountUpdate.UpdateMutation.SaveDefaulted: the hooks around an update are not modelled.
- Running one builder twice: a load step leaves its key predicate on the sub-builder, so a second run has one more; queries are values in the loader and run once.
- Interceptors, transactions, contexts, the effect of modifiers (row locks), path traversal, `GroupBy`, `Aggregate`, `Scan` and the building of SQL.
- Upserts (`OnConflict`) and constraint errors told apart from other database errors.
- Edges of `Group`, `Proxy` and `UsageLog` to entities other than the five in `Schema`; they are generated from the same template.
- The unrolled blocks of `sqlAll`, `createSpec`, `defaults`, `check` and the update builders, one per edge or column, are loops over the list of these edges or columns in the source's order; the identical passages of the two update builders are one method.
- What the database does with a field that is in two lists of an update: their order is decided inside the graph library.
- Children or usage logs that already have another owner when an update adds them: the database's business.
- Hooks are programs over the mutation and the outcome of `next`: they cannot keep `next` for later, run concurrently, reach the mutations of other builders, or be nil.
- Two entries of a bulk that are the same builder object, and mutations or values of an unexpected Go type.
- The mutation's id points at the node's id field in the source; here both are values that are set together.
- Slices that start inside their backing array, and slices that a caller keeps of a builder's own.
- Go's 64-bit integers are unbounded where the modelled code only compares and copies them; the sums of `Add` calls wrap. Floats are reals.
- JSON documents and times are opaque values; `CreateThenRead` asks that a written document is read back as it was.
- Validation of `quota_dimension` and the other validators are parameters.
- `str.lower` outside the model: keys are compared after an arbitrary lower-casing function, the same for exceptions and findings.
- Audit values that are neither text, whole numbers nor null where the script expects a scalar, and sections of the wrong shape inside a vulnerability.
- Opening and decoding files, arguments, message texts and titles in them.
- One-line setters, `*X` wrappers, `String` methods and delete builders: each is settled by reading it.
