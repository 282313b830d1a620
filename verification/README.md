# Account persistence and release tooling: a Dafny model

This project models four parts of the repository and proves what they promise.

* **Eager loading of accounts** (`Entities`, `GroupLoading`, `ToOneIndex`, `ToOneLoading`, `ToManyLoading`,
  `AccountLoading`, `JoinAgreement`, `Projection`, `EagerReuse`, `QueryBuilder`). The generated loaders build hash indexes over a heap
  of nodes, ask the database once per edge and scatter the answer back into `Edges`. They are classes and methods that
  write edge fields; each is proved against the nested-loop join it speeds up, for any answer, any repeated id, any
  iteration order of Go maps and every error exit. The independent routes to the same fact (groups directly or through
  the join rows, parent or children) are shown to agree. Query builders are trees of objects with shared backing arrays;
  `Clone` is proved to be a deep copy that no later call can reach across.
* **Creating and updating accounts** (`AccountSchema`, `AccountCodec`, `AccountRoundTrip`, `AccountCreation`,
  `BulkCreate`, `BulkTrace`, `Upsert`, `FieldMutation`, `EdgeMutation`, `UpdateSpec`, `EdgeUpdate`, `KeyUpdate`,
  `FamilyUpdate`, `UpdateTransaction`, `AccountUpdate`). The
  32 columns are written by `createSpec` and read by `scanValues`/`assignValues`; `AccountCreateBulk.Save` is a knot of
  mutually calling mutators inside hooks whose trace is characterised completely; updates record calls now and apply them
  later, through two generated bodies that are transcribed one by one and shown to send the same; what is sent is followed
  into the tables, where parent and children share one column and an update is applied or refused as a whole.
* **The audit-exception gate** (`AuditExceptions`, `AuditRoundTrip`, `AuditReport`, `AuditFields`, `AuditGate`, `AuditVerdict`, `AuditOrder`). A line
  parser with the printer it inverts, a two-format report reader, an index built with rejection, and a deduplicating
  pass, tied to one declarative condition for exit code 0.
* **The Docker Hub tag cleanup** (`TagCleanup`). Pagination, guards and deletes over a registry object that records its
  state after every request.

Where Go compares, stores or iterates over things the model cannot see (SQL, JSON bytes, function values), they are
parameters: a query is a function from the ids asked about to an answer or an error, a validator is a function on
strings, `str.lower` and `date.fromisoformat` are functions given to the gate. Integers are unbounded; nothing modelled
here does arithmetic on them.

## What turned out to differ from what is documented or expected

The model follows the code in each case.

* `UpdateNewValues` is documented as equivalent to `OnConflict(sql.ResolveWithNewValues())`. The two settle on the same
  actions exactly when `created_at` is not set (`Upsert.SameAsResolveWithNewValuesIff`), and leave different rows exactly
  when it is set to something else than is stored (`Upsert.RowsDifferIff`); a mutation that passes `check` always sets it
  (`Upsert.CheckedRowsDifferIff`).
* `Clone` is documented to include all associated steps; it drops `modifiers` in every builder of the tree
  (`QueryBuilder.CloneKeepsAllButModifiers`: the copy says the same exactly when there are none).
* `ClearGroups` does not withdraw a pending addition, so add-then-clear leaves the added group linked
  (`EdgeMutation.ClearDoesNotWithdrawAdd`, exact condition in `EdgeMutation.DeferredIsPerformedIff`); `ClearProxy` and
  `ClearParent` likewise (`EdgeUpdate.ToOneCallsTakeEffect`).
* An update can send one column both as set and as cleared (`AccountUpdate.SetAndClearedIff` says exactly when).
* Eager-load builders keep the key filters of earlier runs, so a query run twice can miss neighbours the second time
  (`EagerReuse.LaterRunIff` says exactly when it does not).
* The exception parser does not return every record with clean keys: a key after the first that starts with `#` or
  `- `, or is `version` or `exceptions`, is lost or splits the record, and so does a line break in a key or a value. A
  bare value loses the quotes it begins and ends with, and blanks around it. `AuditRoundTrip.RoundTripIff` is exact.
* The gate looks at the first vulnerability of a key only, so the verdict can depend on the order of the report: an
  exception file and two reports with different verdicts are in `AuditOrder.OrderCanMatter`, and
  `AuditOrder.VerdictIgnoresOrderIff` says exactly when the order is irrelevant. An entry of the `vulnerabilities` format
  without any advisory is never looked at (`AuditVerdict.NamelessEntryIsNotChecked`).
* `loadGroups` dereferences nil when a join row names an account that was not loaded (`GroupLoading.LoadGroups` says
  exactly when). Its own `IN` filter excludes such rows, so this takes an answer that ignores the filter.
* Parent and children are two edges over one column. On a table without constraints, updates that make an account its
  own parent or child can end otherwise than either edge says (`FamilyUpdate.FamilyWithoutConstraints` says exactly
  when); the constraints of the real table refuse all of these.
* An update can be given children to add, remove or clear, but can never move one: the row of a child would get or lose
  its parent without changing its `quota_dimension`, which a CHECK forbids. `FamilyUpdate.FamilyIsReassigned` says
  exactly which updates are refused. Usage logs never move either, because a log must have an account
  (`UpdateTransaction.LogsStay`).
* The update the repository runs cannot detach a shadow: without a parent it sets none, keeps the old one, and is refused
  if it sets another dimension (`FamilyUpdate.RepositoryUpdateIff`).
* An account may not be its own parent, but two accounts can be each other's (`FamilyUpdate.MutualParentsIff`).
* Adding a group that stays linked is not ignored but refuses the update (`UpdateTransaction.GroupsAreLinked`).

## Contracts assumed of code that is not in the repository

* `sqlgraph.QueryNodes` scans each row into the targets of `scanValues` and passes them to `assignValues`.
* `sqlgraph.BatchCreate` is one step that inserts every spec, in order, or nothing. In an upsert each row of a batch has
  every column of the batch, NULL where its builder set none; a later conflict option overrides an earlier one.
* `sqlgraph.UpdateNodes` and `UpdateNode` run one transaction, so a refused statement leaves everything as it was, and
  an update of an account that does not exist is refused. The account's own row is written first, in one statement with
  its fields: clears set its foreign keys to NULL and adds overwrite them. Then come the clears in other rows and in the through table, where no nodes means
  all of them, and then the adds there. Adding children or usage logs sets their foreign key where it is NULL, and is
  refused if that reaches fewer rows than there are nodes. Adding a group inserts a row of the through table; as the spec
  carries columns of its own (`edge.Target.Fields`), a row that exists already is a conflict and refuses the update.
* The database checks after every statement that foreign keys name existing rows, that `quota_dimension` is one of two,
  that an account has a parent exactly when it is not global and is not its own
  (`backend/migrations/154_account_spark_shadow.sql:6-30`), that a parent has at most one live spark child
  (`backend/migrations/154a_account_spark_shadow_indexes_notx.sql:4-6`), that a usage log has an account and that a link
  occurs once (`backend/migrations/001_init.sql:106-138`).
* A hook reports, calls the mutator it wraps with the mutation it was given, and returns its result.
* `Where` adds a condition that must hold besides those already there.
* `sql.Selector.Clone` and `QueryContext.Clone` are copies.
* JSON encoding of a document is not empty and decodes to the document.

## Model

| member | source | states |
|---|---|---|
| GroupLoading.LoadGroups | backend/ent/account_query.go:627-687 | the hash join gives every account exactly the groups of the nested-loop join of its id (a node hidden by a later one with the same id gets none), one shared object per group; it panics exactly when a row names an account that was not loaded |
| GroupLoading.JoinedGroupsMeaning | backend/ent/account_query.go:627-687 | the nested-loop join lists exactly the groups the account has a row with, each once, by first row |
| GroupLoading.JoinedGroupsUnique | backend/ent/account_query.go:659-686 | there is only one such list, so no iteration order of the node sets can change the result |
| GroupLoading.JoinsIsARow | backend/ent/account_query.go:631-667 | a node is recorded for a group exactly when it owns its id and has a row with the group |
| GroupLoading.NilRecorded | backend/ent/account_query.go:675-686 | every neighbour is in the index, and nil is recorded for one exactly when some row names an account that was not loaded |
| GroupLoading.ScatterGroups | backend/ent/account_query.go:675-686 | in whatever order the recorded nodes are visited, each gets the neighbours recorded for it, in neighbour order |
| ToOneIndex.IndexByKey | backend/ent/account_query.go:688-701 | the ids to fetch are the non-null keys, each once, as first met; the index maps each to its nodes in order |
| ToOneIndex.CarriersPartition | backend/ent/account_query.go:690-701 | the index partitions the nodes with a key: its lists have as many entries as there are non-null keys |
| ToOneIndex.MatchMeaning | backend/ent/account_query.go:708-716 | what a key resolves to is a neighbour with that id, and nothing only if there is none |
| ToOneIndex.MatchIsLast | backend/ent/account_query.go:708-716 | of several neighbours with one id the last is the one |
| ToOneIndex.ToOneOutcomeMeaning | backend/ent/account_query.go:700-714 | for any keys and query: when such a loader fails, when it succeeds, and which row its error names |
| ToOneLoading.LoadProxy | backend/ent/account_query.go:688-718 | fails with the query's error exactly when some node has a key and the query fails, succeeds exactly when no node has a key or all answered rows were asked for, and else names the first row that was not; on success every node whose key was answered points to the last neighbour with that id, all others are unchanged |
| ToOneLoading.LoadParent | backend/ent/account_query.go:720-751 | the same for the nullable key from accounts to accounts |
| ToOneLoading.LoadGroupOfMembership | backend/ent/accountgroup_query.go:408-436 | the same for the required key of the through table |
| ToManyLoading.LoadChildren | backend/ent/account_query.go:752-784 | fails with the query's error exactly when the query fails, and succeeds exactly when every neighbour has a key naming a loaded node; each node then has the neighbours with its id, in order; otherwise the first bad neighbour decides the error |
| ToManyLoading.LoadChildrenOutcomeMeaning | backend/ent/account_query.go:769-783 | the error for a first neighbour without a key, and for one whose key names no loaded node |
| ToManyLoading.LoadUsageLogs | backend/ent/account_query.go:785-814 | the same for a required key |
| ToManyLoading.LoadAccountGroups | backend/ent/account_query.go:815-844 | the same for the through table, whose key is required too |
| ToManyLoading.ChildrenConserved | backend/ent/account_query.go:752-784 | for distinct ids the numbers of children add up to the number of neighbours |
| AccountLoading.SqlAll | backend/ent/account_query.go:550-625 | a fresh node per row; without rows it succeeds and runs no loader; else the loaders run in order and the first error empties the result; on success no query that was run has failed and every accessor answers value, NotFound or NotLoaded by found, requested but absent, not requested |
| AccountLoading.LoadEdges | backend/ent/account_query.go:585-623 | the result is that of the first of the six loaders that fails, and no loader disturbs what another wrote |
| AccountLoading.OutcomeMeaning | backend/ent/account_query.go:585-623 | groups, proxy, parent, children, usage logs, join rows: the first that does not succeed decides |
| JoinAgreement.TwoHopAgrees | backend/ent/accountgroup_query.go:408-436 | from one set of tables, the direct join and the join rows followed by their groups give an account the same groups, each once |
| JoinAgreement.LoadBothWays | backend/ent/account_query.go:627-687 | running both loaders on one heap: the groups edge holds the joined groups, the other the account's join rows with their groups, and every account shows the same bag of groups through either |
| JoinAgreement.ParentChildDuality | backend/ent/account_query.go:720-784 | c is among the rows answered as children of p exactly when the parent resolved for c has p's id |
| JoinAgreement.LoadFamily | backend/ent/account_query.go:720-784 | after both loaders, for distinct ids, every parent is the resolved one and every list of children the answered one, and c is listed in p's children exactly when c's parent is set with p's id, for all c and p |
| Projection.QuerySpecColumns | backend/ent/account_query.go:858-901 | the id comes first and once, then the selected columns, then the keys of requested edges not yet there |
| Projection.SelectionShape | backend/ent/account_query.go:858-901 | the columns of a selection in full: the id once, the other selected columns as they come, and each needed key that is not among them, once |
| Projection.SelectionKeepsKeys | backend/ent/account_query.go:858-901 | every selection reads the id in the first place, the keys of requested edges, and everything selected |
| Projection.ChildSelectionKeepsKey | backend/ent/account_query.go:762-764 | the child query reads the parent key whatever it selects |
| Projection.ProjectedKeys | backend/ent/account.go:193-417 | a row read through any selection has the same keys, no error, and the full row's values in the selected columns |
| Projection.SameKeysSameEdges | backend/ent/account_query.go:550-625 | loaded nodes with the same keys give the same answer from every edge accessor |
| Projection.LoadBoth | backend/ent/account_query.go:550-625 | loading by one plan from two row lists with the same keys gives the same result: success without rows, else the outcome of the loaders on nodes read from the rows; on success the accessors answer as the plan says, and the same for both |
| Projection.QueryBothWays | backend/ent/account_query.go:858-901 | projection transparency: rows read through any field selection and rows read through all columns give the same result, that of the loaders on accounts with the rows' keys; on success both lists have those keys, row by row, and the same answer from every accessor |
| Projection.CreatedRowsAreReadable | backend/ent/account_create.go:682-891 | the rows of created accounts are rows it applies to |
| EagerReuse.LaterRunIff | backend/ent/account_query.go:704-708 | a later run of one builder answers what a fresh builder would exactly when no row it asks for was filtered out before, and never answers more |
| EagerReuse.FoundByKey | backend/ent/account_query.go:765-767 | one key finds all it would find on a fresh builder, or nothing if an earlier run did not ask for it |
| EagerReuse.LoadProxyTwice | backend/ent/account_query.go:688-718 | two runs on one builder: the second finds what a fresh builder would, except that a key the first did not ask for, if it asked for any, finds nothing |
| EagerReuse.LoadParentTwice | backend/ent/account_query.go:720-751 | the same for parents |
| EagerReuse.LoadChildrenTwice | backend/ent/account_query.go:752-784 | two runs on one builder: the second leaves an account without children unless the first loaded its id as well, whatever children it has |
| AccountCodec.Account.AssignValues | backend/ent/account.go:193-417 | the in-place loop gives the struct and the error of the column-by-column fold, including where it stops |
| AccountCodec.AssignErrorMeaning | backend/ent/account.go:193-417 | too few values are one error; otherwise it fails exactly when some column has a target of another type or a document that does not decode, with the error of the first, and assigns nothing from there on |
| AccountCodec.SelectedMeaning | backend/ent/account.go:412-413 | a value selected beside the columns is kept under its name, the last of several |
| AccountCodec.ScanValues | backend/ent/account.go:168-189 | one target per column, of the kind the column is scanned into, a catch-all for unknown columns |
| AccountRoundTrip.TablesAgree | backend/ent/account.go:168-417 | the struct, createSpec, scanValues and assignValues give every column the same type |
| AccountRoundTrip.BuiltNodeHolds | backend/ent/account_create.go:682-891 | the node createSpec builds holds, column by column, the id, the targets of the two foreign keys, what the mutation set (a pointer where the column can be NULL), and zero values elsewhere |
| AccountRoundTrip.SpecMeaning | backend/ent/account_create.go:682-891 | the spec it builds has every column that is set, once, with its type and value, the two foreign keys that have a target, and the ids of groups, children and usage logs |
| AccountRoundTrip.ColumnReadsBack | backend/ent/account_create.go:682-891 | each column of an inserted row scans and assigns without error to the saved node's value, or is NULL and leaves the zero that node has |
| AccountRoundTrip.AssignSelection | backend/ent/account.go:193-417 | reading any list of columns, in any order and with repetitions, sets exactly those and leaves the others zero |
| AccountRoundTrip.CreateReadRoundTrip | backend/ent/account_create.go:682-891 | writing a mutation and reading all columns back gives the node createSpec built, plus the id, with no unexpected type |
| AccountCreation.DefaultsMeaning | backend/ent/account_create.go:527-585 | defaults keeps what is set, fills every other listed column with its default, or stops at one whose default is missing |
| AccountCreation.DefaultValues | backend/ent/account_create.go:527-585 | the eleven columns defaults fills and the value of each; it fails exactly when one of four default functions is needed and missing |
| AccountCreation.DefaultsIdempotent | backend/ent/account_create.go:527-585 | running it again changes nothing and fails in the same way |
| AccountCreation.CheckErrorMeaning | backend/ent/account_create.go:588-662 | check passes exactly when every requirement and validator does; its error is the first one that fails |
| AccountCreation.ValidationMeaning | backend/ent/account_create.go:588-662 | a mutation passes exactly when every column that cannot be NULL is set, the id aside, and the six validated columns satisfy their validators where they are set |
| AccountCreation.ChecksInColumnOrder | backend/ent/account_create.go:588-662 | the checks go through the columns in their order, and a column is required before it is validated |
| AccountCreation.BulkAcceptsWhatSingleAccepts | backend/ent/account_create.go:2104-2113 | dropping the error of defaults is safe: whenever defaults fails, check fails, so both paths accept the same builders |
| AccountCreation.CheckedColumnsAreSet | backend/ent/account_create.go:588-662 | a mutation that passes check sets every column that cannot be NULL except the id |
| BulkCreate.AccountCreateBulk.Save | backend/ent/account_create.go:2094-2152 | for any builders and hooks: the trace; as error that of the first mutation check rejects, else the database's; on success every node has the id the database returned for it and else what its mutation says, which is the node that reading its row gives, and every mutation is done and points at its node; on failure no done flag and no id pointer changes, while the defaults that were filled in stay |
| BulkCreate.AccountCreateBulk.Mutate | backend/ent/account_create.go:2106-2143 | the same for the chain from any hook of any builder; the recursion ends |
| BulkCreate.AccountCreateBulk.BuildChain | backend/ent/account_create.go:2140-2142 | wrapping from the last hook makes hooks[0] the outermost |
| BulkTrace.SaveIsNested | backend/ent/account_create.go:2094-2152 | the trace is well bracketed, and after every event the open hooks are an initial part of all hooks: hooks[0] outermost, builder i around builder i + 1 |
| BulkTrace.TraceShape | backend/ent/account_create.go:2106-2143 | the trace goes down to the first failing check or to the insert and comes back in mirror order, with that error |
| BulkTrace.OneInsertAfterAllChecks | backend/ent/account_create.go:2111-2128 | no insert when any check fails, else exactly one, with the specs in builder order, after every check has passed |
| BulkTrace.AllOrNothing | backend/ent/account_create.go:2129-2138 | on error nothing is marked done; on success every mutation is, after the insert and not before |
| BulkTrace.BatchIffEverySingle | backend/ent/account_create.go:497-501 | the batch reaches the database exactly when every builder on its own would |
| Upsert.FirstCreatedAtLastOfTheRest | backend/ent/account_create.go:1442-1450 | after any sequence of upserts of one key, id and created_at are those of the first, every other column the last value written to it |
| Upsert.CreatedAtStaysATime | backend/ent/account_create.go:527-534 | if the first mutation passed check, the created_at that stays is its time, not NULL |
| Upsert.CreatedAtIsOverwrittenIff | backend/ent/account_create.go:1442-1464 | for any options, set or not: an inserted created_at is overwritten exactly when ResolveWithNewValues has the last word on it |
| Upsert.SameAsResolveWithNewValuesIff | backend/ent/account_create.go:1433-1450 | UpdateNewValues and the bare option it is documented to equal settle on the same actions exactly when created_at is not set |
| Upsert.RowsDifferIff | backend/ent/account_create.go:1433-1450 | they leave different rows exactly where created_at is set to something else than is stored |
| Upsert.CheckedRowsDifferIff | backend/ent/account_create.go:588-662 | for a mutation that passes check, which always sets it, they agree only if the stored time is the same already |
| Upsert.BulkKeepsCreatedAt | backend/ent/account_create.go:2225-2235 | in a bulk upsert every row keeps its created_at, even if its builder set none |
| Upsert.BulkIsSingleIff | backend/ent/account_create.go:2225-2235 | a bulk upsert leaves a column as the single one would, except that a non-NULL column set only by other builders becomes NULL |
| EdgeMutation.ToManyEdge.RemoveIDs | backend/ent/mutation.go:3899-3908 | a removal is recorded and withdraws the pending additions of the same ids |
| EdgeMutation.DeferredIsPerformedAndStale | backend/ent/mutation.go:3878-3924 | saving the recorded calls does what they say one after the other, plus re-linking the stale ids, which the calls leave unlinked |
| EdgeMutation.DeferredIsPerformedIff | backend/ent/mutation.go:3878-3924 | whatever is linked, the two agree exactly when no id is stale |
| EdgeMutation.StaleMeaning | backend/ent/mutation.go:3878-3908 | an id is stale exactly when a clear came while its addition was pending and no later call mentions it |
| EdgeMutation.ClearDoesNotWithdrawAdd | backend/ent/mutation.go:3888-3891 | adding a group and clearing the groups leaves that group linked |
| EdgeMutation.DeferredOneIsPerformedIff | backend/ent/mutation.go:3932-3952 | a to-one link is saved as its calls say, except exactly when they end in a clear of the edge with a target pending |
| FieldMutation.FieldMutation.SetField | backend/ent/account_update.go:202-207 | only the named column changes; a numeric one is reset first |
| FieldMutation.FieldMutation.AddField | backend/ent/mutation.go:2997-3003 | amounts accumulate, and only the named column changes |
| FieldMutation.PendingMeaning | backend/ent/mutation.go:2965-3032 | for any calls on a column: pending are the last value set or cleared since, the total added after that, and a clear, which only a numeric column forgets when set |
| FieldMutation.TotalIsPending | backend/ent/mutation.go:2997-3003 | additions after a write are pending as their sum |
| UpdateSpec.StatementsMeaning | backend/ent/account_update.go:805-948 | the statements set exactly what createSpec writes except created_at, add to exactly the numeric columns among those and clear exactly the nullable ones, with createSpec's column types |
| AccountUpdate.EmitOfUpdate | backend/ent/account_update.go:805-1153 | AccountUpdate's body, statement by statement: the three field lists hold exactly what is pending, in schema order, and the edge lists the pending changes of the five edges |
| AccountUpdate.EmitOfUpdateOne | backend/ent/account_update.go:1975-2323 | the same for AccountUpdateOne's own body |
| AccountUpdate.EmitBoth | backend/ent/account_update.go:1975-2323 | run on one mutation, the two bodies send equal field lists and equal edge lists, up to the order of nodes that Go's map iteration leaves open |
| AccountUpdate.ColumnIsSent | backend/ent/account_update.go:805-948 | from the calls on a column: it is set exactly to the last value written, added the total since, cleared exactly when nullable and, if numeric, cleared last, else ever cleared |
| AccountUpdate.SetAndClearedIff | backend/ent/account_update.go:808-813 | one column is sent both set and cleared exactly when it is nullable, not numeric, was cleared, and was set last |
| AccountUpdate.SqlSave | backend/ent/account_update.go:793-1164 | changes are sent exactly when every set value passes its validator, else the first failing one is the error; done is set only on success |
| AccountUpdate.UpdateChecksMeaning | backend/ent/account_update.go:759-791 | both update builders accept exactly what satisfies the six validators, in column order |
| AccountUpdate.SqlSaveOne | backend/ent/account_update.go:1946-2337 | the same, then an id and valid selected columns are required, in that order; the account is read back with its id once, then the other selected columns |
| AccountUpdate.ReadBackMeaning | backend/ent/account_update.go:1955-1966 | the columns read back are the id, first and once, and what is selected |
| AccountUpdate.Save | backend/ent/account_update.go:745-757 | without a value or a default for updated_at the save stops before anything is sent; else an update that is sent sets updated_at exactly to the pending value if there is one, else to the default; no other column is touched |
| EdgeUpdate.AllChangesCarry | backend/ent/account_update.go:949-1153 | seen edge by edge, what is sent does, clears before adds, (nothing if cleared, else old minus removed) plus added, whatever is linked; a to-one edge ends on its target, on nothing, or unchanged; that the tables end so too, with two edges in one column, is `UpdateTransaction.UpdateTakesEffect` |
| EdgeUpdate.EmptyRemovalWouldClear | backend/ent/account_update.go:966 | a removal without nodes would unlink everything; with nothing pending nothing is sent |
| EdgeUpdate.ThenSilent | backend/ent/account_update.go:949-1153 | for the links of one edge, specs that name other edges change nothing, before or after; two edges that share a column are `FamilyUpdate.FamilyWithoutConstraints` |
| EdgeUpdate.GroupCallsTakeEffect | backend/ent/account_update.go:949-1005 | from a fresh mutation, a saved sequence of group calls acts as if performed call by call, plus the stale ids; exactly so iff none is stale |
| EdgeUpdate.ToOneCallsTakeEffect | backend/ent/account_update.go:1006-1063 | the same for proxy and parent, each seen by itself: call by call, except exactly when a final clear of the edge is lost to a pending target, which then stays linked |
| KeyUpdate.RowByRow | backend/ent/account_update.go:1064-1153 | children and usage logs, by the foreign keys in their rows: the statements fail exactly when some added row does not exist or names an account it is not released from; else an added row names the account, a released one none, every other what it did |
| FamilyUpdate.FamilyWithoutConstraints | backend/ent/account/account.go:106-114 | parent and children written to one column, constraints aside: exactly when the account's parent, and exactly when its children, end otherwise than that edge says (only by the account being its own parent or child); another account's children lose or gain the updated account as its own row says, and nothing else |
| FamilyUpdate.OwnAfterMeaning | backend/ent/account_update.go:805-948 | the account's row after its own statement: parent, dimension and liveness from the pending changes |
| FamilyUpdate.FamilyIsReassigned | backend/ent/account_update.go:1035-1108 | under the table's four CHECK and foreign-key constraints and its unique index: an update is refused exactly when the account does not exist; its row would name itself or a missing parent, have an unknown dimension or one that does not go with having a parent or none, or be a second live shadow of its parent; or a child would be added or released. Else exactly its own row changes, parent and children end as pending, every other account's children change by the updated account alone, and the constraints hold again |
| FamilyUpdate.FamilyCallsTakeEffect | backend/ent/account_update.go:1035-1108 | then any calls on both edges end as if performed one by one, except exactly when a final clear of the parent is lost to a pending target |
| FamilyUpdate.RepositoryUpdateIff | backend/internal/repository/account_repo.go:606-609 | setting the dimension and a parent if there is one: without a parent the update is accepted exactly when the row keeps its dimension, with one exactly when that is another existing account, the dimension is spark and no other live shadow has it |
| FamilyUpdate.MutualParentsIff | backend/migrations/154a_account_spark_shadow_indexes_notx.sql:4-6 | a parent can become the shadow of its own shadow, exactly unless it is live and that one has another live shadow; the two then are each other's parents |
| UpdateTransaction.GroupsAreLinked | backend/ent/account_update.go:949-1005 | the links are refused exactly when some added group does not exist or stays linked; else they end as pending |
| UpdateTransaction.LogsStay | backend/ent/account_update.go:1109-1153 | an update is refused exactly when it adds a usage log or releases one of the account's; else no log changes |
| UpdateTransaction.UpdateTakesEffect | backend/ent/account_update.go:949-1164 | all five edges and the constrained columns in one transaction over the tables: refused exactly when one of these conditions, which a caller can check before, fails; else every edge ends as pending, of the accounts only the updated row changes, no usage log does, and all constraints hold again |
| UpdateTransaction.CallsTakeEffectIff | backend/ent/account_update.go:949-1164 | an update that is not refused acts on all five edges as its calls say one by one, exactly when no group is stale and no final clear of proxy or parent is lost to a pending target |
| QueryBuilder.Builder.Clone | backend/ent/account_query.go:388-408 | a fresh tree, disjoint from the original in everything a builder can write to, that says what the original says apart from modifiers; it ends because builders nest strictly |
| QueryBuilder.CloneOf | backend/ent/account_query.go:389-391 | nil clones to nil |
| QueryBuilder.CloneAndUseBoth | backend/ent/account_query.go:388-475 | after any interleaving of calls on the original and the copy, each is as if the other did not exist |
| QueryBuilder.CloneKeepsAllButModifiers | backend/ent/account_query.go:388-408 | the copy equals the original exactly when no builder in the tree has modifiers |
| QueryBuilder.Builder.EagerLoad | backend/ent/account_query.go:412-475 | WithX puts a new builder, which starts with its client's interceptors and is then configured, in its own slot and leaves the rest of the tree alone |
| QueryBuilder.EmptyViewMeaning | backend/ent/account_query.go:412-475 | the new builder has the client's interceptors, an empty slot for every edge, and nothing else |
| QueryBuilder.SettingsMeaning | backend/ent/account_query.go:46-69 | Limit, Offset, Unique and Select each change their part of the context and nothing else |
| QueryBuilder.AppendsMeaning | backend/ent/account_query.go:46-69 | Where, Order and the lock methods add to the end of their own slice; WithX fills its slot if there is one |
| AuditExceptions.ParseExceptions | tools/check_pnpm_audit_exceptions.py:23-48 | the loop returns the records of the line-by-line state machine, or raises where it does |
| AuditRoundTrip.ParsedRaisesIff | tools/check_pnpm_audit_exceptions.py:27-48 | it raises exactly when some line that starts a record has no colon |
| AuditExceptions.NoiseIsIgnored | tools/check_pnpm_audit_exceptions.py:28-33 | blank, comment, header and colon-free lines anywhere in a file change nothing |
| AuditRoundTrip.ParsePrinted | tools/check_pnpm_audit_exceptions.py:12-48 | parsing printed records, with values bare, in single or in double quotes, returns exactly those records, in order |
| AuditRoundTrip.ReadMeaning | tools/check_pnpm_audit_exceptions.py:12-20 | a value in either kind of quotes is read as it is; a bare one exactly when it has no blanks around it and does not look quoted |
| AuditRoundTrip.LinesRoundTripIff | tools/check_pnpm_audit_exceptions.py:12-48 | line by line, for records with distinct keys and any quoting this holds exactly when every key is trimmed and colon-free, no key after the first is taken for a comment, a header or a new record, and every bare value is trimmed and does not look quoted |
| AuditRoundTrip.RoundTripIff | tools/check_pnpm_audit_exceptions.py:12-48 | for the text of a file, read with universal newlines and split into lines: the records come back exactly when, besides, no key or value contains a line feed or a carriage return |
| AuditReport.IterVulns | tools/check_pnpm_audit_exceptions.py:64-111 | both formats yield their vulnerabilities, titles included, in order, and an entry that makes Python raise ends the run; `AuditFields.YieldedInOrder` says what that is, key by key |
| AuditFields.YieldedInOrder | tools/check_pnpm_audit_exceptions.py:64-111 | a report yields one vulnerability per advisory, then those of the entries of the other format, element by element; it raises exactly when it is no dictionary, an advisory is none or has `cves` that are looked at and cannot be indexed, or an entry is none or keeps a title that is no string |
| AuditFields.AdvisoryMeaning | tools/check_pnpm_audit_exceptions.py:51-78 | the id is the first truthy of github_advisory_id, url, the first CVE, the text of an id that is not null, title, advisory, else overview; likewise name and title, and the severity |
| AuditFields.EntryMeaning | tools/check_pnpm_audit_exceptions.py:80-111 | the same for an entry and the elements of its `via`, with the kept titles joined |
| AuditFields.YieldedMeaning | tools/check_pnpm_audit_exceptions.py:64-111 | a report yields exactly what some advisory or some element of some entry gives, key by key, and nothing else |
| AuditFields.GetMeaning | tools/check_pnpm_audit_exceptions.py:51-78 | looking up a key gives its value, or None when there is none |
| AuditReport.OrMeaning | tools/check_pnpm_audit_exceptions.py:51-61 | a chain of or picks its first truthy operand, and is falsy only when all are |
| AuditReport.NamedMeaning | tools/check_pnpm_audit_exceptions.py:84-111 | an entry of the second format yields exactly the truthy advisories of its via |
| AuditGate.BuildIndex | tools/check_pnpm_audit_exceptions.py:153-185 | every record is indexed or causes one error; no error exactly when all are complete, dated, not blank and distinct by normalised key; the first of a key wins; which errors appear is exactly which faults exist |
| AuditGate.CheckVulns | tools/check_pnpm_audit_exceptions.py:187-219 | no finding exactly when every high or critical named vulnerability has an id and an exception and the first of each key is unexpired and of a matching or blank severity; the missing and expired lists hold exactly their keys, once |
| AuditGate.Gate | tools/check_pnpm_audit_exceptions.py:142-243 | exit code 0 exactly when that condition holds of the parsed exceptions and the yielded vulnerabilities; raises exactly when a line, an entry or a severity makes it |
| AuditVerdict.PassesMeaning | tools/check_pnpm_audit_exceptions.py:142-243 | that condition over the records alone: they are complete, dated, not blank and distinct by key, every relevant vulnerability has an id and a record with its key, and the first of each key has one that is unexpired and of its severity or none |
| AuditVerdict.CompleteMeaning | tools/check_pnpm_audit_exceptions.py:9 | the five fields a record must have |
| AuditVerdict.RelevantMeaning | tools/check_pnpm_audit_exceptions.py:191-197 | which vulnerabilities are looked at: named ones whose severity, stripped and in lower case, is high or critical |
| AuditVerdict.KeysAgreeIff | tools/check_pnpm_audit_exceptions.py:119-131 | a record is for a vulnerability when the stripped packages and the stripped lower-case advisories are equal, missing ones being empty |
| AuditVerdict.CoversMeaning | tools/check_pnpm_audit_exceptions.py:153-219 | it covers it when it is complete, its key is not blank, its date is today or later and its severity is the vulnerability's or blank |
| AuditOrder.OrderAndRepetitionDoNotMatter | tools/check_pnpm_audit_exceptions.py:187-219 | if equal keys carry equal severities, the verdict depends only on which vulnerabilities occur, titles aside |
| AuditOrder.EveryOrderPasses | tools/check_pnpm_audit_exceptions.py:192-206 | every order passes exactly when every vulnerability, not only the first of its key, is covered |
| AuditOrder.SomeOrderPasses | tools/check_pnpm_audit_exceptions.py:192-206 | some order passes exactly when every relevant vulnerability has an exception and, for its key, some occurrence is covered; putting the covered ones first is such an order |
| AuditOrder.OrderIsIrrelevantIff | tools/check_pnpm_audit_exceptions.py:192-219 | all orders agree exactly when every vulnerability is covered or some key has no covered occurrence |
| AuditOrder.VerdictIgnoresOrderIff | tools/check_pnpm_audit_exceptions.py:142-243 | the same for the whole gate: the order is irrelevant also when the gate fails for another reason |
| AuditOrder.OrderCanMatter | tools/check_pnpm_audit_exceptions.py:192-219 | the lines of an exception file and two reports that differ in the order of two advisories: one passes, the other fails |
| AuditVerdict.PassesUntilTheFirstExpiry | tools/check_pnpm_audit_exceptions.py:187-219 | once it passes on some day, it passes on exactly the days up to the first expiry it relied on |
| AuditVerdict.PassesEarlier | tools/check_pnpm_audit_exceptions.py:216-219 | passing on a day implies passing on every earlier one |
| AuditVerdict.UnusedExceptionChangesNothing | tools/check_pnpm_audit_exceptions.py:156-185 | a well-formed record for a key nothing uses and no record holds changes no verdict, wherever it is inserted |
| AuditVerdict.NamelessEntryIsNotChecked | tools/check_pnpm_audit_exceptions.py:109-111 | an entry whose via names no advisory can be added to or removed from the report without any effect |
| TagCleanup.Cleanup | tools/subai_dockerhub_cleanup.py:33-65 | no delete unless asked for and every guard holds; deletes are an initial part of the obsolete tags in order, all of them on success; a failure stops there; each error, those of the guards included, arises exactly from its cause |
| TagCleanup.KeptAfterEveryDelete | tools/subai_dockerhub_cleanup.py:59-64 | after every single delete of any run, both kept tags are in the registry as they were |
| TagCleanup.CleanRunLeavesExactlyTheKept | tools/subai_dockerhub_cleanup.py:44-65 | a successful run on a faithful listing leaves exactly the two kept tags, still the same image |
| TagCleanup.ListingIsTheRegistry | tools/subai_dockerhub_cleanup.py:44-49 | pages that list the registry, however split and with repetitions, are collected as the registry |
| TagCleanup.CollectedIff | tools/subai_dockerhub_cleanup.py:44-49 | a listing is collected exactly when its pages follow each other to the last one and every entry has a name |
| TagCleanup.UpdateMeaning | tools/subai_dockerhub_cleanup.py:48 | a tag listed again overrides what was collected before |
| TagCleanup.SortedMeaning | tools/subai_dockerhub_cleanup.py:59 | the obsolete tags are listed once each in strictly ascending code-point order |
| TagCleanup.LessMeaning | tools/subai_dockerhub_cleanup.py:59 | that order: a proper prefix comes first, else the smaller character where they first differ |
| TagCleanup.ObsoleteMeaning | tools/subai_dockerhub_cleanup.py:35-59 | obsolete is every tag but latest and the one of the commit |
| TagCleanup.ValidShaMeaning | tools/subai_dockerhub_cleanup.py:34-36 | forty lower-case hexadecimal digits |
| TagCleanup.GuardedMeaning | tools/subai_dockerhub_cleanup.py:50-58 | the guards: both tags, one digest that is not empty, and images for linux on amd64 and on arm64 |
| TagCleanup.Check | tools/subai_dockerhub_cleanup.py:50-58 | passes exactly when both tags exist, their digests are equal and not empty, and the image has both platforms |

## Left out

- BulkCreate.AccountCreateBulk.Save: hooks and interceptors that change the mutation or the context, swallow errors or call the next mutator twice; hooks here pass through what they are given. When two builders share one mutation object, `id` is stated for the first of them only, which is the last to set it.
- The reverse loader of the through table and the loaders of API keys: the same shapes as `loadProxy`, `loadUsageLogs` and the through table's group loader.
- `AccountGroupCreateBulk.Save`: the account chain without ids.
- How sqlgraph combines a set, an addition and a clear of one column in one statement; the model says which are sent.
- AccountUpdate.SqlSaveOne: the account that is returned; its columns are stated, the values read into them are those of `AccountCodec` and `AccountRoundTrip`.
- UpdateTransaction.UpdateTakesEffect: updates of several accounts at once, and what the database refuses for values of other columns (lengths, NOT NULL, and the trigger that wants a boolean in the `extra` of an openai account). A `deleted_at` that is both set and cleared is taken as set.
- The refusal by sqlgraph to add children or usage logs when one update matches several accounts; hooks of updates.
- EagerReuse.LoadProxyTwice: the many-to-many loader is not run twice, because its second join changes the selected columns of the query inside the SQL selector.
- Conflict options that name single columns (`SetX`, `AddX`, `UpdateX`), `DoNothing` and conflict targets.
- JSON columns selected twice, where unmarshalling into a map that is already filled merges them: documents here are replaced.
- AccountRoundTrip.CreateReadRoundTrip: triggers. One rewrites `extra` of an openai account before it is stored and can refuse it (`backend/migrations/175_default_openai_long_context_billing.sql:1-45`), so the row read back then differs from the saved node in that column; the same holds for upserts and updates.
- Rounding of decimals and truncation of times by the database, database defaults, NOT NULL violations, and the constraints of accounts on inserts.
- `GroupBy`, `Select` scans, counting, row locks, transactions, contexts and dialects.
- QueryBuilder.Builder.Clone: interceptors are kept as what their slice holds, because no builder writes through it and clients may share it between builders.
- Decoding the exception file; reading JSON text; command-line arguments; the wording of messages. The gate takes the file's lines; how text becomes lines is in `AuditRoundTrip.FileLines`.
- HTTP, URLs, the login request beyond its success, and pages that never end: running out of responses counts as a failed request.
- Registry changes by others during a cleanup run: `TagCleanup.ListingIsTheRegistry` and the final state assume none; the safety of deletes does not.
- AuditExceptions.ParseExceptions: states equality with the state machine `Parsed`; what the machine means is stated by the round trip, by `NoiseIsIgnored` and by `ParsedRaisesIff`.
- AuditReport.IterVulns: states equality with `Yielded`, whose meaning is `AuditFields.YieldedInOrder` and `AuditFields.YieldedMeaning`.
- AuditRoundTrip.RoundTripIff: speaks of records with at least one field and distinct keys, as a dictionary has.
