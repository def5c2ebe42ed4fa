# Verified model of the account data layer and the audit gate

This project models, in Dafny, three parts of the repository and proves what they promise.

**Eager loading** (`backend/ent/account_query.go`, `backend/ent/accountgroup_query.go`). An
account query reads the accounts and then runs one query per requested edge, indexes the parents
in a map, and hands the rows that come back to their parents. `LoadGroups` (many-to-many),
`LoadProxy`, `LoadGroupEdge` and `LoadAccountEdge` (many-to-one), `LoadUsageLogs` and
`LoadAccountGroups` (one-to-many) are these loops over heap objects; `JoinQuery` is the query of
the join entity with its own two edges, and `NestedLoad` follows the nested queries down a tree of
any depth. `ManyToMany`, `Loading` and `TwoRoutes` compare
what they leave on the objects with the relational join; `SqlAll` and `ProjectionEdges` cover the
whole query, its error, the accessors, and the effect of selecting fields, `LoadOrder` which error
is reported when several loads fail, and `UsageLogScan` and `AccountGroupScan` what is read from a
row. `QueryTree`, `QuerySettings` and `QueryBuilder` are the mutable builders and their recursive
`Clone`, and `QueryCalls` says what a builder holds after any list of calls.

**Creating accounts** (`backend/ent/account_create.go`, `backend/ent/account.go`,
`backend/ent/ent.go`). `BulkCreate` gives the meaning of the chain of mutators in which mutator i
calls mutator i + 1 and the last one inserts the batch; hooks are small programs that may
edit the mutation, decide on what it holds, call on any number of times, and go on by whether the
call failed.
`BulkBuilder` is the same chain over shared arrays, with `Save`. `BulkSave`, `SingleSave`,
`BulkDefaults` and `BulkHooks` prove what bulk creation guarantees, compare it with saving one by
one, and say how much survives for hooks that do not forward; `BulkHookLimits` says exactly which
hooks lose it. `HookChain` and `SaveChain` are `withHooks` and `withInterceptors` over closures.
`AccountCreate`, `AccountSpecs`, `AccountDefaults` and `AccountBuilder` are the account's own create
spec, defaults and checks, and `AccountScan` reads a row back; `AccountFields` follows every field
from the builder through the defaults, the spec and the stored row to the struct that is read, and
`AccountInsert` the edges to what the loaders find.

**The audit gate** (`tools/check_pnpm_audit_exceptions.py`). `AuditExceptions` is the line-driven
parser, `AuditScan` the generator of vulnerabilities, `AuditGate` the two loops of `main`, and
`AuditVerdict`, `AuditInvariance`, `AuditReports` and `AuditRoundTrip` the theorems;
`AuditFindings`, `AuditIndexing` and `AuditAcceptance` state the reading of a report, the index and
the verdict in the fields of the two files; `AuditInputs` has the reports that show where the gate
gives way.

`Relations` holds facts about sequences, `Wrappers` the option and result types.

Some results are about what the code does *not* do:

- the exit status depends on the order of the advisories of a report, because the severity is
  compared for the first entry of a key only: `AuditReports.ReportOrderDependence` says exactly
  when, and `AuditInputs.StatusDependsOnOrder` gives a report and an exception file; the order of
  the packages does not matter unless two names differ in blanks at their ends
  (`AuditReports.PackageOrder`, `AuditInputs.BlankInName`);
- a further advisory can make a failing report pass: exactly when it hides a package entry that
  disagrees (`AuditReports.MoreAdvisories`, with the input `AuditInputs.AdvisoryHidesPackage`);
- a dash alone on a line starts no record: counting it as an item like the lines that start with a
  dash and a blank, `AuditRoundTrip.BareDashesLoseRecords` says that records are lost exactly when
  there is such a line, `BareDashesAreIgnored` that deleting those lines changes nothing, and
  `BareDashMergesRecords` gives a file; a list in brackets behind `exceptions:` is not read at all
  (`AuditRoundTrip.BracketedItemsAreIgnored`);
- a numeric `source` makes the program fail, although a comment says that numbers are supported
  (`AuditReports.NumericSourceFails`, with the input `AuditInputs.NumericSourceInput`);
  `AuditScan.ReportRaises` says exactly which reports make the program raise;
- a bulk hook can report a save that did not happen, or insert twice: for the only hook of a
  builder, success means saved exactly when on no mutation the hook reports success after nothing
  but failures (`BulkHookLimits.HonestExactly`), and at most one batch is issued exactly when on
  every mutation it calls on at most once (`BulkHookLimits.OneBatchExactly`);
  `BulkHooks.SwallowedError` and `BulkHooks.DoubleInsert` are the inputs;
- bulk creation drops the error of the defaults: with forwarding hooks it agrees with saving one by
  one exactly when no default was missing, or a hook or a check refuses anyway, or the insert fails
  (`BulkDefaults.DropIsHarmlessExactly`, for accounts `AccountBuilder.SavesAgreeExactly`); a hook
  that sets the very field without a default makes them differ
  (`AccountBuilder.HookHidesFailedDefaults`);
- a clone loses its modifiers at every depth (`QueryTree.CloneIsEqual`);
- when two parents share an ID, the later one gets all the rows; every parent gets its own exactly
  when the IDs are distinct (`Loading.OwnerOf`).

## Model

| member | source | states |
|---|---|---|
| LoadGroups.LoadGroups | backend/ent/account_query.go:542-602 | on success each account that the index points at holds the shared objects of exactly the groups joined to its ID, in order of first appearance, whatever order the pointer sets are walked in; the load fails exactly when the query fails or a row names an account outside the parents |
| LoadGroups.IndexAndReset | backend/ent/account_query.go:546-552 | the first loop collects the IDs, indexes each ID to its last node, resets the edge, and changes nothing else |
| LoadGroups.AssignJoinRow | backend/ent/account_query.go:576-585 | one joined row adds its account to the pointer set of its group, and builds a node only for the first row of the group |
| LoadGroups.ScanJoinRows | backend/ent/account_query.go:565-587 | after all rows there is one fresh node per group, in order of first appearance, and each set holds the indexed accounts of its rows |
| LoadGroups.AssignGroup | backend/ent/account_query.go:597-599 | walking one pointer set in any order appends the group once to every member and to nobody else, and fails exactly on a nil member |
| LoadGroups.Distribute | backend/ent/account_query.go:592-600 | distributing any neighbour list gives each account the neighbours whose set holds it, in order, and fails exactly when a neighbour has no set or a set holds nil |
| LoadGroups.AttachGroups | backend/ent/account_query.go:565-602 | scanning and distributing together attach the join, or report the nil account |
| LoadGroups.NeighborsAnnounced | backend/ent/account_query.go:593-596 | every scanned group has a set, and all sets are free of nil exactly when every row names a parent |
| LoadGroups.HeldGroups | backend/ent/account_query.go:592-600 | the groups delivered to a node are those joined to its ID if the index points at it, and none otherwise |
| ManyToMany.GroupsOfAreJoined | backend/ent/account_query.go:542-602 | for any rows, repeats allowed, the list of an account names exactly the groups joined to it |
| ManyToMany.GroupsOfInOrder | backend/ent/account_query.go:576-585 | that list has each group once, with the columns of its first row, in order of first appearance |
| ManyToMany.FirstSeenInOrder | backend/ent/account_query.go:576-585 | deduplication keeps for each group its first row, and keeps the order of those rows |
| ManyToMany.HeldRows | backend/ent/account_query.go:592-600 | the shared objects an account holds carry the rows of the join |
| Loading.OwnerOf | backend/ent/account_query.go:546-552 | the index points at a parent exactly when no later parent has its ID; every parent is its own owner exactly when the IDs are distinct |
| Loading.BucketsPartition | backend/ent/account_query.go:604-615 | the buckets of distinct keys partition the parents that have a key: their sizes add up to their number |
| Loading.BucketIsByKey | backend/ent/account_query.go:606-614 | a parent is in a bucket exactly when it has that key |
| Loading.BucketIsSelection | backend/ent/account_query.go:655-662 | a bucket is the order-preserving selection of the nodes by their key |
| Loading.ForeignIsFirst | backend/ent/account_query.go:655-660 | the key reported as unexpected is the first that names no parent, and none is reported exactly when all name one |
| Loading.ChildrenConserved | backend/ent/account_query.go:655-662 | when every child names a parent, each child is in the list of exactly one position, the last one with its ID, and the list lengths add up to the number of children |
| Loading.ChildrenInOrder | backend/ent/account_query.go:655-662 | the list of a parent has the children with its key at increasing positions of the answer, and at all of them |
| LoadProxy.LoadProxy | backend/ent/account_query.go:603-634 | each account gets the last proxy returned under its key, or stays nil; no query runs without keys; the load fails exactly when the query fails or an unasked proxy comes back, and then names the first such ID |
| LoadProxy.BucketByProxy | backend/ent/account_query.go:604-615 | the loop yields the distinct non-null keys in order and the accounts of each |
| LoadProxy.AssignProxy | backend/ent/account_query.go:629-631 | one proxy is put on exactly the accounts of its bucket |
| LoadProxy.AttachProxies | backend/ent/account_query.go:620-634 | after all neighbours each account has the proxy of its key, or the first stray ID is reported |
| LoadProxy.BucketsCoverKeys | backend/ent/account_query.go:604-615 | the ids asked for are duplicate-free, equal the set of non-null keys, and their bucket sizes sum to the number of accounts with a key |
| Relations.DedupInOrder | backend/ent/account_query.go:603-616 | the keys a many-to-one load asks for come in the order of their first appearance |
| LoadProxy.ProxyForIsTheMatch | backend/ent/account_query.go:624-632 | no proxy is attached exactly when none with that key came back; with distinct IDs the attached proxy is the match |
| LoadUsageLogs.LoadUsageLogs | backend/ent/account_query.go:635-664 | whatever fields were selected, each log lands on the account its stored key names, in order, with its stored ID and key, exactly the fetched ones of its other columns, and nothing else; the columns are all of them, or the selected ones and the two keys; the load fails exactly when the query fails or a key names no parent, with the first such key |
| UsageLogScan.AssignLogValues | backend/ent/usagelog.go:211-499 | columns are read in order up to the first value of a wrong type; fewer values than columns is an error that changes nothing |
| UsageLogScan.ScannedLogCellsFit | backend/ent/usagelog.go:188-222 | values of the types that scanValues allocates never raise an error, and the ID ends as the last ID column says, zero for NULL |
| UsageLogScan.ReadingALog | backend/ent/usagelog.go:211-499 | reading any columns of a stored log into a fresh node, in any order and with repeats, gives each listed column its stored value and leaves the others zero or absent |
| UsageLogScan.AllLogColumns | backend/ent/usagelog.go:211-499 | a log read with all its columns is the stored log |
| LoadUsageLogs.IndexAndResetLogs | backend/ent/account_query.go:636-644 | the first loop collects the keys, indexes the nodes and resets the edge |
| LoadUsageLogs.DistributeLogs | backend/ent/account_query.go:655-662 | the second loop appends every log to the node of its key, or stops at the first stray key |
| LoadUsageLogs.LogsConserved | backend/ent/account_query.go:655-662 | on the loaded nodes, each log is in the edge list of exactly one node, the last one with its key, and the lengths of the lists add up to the number of logs |
| LoadAccountGroups.LoadAccountGroups | backend/ent/account_query.go:665-694 | each join node lands on the account its stored key names, holding the fetched columns, marked with the requested edges, and with its account and group edges loaded as requested; the load fails exactly when a query fails, a nested load fails, or a key names no parent |
| LoadAccountGroups.IndexAndResetJoins | backend/ent/account_query.go:666-674 | the first loop collects the keys, indexes the nodes and resets the edge |
| LoadAccountGroups.DistributeJoins | backend/ent/account_query.go:685-692 | the second loop appends every join node to the account of its key, or stops at the first stray key |
| LoadAccountGroups.JoinsConserved | backend/ent/account_query.go:685-692 | each join node is in the edge list of exactly one account, the last one with its key, and the lengths add up to the number of join nodes |
| LoadGroupEdge.LoadGroup | backend/ent/accountgroup_query.go:408-436 | each join node gets the last group returned under its key, or stays nil; no query runs for no nodes; the load fails exactly when the query fails or a group comes back that was not asked for, and then names the first such ID |
| LoadGroupEdge.BucketByGroup | backend/ent/accountgroup_query.go:409-417 | the loop yields the distinct keys in order and the join nodes of each |
| LoadGroupEdge.GroupForIsTheMatch | backend/ent/accountgroup_query.go:426-434 | no group is attached exactly when none with that key came back; with distinct IDs the attached group is the match |
| LoadAccountEdge.LoadAccount | backend/ent/accountgroup_query.go:379-407 | for a nested query that requests no edges: each join node gets the last account returned under its key, or stays nil; no query runs for no nodes; the load fails exactly when the query fails or an account comes back that was not asked for, and then names the first such ID |
| LoadAccountEdge.BucketByAccount | backend/ent/accountgroup_query.go:380-389 | the loop yields the distinct keys in order and the join nodes of each |
| LoadAccountEdge.AttachAccountEdges | backend/ent/accountgroup_query.go:396-406 | after all neighbours each join node has the account of its key, or the first stray ID is reported |
| LoadAccountEdge.AccountForIsTheMatch | backend/ent/accountgroup_query.go:397-405 | no account is attached exactly when none with that key came back; with distinct IDs the attached account is the match |
| JoinQuery.QueryAccountGroups | backend/ent/accountgroup_query.go:334-377 | one fresh node per row, holding the fetched columns and marked with exactly the requested edges; the account edge is loaded before the group edge, each from its own query, and the first error ends the query |
| JoinQuery.JoinEdgeContract | backend/ent/accountgroup.go:44-66 | after a successful query each accessor of the join entity says "not loaded" exactly when its edge was not requested and "not found" exactly when no row with the key came back; otherwise it returns a row that came back under that key |
| NestedLoad.LoadTree | backend/ent/account_query.go:508-540 | for any finite tree of requests: the error is the first one of the whole tree in the order of the code, a nested load running to its end before its nodes are handed out; without an error every requested edge of every level is loaded, and no other |
| NestedLoad.LoadAccountsDown | backend/ent/accountgroup_query.go:379-407 | loadAccount with any nested requests: each join node gets the last account of its key, with the edges below it loaded; a failure of the nested levels comes before an account that was not asked for |
| NestedLoad.LoadJoinTree | backend/ent/account_query.go:665-694 | loadAccountGroups with any nested requests: the join nodes are handed out after everything below them is loaded, and handing them out leaves it alone |
| NestedLoad.EveryAccessor | backend/ent/account.go:101-135 | at every depth of the tree, every accessor of every account and join node says "not loaded" exactly when its edge was not requested at that level, "not found" exactly when no row of its key came back, and otherwise returns the joined nodes |
| NestedLoad.OneLevelError | backend/ent/account_query.go:508-540 | a tree whose nested accounts request nothing fails exactly as the whole account query of SqlAll does |
| AccountGroupScan.AssignJoinValues | backend/ent/accountgroup.go:85-120 | fewer values than columns is an error that changes nothing; otherwise the columns are assigned in order up to the first value of a wrong type, NULL resetting nothing |
| AccountGroupScan.ScannedJoinCellsFit | backend/ent/accountgroup.go:68-120 | values from scanValues, NULL or not, never raise a type mismatch, for any column list |
| AccountGroupScan.ReadingAJoinRow | backend/ent/accountgroup.go:85-120 | reading any columns of a stored row into a fresh node, in any order and with repeats, gives each field its stored value if its column is listed and zero otherwise |
| AccountGroupScan.AllJoinColumns | backend/ent/accountgroup.go:85-120 | a join row read with all its columns is the stored row |
| TwoRoutes.TwoRoutesAgree | backend/ent/account_query.go:542-694 | from one snapshot of the two tables, in any order of the answers and under any selected fields, the groups loadGroups leaves on an account are those reached through loadAccountGroups and the group edge, each exactly once |
| TwoRoutes.BothRoutes | backend/ent/account_query.go:542-694 | running both loaders on the same accounts over one snapshot of the tables, with the group edge requested and the account edge not: both succeed, and on every account the two routes hold the same groups |
| TwoRoutes.JoinedIsRelated | backend/ent/account_query.go:542-602 | the first route lists exactly the groups the tables relate to the account |
| TwoRoutes.ReachedIsRelated | backend/ent/accountgroup_query.go:408-436 | so does the second |
| TwoRoutes.ViaIsReached | backend/ent/account_query.go:665-694 | following the loaded objects computes the second route over the table rows |
| Projection.AccountColumnsToFetch | backend/ent/account_query.go:716-727 | the ID is fetched first and once, with every selected field, the proxy key when the edge was requested, and nothing else |
| Projection.JoinColumnsToFetch | backend/ent/accountgroup_query.go:456-467 | the selected fields and the key of every requested edge are fetched, and nothing else |
| Projection.LogColumnsToFetch | backend/ent/account_query.go:645-647 | an empty selection fetches all columns; otherwise the ID comes first and once, every selected field (the added key among them) is fetched, and nothing else |
| Projection.AddOnce | backend/ent/account_query.go:724-726 | the search loop adds a column at the end unless it is there already |
| ProjectionEdges.ProjectionKeepsEdges | backend/ent/account_query.go:716-727 | two runs over the same rows with different selected fields see the same keys and attach the same groups, the same proxy, logs scanned from the same stored rows, and join nodes scanned from the same stored rows with the same account and group below them |
| ProjectionEdges.RunBoth | backend/ent/account_query.go:480-540 | running the query with two selections over the same stored rows: both fail with the same error, or both succeed and every account has the same edges |
| SqlAll.SqlAll | backend/ent/account_query.go:480-540 | the whole outcome of a query: the store's error, a scan error when fetched JSON does not parse, an empty result without loading, the error of the first failing loader on the stored keys, or one node per row, in order, holding the fetched columns of its row, with exactly the requested edges loaded |
| SqlAll.LoadEdges | backend/ent/account_query.go:508-538 | the four loaders run in order, the first error ends the query, and a later loader leaves the earlier edges alone |
| LoadOrder.EdgeErrorOrder | backend/ent/account_query.go:508-538 | at any depth, when several edges of an account query fail, the error is that of the first one in the order groups, proxy, usage logs, join rows |
| LoadOrder.EdgeErrorOrderOnce | backend/ent/account_query.go:508-538 | so it is for a query without nested accounts |
| LoadOrder.JoinErrorOrder | backend/ent/accountgroup_query.go:358-377 | the query of the join rows comes first; below them the account edge fails before the group edge, and both before a row that names no account |
| LoadOrder.AccountErrorOrder | backend/ent/accountgroup_query.go:394-408 | the nested query of the accounts fails first, then what is loaded below them, then an account nobody asked for |
| LoadOrder.GroupsFailure | backend/ent/account_query.go:560-602 | the many-to-many load fails with the reason of its query or, with a nil account, on a row whose account nobody asked for |
| LoadOrder.ProxyFailure | backend/ent/account_query.go:603-633 | the proxy load asks nothing without keys, and otherwise fails with the reason of its query or on the first proxy nobody asked for |
| LoadOrder.LogsFailure | backend/ent/account_query.go:648-662 | the load of the logs fails with the reason of its query or on the first log that names no parent |
| LoadOrder.NestedFailure | backend/ent/accountgroup_query.go:394-408 | a nested load fails with the reason of its query or on the first row nobody asked for |
| SqlAll.ScanAccounts | backend/ent/account_query.go:490-501 | one fresh node per row, holding the fetched columns and zero elsewhere, or the first row that does not scan |
| SqlAll.JoinsErrorIs | backend/ent/account_query.go:665-694 | the error of the join loader is that of its query, else of the nested group query, else the first stray key |
| SqlAll.EdgeContract | backend/ent/account.go:101-135 | after a successful query an accessor says "not loaded" exactly when its edge was not requested, and otherwise returns the joined rows |
| SqlAll.ProxyContract | backend/ent/account.go:110-117 | the proxy accessor says "not found" exactly when the edge was requested and no proxy with the key came back |
| Entities.ScanValues | backend/ent/account.go:138-160 | one empty destination of the right type per column |
| Entities.Account.AssignValues | backend/ent/account.go:163-367 | columns are assigned in order up to the first error; fewer values than columns is an error that changes nothing |
| AccountScan.AssignUpdatesOneField | backend/ent/account.go:167-364 | each case of the switch updates the field its own column names, and no other |
| AccountScan.AssignOneFailsOnlyOnUnreadable | backend/ent/account.go:167-364 | a case fails exactly when the value has the wrong type or is JSON that does not parse |
| AccountScan.ScannedCellsFailOnlyOnBadJson | backend/ent/account.go:138-367 | values from scanValues never raise a type mismatch, for any column list; reading them fails exactly on JSON that does not parse |
| AccountScan.LastValueWins | backend/ent/account.go:163-367 | with repeated and unknown columns, a scalar field ends with its last non-null value, or its prior value when there is none |
| AccountScan.UnknownColumnsKept | backend/ent/account.go:362-363 | the value of an unknown column is kept under its name, the last one of each name, and no other name is touched |
| AccountScan.JsonMerged | backend/ent/account.go:219-234 | objects read into one JSON column are merged, and the last one with a key decides, unless a JSON null follows |
| AccountScan.JsonKept | backend/ent/account.go:219-234 | a key that no object has is there exactly when it was before and no JSON null was read |
| AccountScan.FieldsDetermineRow | backend/ent/account.go:167-364 | the columns cover the whole struct: two structs with the same fields are equal |
| AccountScan.ReadingARecord | backend/ent/account.go:163-367 | reading any columns of a stored row into a fresh node gives the stored values there and zero elsewhere |
| QueryBuilder.Query.Clone | backend/ent/account_query.go:342-359 | the clone is a tree of the same kind of builders, of fresh storage all the way down, and holds what the original holds, the kept selector included, except for modifiers; the recursion over the edges terminates |
| QueryBuilder.Query.CloneEdges | backend/ent/account_query.go:352-355 | the clones of the edges are separate fresh trees, each the clone of its edge |
| QueryBuilder.Query.Apply | backend/ent/account_query.go:42-70 | every builder call keeps the queries a tree without shared storage and leaves in it what `QueryCalls.HeldAfter` says of that call: its own setting, or its own list longer, or its edge built from its options, and the rest as before |
| QueryBuilder.Query.Attach | backend/ent/account_query.go:364-371 | With sets the edge to the new query, replacing an earlier one, and touches nothing else |
| QueryBuilder.Query.NewEdge | backend/ent/account_query.go:365-368 | the edge's query is new and holds what the option functions made of it |
| QueryBuilder.UseBoth | backend/ent/account_query.go:342-404 | two queries without shared storage stay independent under any interleaving of later calls on them |
| QueryBuilder.CloneAndUse | backend/ent/accountgroup_query.go:220-258 | after cloning, later calls on the original or the clone never change what the other holds |
| QuerySettings.Append | backend/ent/account_query.go:42-45 | append extends a slice in place while its array has room, and otherwise moves it to a fresh array |
| QuerySettings.Settings.Clone | backend/ent/account_query.go:346-351 | context and lists are copied to fresh storage, modifiers are not |
| QuerySettings.Settings.Apply | backend/ent/account_query.go:42-70 | a call sets its own option, or appends its arguments to its own list, and disturbs no other setting, although the lists are slices that grow in place |
| QueryTree.CloneIsEqual | backend/ent/account_query.go:346-359 | a clone equals its original exactly when no query of the tree has modifiers |
| QueryTree.CloneHasNoModifiers | backend/ent/account_query.go:346-359 | a clone has no modifiers at any depth |
| QueryTree.CloneThenApplyAll | backend/ent/account_query.go:342-404 | cloning commutes with later builder calls that add no modifiers |
| QueryTree.CallsKeepTypes | backend/ent/account_query.go:364-404 | calls that the builder offers keep the tree well typed: each edge starts at the builder's kind and holds a query of its target |
| QueryTree.ClonesKeepTypes | backend/ent/account_query.go:342-359 | clones have the kinds of their originals at every depth |
| QueryTree.OwnCallsOnly | backend/ent/account_query.go:342-404 | what a query holds after interleaved calls is what its own calls alone make of it |
| QueryCalls.CallsHeld | backend/ent/account_query.go:41-70 | after any list of calls, limit, offset and unique are those of the last call of their kind or as before, each list is the old one and then the arguments of its own calls in order, the selector is that of the last prepared traversal, type and path are as before, and an edge is a new query after the options of its last With, or as before without one |
| QueryCalls.HeldIsUnique | backend/ent/account_query.go:364-404 | nothing else satisfies this: the calls determine the query at every depth |
| QueryCalls.BuiltFromNothing | backend/ent/account_query.go:364-404 | a query built from a new one started without settings and without edges |
| QueryCalls.InterleavedCallsHeld | backend/ent/account_query.go:41-70 | so it is for one of two queries whose calls are interleaved |
| QueryCalls.EdgesLeadTo | backend/ent/account_query.go:20-35 | each named edge belongs to one builder type and holds a query of the entity it leads to |
| HookChain.WithHooks | backend/ent/ent.go:544-575 | without hooks the action just runs; with a nil hook nothing runs and the state is unchanged; otherwise the state is that of h0(h1(... action)), and the result its value if it has the expected type |
| HookChain.WithInterceptors | backend/ent/ent.go:610-623 | the loop builds i0(i1(... querier)), runs it once, and gives its value if it has the expected type |
| HookChain.ComposeSplit | backend/ent/ent.go:559-564 | a chain can be cut anywhere: the inner part is what the outer part wraps |
| HookChain.Cut | backend/ent/ent.go:559-564 | behind a wrapper that does not call on, neither the later wrappers nor the action make a difference |
| HookChain.Nested | backend/ent/ent.go:559-564 | entries happen in list order, exits in reverse, and the action runs once in between with its result passed through |
| HookChain.HandedOn | backend/ent/ent.go:551-559 | the mutation the innermost hook hands on becomes the own one before the action runs, whatever was handed on before; one of another type stops the call with the state unchanged |
| SaveChain.ChainRuns | backend/ent/ent.go:559-565 | for hooks that edit, decide on the mutation, call on and return, the composed closures end in the same state with the same verdict and error as running the hooks one inside the other |
| SaveChain.ChainCarries | backend/ent/account_create.go:576-592 | through forwarding hooks the value that comes back is the node that was saved |
| SaveChain.Save | backend/ent/account_create.go:421-426 | an error of the defaults ends the save before any hook runs; otherwise the state is that of running the hooks around sqlSave, the returned value is that of the composed closures after its type check, and forwarding hooks return the saved node or its error |
| BulkBuilder.Save | backend/ent/account_create.go:1849-1906 | an error of the builder comes first and a nil hook panics, both without touching the database; otherwise every builder takes its defaults and the database, the mutations and the returned nodes are those of the chain |
| BulkBuilder.Chain.Hooks | backend/ent/account_create.go:1894-1897 | mutator i over the shared arrays does what the hooks of builder i around its core do |
| BulkBuilder.Chain.Core | backend/ent/account_create.go:1860-1893 | the core checks, fills slot i, calls mutator i + 1 or inserts the batch, and completes its node and mutation only on success |
| BulkBuilder.Chain.InsertAll | backend/ent/account_create.go:1874-1881 | the last core inserts the specs of all slots in order and puts the assigned IDs into them |
| BulkBuilder.Chain.Complete | backend/ent/account_create.go:1886-1891 | the ID of the spec goes into the node and the mutation, and the mutation is done |
| BulkBuilder.Database.BatchCreate | backend/ent/account_create.go:1874-1877 | all rows are inserted, in order and with their IDs, or the database is as before |
| BulkBuilder.FailingPrefix | backend/ent/account_create.go:1874-1877 | a batch fails with the error of its first failing row |
| BulkSave.AllOrNothing | backend/ent/account_create.go:1849-1906 | with hooks that forward or refuse, and any number of builders: success exactly when no hook and no check refuses and the insert passes, and then one batch whose j-th spec comes from builder j, every mutation done with the ID of its row; otherwise database and mutations are untouched, and when a hook or a check refuses there is no batch at all |
| BulkTheorems.HooksForward | backend/ent/account_create.go:1860-1897 | the induction over the chain: how the run of mutators i, i + 1, ... ends, whichever hook or check refuses first |
| BulkTheorems.CoreForwards | backend/ent/account_create.go:1865-1892 | the same for the core of builder i |
| BulkTheorems.AfterTheCall | backend/ent/account_create.go:1894-1897 | what a forwarding hook does after its call changes only the fields of its own mutation |
| BulkHooks.HookBatches | backend/ent/account_create.go:1860-1897 | whatever the hooks do, deciding on the mutation included, every batch inserts the rows of all builders; if no hook calls on more than once, at most one batch is issued |
| BulkHooks.HonestHooks | backend/ent/account_create.go:1860-1897 | for any builders and hooks: if no hook reports success without a call that succeeded, a reported success means an accepted batch and all mutations done, even with retries and further calls |
| BulkHooks.SwallowedError | backend/ent/account_create.go:1865-1867 | a hook that swallows the error turns a failing check into a reported success that saved nothing |
| BulkHooks.SkippedInsert | backend/ent/account_create.go:1871-1892 | when a hook answers for the next builder without calling on, the builder before it is done, with ID zero and a node without an ID, and nothing was inserted |
| BulkHooks.DoubleInsert | backend/ent/account_create.go:1871-1877 | a hook that calls on twice inserts every row twice |
| BulkHookLimits.SuccessWithoutSaving | backend/ent/account_create.go:1860-1897 | where the check always fails, the only hook of a builder reports success exactly when it is dishonest on that mutation, and nothing was saved, inserted or marked |
| BulkHookLimits.HonestExactly | backend/ent/account_create.go:1860-1897 | for the only hook of a builder, however often it calls on: success means saved, whatever the builder, its checks and the database, exactly when on no mutation the hook reports success after nothing but failures |
| BulkHookLimits.OneBatchPerCall | backend/ent/account_create.go:1860-1897 | where checks pass and inserts end alike, the only hook of a builder issues one batch for each call it makes on the mutation, and each accepted batch inserts the row again |
| BulkHookLimits.OneBatchExactly | backend/ent/account_create.go:1860-1897 | for the only hook of a builder: at most one batch is issued, whatever the builder, its checks and the database, exactly when on every mutation the hook calls on at most once |
| BulkHookLimits.OnEveryMutation | backend/ent/account_create.go:1860-1897 | the conditions of HonestHooks and HookBatches, which look at no mutation, imply the exact ones on every mutation |
| SingleSave.BulkIsEach | backend/ent/account_create.go:1849-1906 | with hooks that forward or refuse, bulk succeeds exactly when saving one by one does, with the same rows and the same nodes in order; on failure bulk leaves nothing while one by one leaves the rows before the failing builder |
| SingleSave.EachSaves | backend/ent/account_create.go:576-592 | saving one by one leaves exactly the rows and nodes of the builders before the first that fails, refused by a hook or its check or in its insert |
| SingleSave.SoloForwards | backend/ent/account_create.go:576-592 | one save through forwarding or refusing hooks ends as sqlSave does on the fields the hooks pass on, or with the refusal |
| SingleSave.FailureSpoilsBatch | backend/ent/account_create.go:1874-1877 | a builder that fails on its own makes the bulk save fail |
| BulkDefaults.DroppedDefaults | backend/ent/account_create.go:1859-1860 | one by one succeeds exactly when bulk does and no builder's defaults failed, and then both leave the same rows and nodes |
| BulkDefaults.HarmlessDrop | backend/ent/account_create.go:1859-1860 | if failing defaults always leave something a hook or check refuses, both saves agree |
| BulkDefaults.DropIsHarmlessExactly | backend/ent/account_create.go:1859-1860 | with hooks that forward or refuse, bulk and one by one agree, on the verdict and on success on the rows and nodes, exactly when no defaults failed, or a hook or a check refuses, or the insert fails |
| AccountBuilder.DroppingDefaultsIsHarmless | backend/ent/account_create.go:451-574 | for accounts the two saves agree although bulk drops the error of the defaults, when the hooks refuse or leave unset the field without a default |
| AccountBuilder.SavesAgreeExactly | backend/ent/account_create.go:451-574 | for accounts the two saves agree exactly when no unset column lacks its default, or a hook refuses, or some column that reaches check has a problem, or the insert fails |
| AccountBuilder.HookHidesFailedDefaults | backend/ent/account_create.go:1859-1867 | a hook that sets created_at makes bulk save an account that the single builder refuses |
| AccountBuilder.Builder.Defaults | backend/ent/account_create.go:451-505 | the steps in order, each leaving what was set before an error |
| AccountBuilder.Builder.SqlSave | backend/ent/account_create.go:576-592 | a fresh node with the assigned ID and a done mutation on success; on failure neither the database nor the mutation changes |
| AccountDefaults.DefaultsFill | backend/ent/account_create.go:451-505 | defaults never overwrite, and fill exactly the columns before the first one whose default is both needed and missing |
| AccountDefaults.DefaultsFailExactly | backend/ent/account_create.go:451-481 | they fail exactly when some unset column has an uninitialized default function |
| AccountDefaults.DefaultsOrder | backend/ent/account_create.go:451-480 | the error names created_at, updated_at, credentials or extra, the first one in this order that has neither a value nor a default |
| AccountDefaults.CheckFindsFirst | backend/ent/account_create.go:508-574 | check reports the problem of the first column that has one: missing if required, or refused by its validator |
| AccountDefaults.CheckOrder | backend/ent/account_create.go:508-574 | with the columns written out in the order of the code: the first one that is not fine is reported, as missing when it is not set and as invalid when its text is not valid |
| AccountDefaults.CheckPassesExactly | backend/ent/account_create.go:508-574 | it passes exactly when no column has a problem |
| AccountDefaults.FailedDefaultsFailCheck | backend/ent/account_create.go:451-574 | failing defaults make check fail, unless the field is set in between |
| AccountSpecs.CreateSpec | backend/ent/account_create.go:594-762 | the assignments in the order of the code build the node that has each set field and zero elsewhere, the record of exactly the set fields, the group edge of the set groups with the defaults of the join entity, none when no group is set, and the edge of the set logs |
| AccountSpecs.Draft.PutText | backend/ent/account_create.go:612-615 | one conditional assignment puts a set field into the node and the record under its own column and leaves every other column as it was |
| AccountSpecs.Draft.Finished | backend/ent/account_create.go:594-762 | once every column is done, the draft is the node and the record of the mutation |
| AccountCreate.Given | backend/ent/account_create.go:600-762 | a set field is recorded under its own column as a value of the column's type that is not NULL |
| AccountCreate.NodeHolds | backend/ent/account_create.go:594-762 | createSpec puts every set field, and the proxy edge as its foreign key, into the node and the record alike, and leaves the others at zero and out of the record |
| AccountCreate.StoredHoldsNode | backend/ent/account_create.go:594-762 | the stored row holds, column by column, the node that is returned |
| AccountCreate.CreateThenReadField | backend/ent/account.go:138-367 | reading any columns of the stored row into a fresh node gives the returned node's values there |
| AccountCreate.CreateThenRead | backend/ent/account.go:138-367 | with all columns selected, in any order and with repeats, the returned node is rebuilt |
| AccountCreate.CreateThenReadAll | backend/ent/account.go:138-367 | the account's own list of all columns is such a selection |
| AccountFields.ReadOfScan | backend/ent/account.go:160-367 | scanning any columns of the row stored for a mutation raises no error and gives in each of them what the returned node holds |
| AccountFields.CreatedNumbers | backend/ent/account_create.go:594-762 | ID, proxy, concurrency, load factor, priority and rate multiplier: reading the column gives the value set for that very field, or zero; not selecting it gives zero |
| AccountFields.CreatedTexts | backend/ent/account_create.go:594-762 | so it is for the eight text fields |
| AccountFields.CreatedStamps | backend/ent/account_create.go:594-762 | so it is for the created, updated, deleted, last-used and expiry times |
| AccountFields.CreatedLimits | backend/ent/account_create.go:594-762 | so it is for the times of rate limits, overload and session windows |
| AccountFields.CreatedFlagsAndJson | backend/ent/account_create.go:594-762 | so it is for the flags and the JSON fields, nil maps included |
| AccountFields.DefaultedNumbers | backend/ent/account_create.go:480-492 | after the defaults, a number that was not set is read back as its own default |
| AccountFields.DefaultedOthers | backend/ent/account_create.go:451-505 | so it is for status, flags, times and JSON fields |
| AccountInsert.CreatedRows | backend/ent/account_create.go:711-766 | after the insert of the spec, the join rows of the new account are those of exactly the set groups, with the defaults of the join entity, its logs are exactly the set logs, its proxy key is the set proxy, and other accounts keep their groups |
| AccountInsert.InsertKeepsKeys | backend/ent/account_create.go:711-731 | the insert keeps the primary keys of the join and group tables |
| AccountInsert.CreateThenLoadGroups | backend/ent/account_query.go:542-602 | loading the groups of the new account then gives exactly the set groups, each once, in whatever order the join is answered |
| AuditExceptions.ParseExceptions | tools/check_pnpm_audit_exceptions.py:23-48 | the loop gives the records of the lines, or raises; what those are is the round trip for values written in double quotes, in single quotes and without quotes (`AuditRoundTrip.PrintThenParse`), the lines that change nothing (`AuditRoundTrip.IgnorableLines`) and the cutting of a file (`AuditRoundTrip.ParseConcat`) |
| AuditExceptions.ItemNotBlank | tools/check_pnpm_audit_exceptions.py:38-39 | the text after "- " is never blank, so every item starts with an entry |
| AuditRoundTrip.OneRecordPerItem | tools/check_pnpm_audit_exceptions.py:23-48 | parsing raises exactly when some line starting with "- " has no colon after it; otherwise it returns one non-empty record per such line |
| AuditRoundTrip.ParseConcat | tools/check_pnpm_audit_exceptions.py:23-48 | items are independent: a file cut before an item parses to the records of its parts in order |
| AuditRoundTrip.PrintThenParse | tools/check_pnpm_audit_exceptions.py:12-48 | printing records with safe keys as the lines of a file, each value in double quotes, in single quotes, or without quotes when it is trimmed and does not look quoted, and parsing those lines gives the records back (a file has these lines when no value contains a line break) |
| AuditRoundTrip.UnquoteWritten | tools/check_pnpm_audit_exceptions.py:16-20 | a value in either kind of quotes is read without them, and one that is not quoted as it is |
| AuditRoundTrip.LastFieldWins | tools/check_pnpm_audit_exceptions.py:38-45 | a record holds for each key the value of its last field, and no other key |
| AuditRoundTrip.SpacingIsIgnored | tools/check_pnpm_audit_exceptions.py:28 | the indentation of a line and the way it ends make no difference |
| AuditRoundTrip.IgnorableLines | tools/check_pnpm_audit_exceptions.py:29-43 | blank lines, comments, the version, and text that is neither an item nor has a colon can be deleted anywhere without changing the records |
| AuditRoundTrip.BareDashMergesRecords | tools/check_pnpm_audit_exceptions.py:34-45 | fields after a dash on its own line overwrite the record before it |
| AuditRoundTrip.BareDashesLoseRecords | tools/check_pnpm_audit_exceptions.py:34-45 | counting as an item every line that is a bare dash or starts with a dash and a blank, there is one record per item exactly when no line is a bare dash; otherwise one record is lost for each |
| AuditRoundTrip.BareDashesAreIgnored | tools/check_pnpm_audit_exceptions.py:30-45 | deleting all bare-dash lines of any file changes neither the records nor whether parsing raises |
| AuditRoundTrip.BracketedItemsAreIgnored | tools/check_pnpm_audit_exceptions.py:31-32 | a line that starts with "exceptions:" can be deleted anywhere without changing the records, whatever follows the colon |
| AuditScan.IterVulns | tools/check_pnpm_audit_exceptions.py:64-111 | the generator yields what the advisories and then the packages of the report say, or raises; its entries are those of `AuditFindings.FindingsAreYielded`, which names the fields of the report and their priorities |
| AuditData.FalsyMeans | tools/check_pnpm_audit_exceptions.py:54-60 | None, false, zero, and the empty text, list and dict are the falsy values |
| AuditFindings.GetReads | tools/check_pnpm_audit_exceptions.py:54-60 | reading a key gives the value of its entry when keys are distinct, and the default without one |
| AuditFindings.FirstTruthyIsFirst | tools/check_pnpm_audit_exceptions.py:54-60 | a chain of `or` gives the value of the first key that has a truthy one, or of the last key |
| AuditFindings.IdentifierOrder | tools/check_pnpm_audit_exceptions.py:51-62 | an advisory is identified by its GHSA whenever it has one, else by its URL, else its first CVE, else its number as text, else its title, advisory or overview; it raises exactly when it gets to CVEs that are neither a list nor a text |
| AuditFindings.AdvisoryYields | tools/check_pnpm_audit_exceptions.py:68-80 | an advisory yields one entry: its module name or else its name, its severity, its identifier, and the first of title, advisory, overview and URL |
| AuditFindings.ViaOrder | tools/check_pnpm_audit_exceptions.py:87-108 | a via element is identified by the first of GHSA, URL, source, title and name, and titled by the first of title, URL, advisory and source; a text is both; other elements say nothing |
| AuditFindings.TitlesJoined | tools/check_pnpm_audit_exceptions.py:109 | the title of a package joins the truthy titles of its via elements, in order |
| AuditFindings.PackageYields | tools/check_pnpm_audit_exceptions.py:82-111 | a package yields, under its name, its severity and its title, each truthy identifier of its via elements and nothing else |
| AuditFindings.FindingsAreYielded | tools/check_pnpm_audit_exceptions.py:64-111 | when reading does not raise, the entries are exactly what the advisories and packages of the report say |
| AuditScan.ReadPackage | tools/check_pnpm_audit_exceptions.py:82-111 | the loops over one package collect its advisories and titles |
| AuditScan.PackageRaisesOrYields | tools/check_pnpm_audit_exceptions.py:82-111 | a package raises exactly when it is no dict or a truthy title is no string, and yields nothing exactly when no via element names an advisory, whatever its severity |
| AuditScan.ReportRaises | tools/check_pnpm_audit_exceptions.py:64-111 | reading a report raises exactly when it is no dict, an advisory raises, or some package is no dict or has a truthy via title that is no string |
| AuditScan.NumericSourceRaises | tools/check_pnpm_audit_exceptions.py:96-109 | one via element identified by nothing but a number, in any package of any report, makes reading the report raise, whatever the severity |
| AuditGate.IndexExceptions | tools/check_pnpm_audit_exceptions.py:156-185 | the index holds the first well-formed record of each key, and every other record gives one error of the right kind |
| AuditIndexing.IndexIsFirst | tools/check_pnpm_audit_exceptions.py:156-185 | the index holds for each package and lower-cased advisory the lower-cased severity and the date of the first usable record |
| AuditIndexing.IndexedOrReported | tools/check_pnpm_audit_exceptions.py:156-185 | each record is indexed or gives one error, and their numbers add up |
| AuditIndexing.RefusalReason | tools/check_pnpm_audit_exceptions.py:156-180 | a record is reported for exactly its unfilled fields, else for its date, else for a blank package or advisory, else for a key an earlier record has, and accepted exactly when it is usable and its key is new |
| AuditGate.ScanVuln | tools/check_pnpm_audit_exceptions.py:194-219 | one turn of the scan adds its entry to the right lists and its key to the seen ones |
| AuditGate.ScanVulns | tools/check_pnpm_audit_exceptions.py:192-219 | the loop reports the unnamed entries, and among the first entries of each key the unexcused, mismatched and expired ones; it raises exactly on a severity that is no string |
| AuditVerdict.Check | tools/check_pnpm_audit_exceptions.py:142-243 | the exit status is 0 exactly when nothing raises, every record is well formed with a key of its own, every relevant entry has an advisory and an unexpired exception, and the first entry of each key agrees on the severity; `AuditAcceptance.PassingTakes` and `AuditAcceptance.PassingGranted` say it in the fields of the two files |
| AuditAcceptance.UsableIsClean | tools/check_pnpm_audit_exceptions.py:156-180 | the records are accepted exactly when each has the five required fields, a date and a package and advisory that are not blank, and no two name the same package and, in any case, the same advisory |
| AuditAcceptance.PassingTakes | tools/check_pnpm_audit_exceptions.py:191-243 | passing takes usable records and, for each named vulnerability of high or critical severity that an entry of the report states, an identifier and a record for the same package and, in any case, the same advisory, which is valid today |
| AuditAcceptance.PassingGranted | tools/check_pnpm_audit_exceptions.py:191-243 | it is enough that neither file raises, the records are usable, severities are texts, and each such vulnerability has such a record that states its severity |
| AuditAcceptance.MissingFieldFails | tools/check_pnpm_audit_exceptions.py:157-162 | a record without one of the required fields, or with an empty one, makes the program fail |
| AuditAcceptance.GhsaNeedsException | tools/check_pnpm_audit_exceptions.py:51-62 | a serious advisory with a GHSA needs a valid exception for that GHSA, whatever its URL |
| AuditAcceptance.GhsaIsExcepted | tools/check_pnpm_audit_exceptions.py:51-62 | and a valid exception for that GHSA which states its severity is enough, whatever its URL |
| AuditVerdict.RefusalsEmpty | tools/check_pnpm_audit_exceptions.py:156-185 | the first loop raises no error exactly when all records are well formed and no two share a key |
| AuditVerdict.ReportEmpty | tools/check_pnpm_audit_exceptions.py:192-219 | nothing is reported exactly when all relevant entries are excused and the first ones agree |
| AuditVerdict.FirstsAreFirst | tools/check_pnpm_audit_exceptions.py:203-206 | what passes the seen set are the first entries of their keys |
| AuditInvariance.ExceptionOrder | tools/check_pnpm_audit_exceptions.py:156-185 | the verdict is the same for every order of the records |
| AuditInvariance.EntryOrder | tools/check_pnpm_audit_exceptions.py:192-219 | it is the same for reports with the same entries in any order and number, when entries of a key carry one severity |
| AuditInvariance.OrderDependence | tools/check_pnpm_audit_exceptions.py:203-215 | in front of fixed later entries, the verdict depends on the order of the earlier ones exactly when the rest is clean, some earlier entry disagrees on the severity and every key among them has one that agrees |
| AuditReports.ReportOrderDependence | tools/check_pnpm_audit_exceptions.py:142-243 | for any exception file and report: the exit status depends on the order of its advisories exactly when neither file makes the program raise, everything else is clean, some advisory disagrees on the severity and every key among the advisories has one that agrees |
| AuditReports.PackageOrder | tools/check_pnpm_audit_exceptions.py:82-111 | the exit status is the same for every order of the packages, when no two names are equal after stripping |
| AuditReports.MoreAdvisories | tools/check_pnpm_audit_exceptions.py:64-111 | a report that passes with further advisories passes without them exactly when they hide no disagreeing package entry |
| AuditReports.NumericSourceFails | tools/check_pnpm_audit_exceptions.py:96-109 | a numeric source anywhere in a report makes the program fail |
| AuditInputs.TwoOrders | tools/check_pnpm_audit_exceptions.py:203-215 | with one valid exception and two entries of its key of which one disagrees: clean with the agreeing one first, not with the other first, and not with the other alone |
| AuditInputs.StatusDependsOnOrder | tools/check_pnpm_audit_exceptions.py:142-243 | an exception file and a report of two advisories that differ in severity: the program passes with them in one order and fails in the other |
| AuditInputs.AdvisoryHidesPackage | tools/check_pnpm_audit_exceptions.py:142-243 | a report with a critical package fails, and passes when a high advisory of the same key is added |
| AuditInputs.BlankInName | tools/check_pnpm_audit_exceptions.py:142-243 | two packages whose names differ in a blank at the end: the program passes with them in one order and fails in the other |
| AuditInputs.NumericSourceInput | tools/check_pnpm_audit_exceptions.py:96-109 | a report whose via element has only a numeric source makes the program fail |
| AuditInvariance.EarlierDay | tools/check_pnpm_audit_exceptions.py:216-219 | a gate that passes on a day passes on every earlier day |
| AuditInvariance.MoreEntries | tools/check_pnpm_audit_exceptions.py:192-219 | entries put between others turn a failure into a pass exactly when they hide a disagreeing entry behind them that was the first of its key; entries at the end never do |
| AuditInvariance.MissingAccounted | tools/check_pnpm_audit_exceptions.py:207-219 | the missing list names each unexcused key once, by its first entry and in first-seen order, and shares no key with the expired list |
| AuditInvariance.ReportLists | tools/check_pnpm_audit_exceptions.py:191-243 | the report lists the relevant entries without an advisory, and of the first entries of each key those without an exception, those whose exception states another severity, and those whose exception has expired; an entry can be in both of the last two |

## Left out

- SQL building, the driver and `sqlgraph`: a query is a function from the keys it selects on to the rows that come back, or an error; an insert is a function of the database; constraint errors are not told apart from others.
- AccountInsert.CreatedRows: an insert that succeeds adds the row, its join rows and the foreign keys of its logs; when `sqlgraph` refuses one (a log that belongs to another account already, say) is part of the given insert.
- NestedLoad.LoadTree: the accounts of a nested query come as whole rows; selected fields and JSON columns of account rows are in `SqlAll`.
- LoadAccountEdge.LoadAccount: requests no edges of the accounts it attaches; `NestedLoad.LoadAccountsDown` has them.
- The `Other` edges of groups, proxies and usage logs, and the other entities' builders: the same templates again.
- Traversal (`QueryGroups` and its siblings), `GroupBy`, `Select(...).Scan`, `Count`, `IDs`, update, delete and upsert builders.
- Validation of selected names and interceptor traversal in `prepareQuery`; interceptors that replace the result of a nested load (`LoadGroups.Distribute` takes any neighbour list, `LoadGroups.LoadGroups` the scanned one).
- The effect of loading on the edge's own builder, to which every run adds one more predicate.
- A nil dereference, when a joined row names no parent, is the outcome `NilNode`; a panic is a value, too, in `BulkBuilder.Save`.
- Integers are unbounded (they are only stored and compared), times and dates are numbers, floating-point numbers are reals, and JSON objects map strings to strings; JSON encoding is taken to be undone by decoding, and the driver to convert every stored value.
- Column names are an enumeration with one case for unknown names; predicates, orderings, interceptors, modifiers and paths are names.
- Closures that change the heap: the hooks of the bulk chain are programs that edit, decide on the fields, call on and return, so a hook cannot pass on another mutation object, keep what it read for later, or decide on the content of an error; the order of wrapping is the recursion of `BulkBuilder.Chain.Hooks`. In `HookChain` a hook may pass on any mutation, but the state is a value.
- AccountSpecs.CreateSpec: the fields of a spec are a map from columns to values rather than a list, and the conflict clause is not part of it.
- SaveChain.Save: the hooks are non-nil here; the nil hook is in `HookChain.WithHooks`, and the mutation is a value rather than an object.
- AccountGroupScan.AssignJoinValues: the values of unknown columns are not kept.
- UsageLogScan.AssignLogValues: besides the keys, the columns are texts under their names; their types, and the values of unknown columns, are not told apart.
- The same builder passed twice to one bulk save, a batch that assigns IDs and then fails, and wrapping of errors.
- QueryBuilder.Query.Clone: one class stands for all the builder types, told apart by their kind, and one method for their mutually recursive clones; the edges are cloned in any order; option functions of With call only the new query; the interceptors a client gives to new queries are its first calls.
- Of Python: `str.lower`, `date.fromisoformat` and `str` of a value that is not a string are parameters; reading and splitting the file into lines, argument parsing, and the text and order of the messages are not modelled; an uncaught exception is exit status 1.
- Setters, `String()`, the panicking variants, `Unwrap`, and the frontend, deployment and wiring files.
