# Accounts and release gates, modelled in Dafny

The project models three parts of the repository and proves what each of them is for.

**Eager loading** (`backend/ent/account_query.go`, `accountgroup_query.go`, `account.go`).
A query is a tree of builders; executing it runs one query per requested edge and sends the
rows to their owners through hash maps. `Relational` gives tables, queries and the batched
reading as functions; `Unfolding` defines what a reader expects, the direct relational
unfolding of the tree, and proves the two equal at every depth. `Loaders` holds the three
loader shapes over heap cells, `QueryBuilders` the mutable builders with `Clone`, and
`EagerLoading` the execution itself: heap nodes, mutual recursion Account -> AccountGroup ->
Account, errors, and the `*OrErr` accessors. `QueryAnswers` says what the rows of one query
are, and `PlanLaws` states laws of column selection, limits and order.

**Creation** (`backend/ent/account_create.go`, `account.go`). `AccountEntity` models
`createSpec` against `scanValues` and `assignValues` over all 35 fields, `AccountCheck` models
`defaults` and `check`, and `BulkCreate` the chain of mutators and hooks that `Save` builds,
with a trace of what happens when.

**Release gates** (`tools/secret_scan.py`, `tools/check_pnpm_audit_exceptions.py`). `Text`
holds Python's string operations. `GitStream`, `IndexEntries` and `ObjectInfo` are the three
parsers of git output, each against a printer; `ScanIndex` is the fail-closed pipeline and
`ScanLaws` and
`ScanStages` what it guarantees; `ScanText` and `Filler` are the scan of one text and the
periodic-string test. `ExceptionList` is the line parser, `AuditReport` the two layouts of an
audit, `AuditGate` the gate, `GateMeaning` its verdict in terms of the
files as written, and `GateLaws` its laws.

Methods follow the imperative code and are proved against functions or against a property
stated outright; the lemmas are about those functions.

## Where the code differs from what one expects

- A header with a negative size is accepted by `read_blobs`: `a blob -1` and a newline read
  as an empty blob (`GitStream.NegativeSizeAccepted`). Apart from that, acceptance means
  well-framed (`GitStream.AcceptedIffFramed`).
- A limit on a one-to-many sub-query bounds all owners together, not each
  (`PlanLaws.LimitBoundsTheBatch` says exactly when each owner still gets its own first rows,
  `PlanLaws.LimitStarvesSecondOwner` is an input where one does not). A limit of zero leaves
  the same query spec as no limit.
- `Clone` drops the lock modifiers (`QueryBuilders.CloneKeepsPlan`, `QueryBuilders.LockDropped`).
- `Save` can report success with no rows stored (`BulkCreate.DeceptionExact` for all hooks,
  `BulkCreate.AbsorbedRun` where they keep failures, `BulkCreate.DeceptionWitness` an input), and can fail with mutations already
  marked done (`BulkCreate.AllOrNoneExact`, with the input of `BulkCreate.DoneThenFailed`).
- One missing object makes the index scan fail as a whole; the branch that would report it as
  an error of its path is not reached (`ScanLaws.ScanIsVerdicts`,
  `ScanLaws.MissingObjectWitness`).
- The line number of a private-key block is wrong as soon as a line before it ends in
  anything but a newline (`ScanText.BlockLineNumber`, `ScanText.WrongLineNumber`).
- The gate checks a severity only for the first vulnerability of a key, so a mismatch of a
  later one passes and the verdict depends on the order of the report
  (`GateLaws.SeenOnceIsEnough`; `GateLaws.ReportPermuted` says exactly when the order matters,
  `GateLaws.MismatchMissed` is a report where it does).
- In the `vulnerabilities` layout a package without identifiers is dropped before the gate
  sees it, while in the `advisories` layout it fails the gate
  (`AuditReport.AnonymousYieldsNothing` says exactly when, `AuditReport.AnonymousPackagePasses`
  is a report; `AuditReport.AnonymousAdvisoryFails`).

## Model

| member | source | states |
|---|---|---|
| Relational.RequestedIdsExact | backend/ent/account_query.go:646-663 | the ids asked for are the distinct non-null foreign keys, each once |
| QueryAnswers.RowsAnswer | backend/ent/account_query.go:806-826 | a query returns exactly the rows that satisfy its predicates, ordered by the first key in which two rows differ, ties in table order; then the offset is skipped and the limit taken |
| QueryAnswers.OwnRowsListed | backend/ent/account_query.go:740-769 | the same for the rows of one owner under a sub-query |
| QueryAnswers.JoinedInOrder | backend/ent/account_query.go:585-645 | the joined rows of a groups query come in the order of the group query |
| Unfolding.BatchRestricted | backend/ent/account_query.go:740-757 | the batch for all owners, cut down to one owner, is the query for that owner alone, in its order |
| Unfolding.BatchedLookup | backend/ent/accountgroup_query.go:379-405 | a lookup for many primary keys finds for each of them what a lookup of that key finds, at most one row |
| Unfolding.GroupEdge | backend/ent/account_query.go:585-645 | many-to-many: each account gets every group joined to it that satisfies the sub-query, exactly once, whatever duplicates the join has |
| Unfolding.ProxyEdge | backend/ent/account_query.go:646-676 | many-to-one: an account gets its own proxy if and only if the sub-query admits it |
| Unfolding.AccountGroupEdge | backend/ent/account_query.go:740-769 | one-to-many: an account gets exactly the rows that satisfy the sub-query and name it, in the sub-query's order, ties in table order |
| Unfolding.ParentEdge | backend/ent/accountgroup_query.go:379-405 | a row gets the account its foreign key names, if the sub-query admits it |
| Unfolding.BatchUnfoldsAccount | backend/ent/account_query.go:516-583 | for every finite tree of sub-queries without limits, batched reading gives the direct relational unfolding at every depth |
| Unfolding.BatchUnfoldsAccountGroup | backend/ent/accountgroup_query.go:334-377 | the same for the other half of the recursion |
| PlanLaws.ColumnsIgnored | backend/ent/account_query.go:783-805 | two plans that differ in selected columns only, even without the id or foreign keys, load the same groups, the same proxy and, row for row, readings of the same account-group rows with the same parents, at every depth |
| PlanLaws.ColumnsIgnoredBelow | backend/ent/accountgroup_query.go:448-467 | the same for an account-group row: both readings are of one table row |
| PlanLaws.IdFirstAndOnce | backend/ent/account_query.go:789-805 | a column selection yields the id first and never again, and every selected column |
| PlanLaws.SelectionRead | backend/ent/account_query.go:783-805 | an account is read with its own values of the selected columns, the id and the foreign keys the edges need, and of no other; without a selection, of all columns |
| PlanLaws.GroupSelectionRead | backend/ent/accountgroup_query.go:456-467 | the same for account-group rows |
| PlanLaws.EntitySelectionRead | backend/ent/account_query.go:783-805 | the same for groups and proxies |
| PlanLaws.LimitBoundsTheBatch | backend/ent/account_query.go:740-769 | with a limit on the sub-query, every owner gets its own first rows up to the limit if and only if the limit is zero, or the rows of all owners together fit it, or they all belong to one owner |
| PlanLaws.LimitStarvesSecondOwner | backend/ent/account_query.go:813-815 | two owners with one row each and a limit of one: the second owner gets nothing though its row is due |
| PlanLaws.LimitBoundsProxies | backend/ent/account_query.go:646-676 | with a limit on the proxy sub-query every account still gets its proxy if and only if the limit is zero or the proxies of all accounts together fit it |
| PlanLaws.LimitBoundsParents | backend/ent/accountgroup_query.go:379-405 | the same for the accounts that account-group rows name |
| PlanLaws.LimitBoundsGroups | backend/ent/account_query.go:585-645 | with a limit on the groups sub-query every account still gets all its groups if and only if the limit is zero or every account-group pair beyond the limit repeats one within it |
| PlanLaws.FirstGroupsInOrder | backend/ent/account_query.go:585-645 | neighbours appear in the order in which the joined rows first mention them |
| Loaders.IndexByKey | backend/ent/account_query.go:646-659 | buckets hold, per requested key, exactly the nodes with that key, in order |
| Loaders.AssignOne | backend/ent/account_query.go:667-676 | every owner holds the neighbour its key names; fails exactly when a neighbour has an id nobody asked for, naming the first one |
| Loaders.AssignMany | backend/ent/account_query.go:740-769 | every owner holds exactly its neighbours in order; fails exactly on an unknown foreign key, naming the first one |
| Loaders.SpreadConserves | backend/ent/account_query.go:740-769 | the shares of distinct owners add up to the number of rows returned: none lost, none given twice |
| Loaders.OwnersExact | backend/ent/account_query.go:619-628 | an account is in a neighbour's owner set if and only if some joined row links them |
| Loaders.ScanJoin | backend/ent/account_query.go:608-630 | the scan hook keeps each neighbour once and gathers all its owners |
| Loaders.AssignThrough | backend/ent/account_query.go:635-644 | every account holds exactly the neighbours that own it, in neighbour order, in whatever order owner sets are visited |
| QueryBuilders.CloneKeepsPlan | backend/ent/account_query.go:364-385 | a clone specifies the same query tree if and only if no builder of the tree has a lock modifier |
| QueryBuilders.CloneKeepsGroupPlan | backend/ent/accountgroup_query.go:218-236 | the same for account-group queries |
| QueryBuilders.CloneKeepsSettings | backend/ent/account_query.go:364-385 | a clone has every setting and every requested edge of its original, and no lock |
| QueryBuilders.LockDropped | backend/ent/account_query.go:364-385 | a builder locked for update, whose clone is not |
| QueryBuilders.AccountQuery.Configure | backend/ent/account_query.go:44-72 | a builder call changes this query as the call says and no other builder |
| QueryBuilders.AccountQuery.WithGroups | backend/ent/account_query.go:387-396 | the edge is requested with a new sub-builder configured by its own calls, replacing an earlier request |
| QueryBuilders.UnsetAsksAll | backend/ent/account_query.go:388-390 | a new sub-builder has no predicate, order, column choice, lock, limit or offset |
| QueryBuilders.AccountQuery.WithProxy | backend/ent/account_query.go:398-407 | the same for the proxy edge |
| QueryBuilders.AccountQuery.WithAccountGroups | backend/ent/account_query.go:431-440 | the same for a whole sub-tree of builders |
| QueryBuilders.AccountQuery.CallAll | backend/ent/account_query.go:44-72 | any sequence of builder calls, nested With calls included, leaves the tree those calls describe, and only new builders join it |
| QueryBuilders.CallsAddUp | backend/ent/account_query.go:44-72 | predicates, order keys, columns and locks add up in the order of the calls; of limits and of offsets the last one counts |
| QueryBuilders.CallsDescribeTree | backend/ent/account_query.go:44-72 | own calls configure the builder alone; of the requests for an edge the last one counts, on a new sub-builder |
| QueryBuilders.GroupCallsDescribeTree | backend/ent/accountgroup_query.go:36-65 | the same for account-group builders |
| QueryBuilders.AccountQuery.Clone | backend/ent/account_query.go:364-385 | the copy has no builder in common with the original and the plan of the original without lock modifiers |
| QueryBuilders.AccountGroupQuery.Clone | backend/ent/accountgroup_query.go:218-236 | the same, mutually recursive over the tree |
| QueryBuilders.AccountGroupQuery.WithAccount | backend/ent/accountgroup_query.go:238-247 | the parent edge is requested with a new sub-tree configured by its own calls |
| QueryBuilders.CloneThenConfigure | backend/ent/account_query.go:364-440 | after cloning, any builder calls on the one and on the other, With calls with whole sub-trees included, leave each tree as its own calls describe, and the two share no builder |
| EagerLoading.LoadGroups | backend/ent/account_query.go:585-645 | the join on the owners is recorded on the sub-builder; every account's cell holds the groups the batch pairs with it; fails exactly on an invalid selected column |
| EagerLoading.LoadProxy | backend/ent/account_query.go:646-676 | every account's cell holds the proxy of its key; no query and no failure when all keys are null |
| EagerLoading.LoadAccountGroups | backend/ent/account_query.go:740-769 | every account's cell holds its own rows, themselves loaded with their sub-tree |
| EagerLoading.LoadAccount | backend/ent/accountgroup_query.go:379-405 | every row's cell holds the account of its key, itself loaded with its sub-tree |
| EagerLoading.AccountSpecColumns | backend/ent/account_query.go:789-805 | the loop produces the selected columns with the id first |
| EagerLoading.LoadEdges | backend/ent/account_query.go:537-583 | all requested edges are filled; the first edge in trouble decides the error |
| EagerLoading.AllAccounts | backend/ent/account_query.go:516-583 | execution returns one fresh node per row, each showing what the batch gives it |
| EagerLoading.AllAccountGroups | backend/ent/accountgroup_query.go:334-377 | the same for account-group queries |
| EagerLoading.LoadedIsUnfolded | backend/ent/account_query.go:516-583 | a loaded object graph shows, node by node and at every depth, the relational unfolding |
| EagerLoading.All | backend/ent/account_query.go:284-292 | executing any tree terminates; it fails exactly when the tree reaches an invalid column, with its name; otherwise there is one node per row of the query's answer, in the order asked for, with the selected fields, and the heap graph is the unfolding; an unexpected foreign key never occurs |
| EagerLoading.CloneThenAll | backend/ent/account_query.go:364-385 | executing the original, which adds predicates to its sub-builders, leaves an earlier clone with its plan |
| EagerLoading.InvalidFieldExact | backend/ent/account_query.go:490-500 | a selection is refused exactly when a column is unknown, naming the first such column |
| EagerLoading.TroubleFree | backend/ent/account_query.go:490-583 | a tree that selects known columns only never fails; one whose own selection has an unknown column fails by it |
| EagerLoading.AccessorsReport | backend/ent/account.go:116-161 | accessors report NotLoaded exactly for unrequested edges, and NotFound exactly when no row satisfies the proxy edge |
| AccountEntity.ScanValues | backend/ent/account.go:164-186 | one holder of the column's type per column |
| AccountEntity.NoTypeError | backend/ent/account.go:189-432 | on holders from scanValues, for any column list, assigning never meets a type error; only a malformed document can fail it |
| AccountEntity.Account.AssignValues | backend/ent/account.go:189-432 | too few values change nothing; otherwise columns are assigned in order up to the first error |
| AccountEntity.OtherColumnsSelected | backend/ent/account.go:427-430 | a column that is no field goes to the selected values under its name, the last one counting, and to no field |
| AccountEntity.CreateOrderIsComplete | backend/ent/account_create.go:728-932 | the assignments of createSpec mention every sent field exactly once |
| AccountEntity.MakeSpec | backend/ent/account_create.go:728-932 | entity and row spec are built side by side from the same changes |
| AccountEntity.CellReadsBack | backend/ent/account_create.go:728-932 | one stored cell, scanned and assigned, gives its field the sent value and touches no other field |
| AccountEntity.CreatedEqualsReadBack | backend/ent/account_create.go:728-932 | for every mutation and column list, in any order and with repetitions, reading the inserted row gives every listed field the value it was created with, and leaves the others zero |
| BulkCreate.SavedEqualsReadBack | backend/ent/account_create.go:728-932 | the entity Save returns for a builder, made by createSpec and given its id, agrees with the entity read back from its row on every listed column |
| AccountCheck.FillDefaults | backend/ent/account_create.go:555-621 | set fields are kept; a field left out gets its default value, or its zero value where a plain default was never initialized; a missing generator stops with its field |
| AccountCheck.DefaultedKeeps | backend/ent/account_create.go:555-621 | defaults change no set field, add only fields that have a default, all of those, each with its default value |
| AccountCheck.DefaultsAre | backend/ent/account_create.go:555-621 | which fields have a generated default and which a plain one |
| AccountCheck.CheckExact | backend/ent/account_create.go:624-708 | a check passes if and only if every required field is set and every set field with a validator is accepted |
| AccountCheck.VerdictError | backend/ent/account_create.go:624-708 | the error names the first required field that is missing or refused, or a refused session status when none is |
| AccountCheck.CheckAfterDefaults | backend/ent/account_create.go:555-708 | after defaults, only name, platform and type can be missing |
| BulkCreate.InsertOnce | backend/ent/account_create.go:2248-2296 | for hooks that call next at most once and answer anything, the batch insert runs at most once, and runs exactly when every hook calls on and every check succeeds |
| BulkCreate.FirstBlockDecides | backend/ent/account_create.go:2248-2296 | Save ends as the hooks above it answer to the outermost mutator that does not hand over; without one, as they answer to the insert |
| BulkCreate.DeceptionExact | backend/ent/account_create.go:2286-2297 | Save reports success without stored rows if and only if the hooks answer with success to the outermost blocking mutator, or to an insert that failed |
| BulkCreate.DeceptionWitness | backend/ent/account_create.go:2286-2297 | one builder whose hook answers without calling on: Save succeeds and stores nothing |
| BulkCreate.DoneExact | backend/ent/account_create.go:2275-2284 | a mutation is marked done if and only if its builder's mutator is reached with a passing check and the rest of the chain ends in success, whatever hooks further out make of that |
| BulkCreate.AllOrNoneExact | backend/ent/account_create.go:2275-2291 | in terms of hooks, checks and the insert's reply: marking is all reached builders on success and none on failure if and only if, above every reached builder, the hooks answer with the same kind as what the hooks below it make of the reply, or of the outermost block |
| BulkCreate.DoneAllOrNone | backend/ent/account_create.go:2275-2291 | so it is for every chain whose hooks keep successes and failures apart |
| BulkCreate.DoneThenFailed | backend/ent/account_create.go:2278-2291 | a hook that fails after its builder was created: Save fails, yet the row is inserted and the mutation marked done |
| BulkCreate.DoneIsTail | backend/ent/account_create.go:2275-2284 | whatever the hooks do, at every moment the done mutations are a tail of the list of those the run will mark |
| BulkCreate.DoneIsSuffix | backend/ent/account_create.go:2275-2284 | with hooks that call on and keep successes and failures apart, at every moment they are a suffix of the builder list |
| BulkCreate.WellNested | backend/ent/account_create.go:2286-2291 | hook enters and exits are bracketed, whatever hooks that call next at most once answer and however the run ends |
| BulkCreate.SuccessfulTrace | backend/ent/account_create.go:2248-2296 | with hooks that keep successes, a run that nothing blocks enters every hook, inserts, and leaves the hooks in mirror order |
| BulkCreate.ChainOutermostFirst | backend/ent/account_create.go:2286-2296 | the chain holds every hook and builder once, hook 0 outermost of its builder and builder i around builder i+1 |
| BulkCreate.PassThroughSave | backend/ent/account_create.go:2241-2298 | with hooks that pass on: one insert if and only if all checks pass, otherwise the error of the lowest failing builder; all marked done on success, none on failure |
| BulkCreate.AbsorbedRun | backend/ent/account_create.go:2286-2296 | where hooks keep successes and failures apart, Save succeeds with the insert left out if and only if the outermost blocking mutator is a hook that answers with success without calling on |
| BulkCreate.AccountCreateBulk.BatchCreate | backend/ent/account_create.go:2265-2273 | every spec slot is filled when the insert runs; on success every slot gets its id |
| BulkCreate.AccountCreateBulk.Mutate | backend/ent/account_create.go:2255-2291 | the shared slices and marks end as the run of the chain from this position says |
| BulkCreate.AccountCreateBulk.Save | backend/ent/account_create.go:2241-2298 | every builder's changes are its own with the defaults filled in; the trace and error are those of the whole chain; marks are exactly the done events, and a marked mutation has the id of its node, which is the driver's where it reported one, also when Save then fails; every done slot of the result is its builder's entity with that id, and with hooks that call on and keep failures a success fills every slot |
| BulkCreate.JobsHaveDefaults | backend/ent/account_create.go:2250-2252 | what the setters set is kept, what they left out has its default, and nothing else is added |
| GitStream.ReadBlobs | tools/secret_scan.py:364-395 | the method asks once per distinct id, and its answer is that of reading one chunk per id with nothing left over |
| GitStream.AcceptedIffFramed | tools/secret_scan.py:371-395 | a stream is one valid frame per id if and only if it is accepted and no header met announces a negative size |
| GitStream.NegativeSizeAccepted | tools/secret_scan.py:381-393 | for every id, a header with size -1 and no content is accepted as an empty blob, though it is no frame |
| GitStream.HeaderExact | tools/secret_scan.py:377-385 | a header is accepted exactly when it is three ASCII words, the second of them blob and the third a number |
| GitStream.OtherTypeRefused | tools/secret_scan.py:379-380 | an answer about an object of another type is refused, whatever follows |
| GitStream.FramesAccepted | tools/secret_scan.py:371-395 | every stream of valid frames is accepted, with the contents the frames hold |
| GitStream.CutOrExtensionRejected | tools/secret_scan.py:386-394 | no strict beginning and no proper extension of a valid stream is accepted |
| GitStream.PrintedStreamReadsBack | tools/secret_scan.py:364-395 | reading undoes git's framing for arbitrary contents, newlines included: exactly the id-to-content map; every cut and extension is refused |
| Text.PrintParses | tools/secret_scan.py:381-385 | `int` undoes decimal printing |
| IndexEntries.NormalizeNormal | tools/secret_scan.py:194-198 | results are exactly the normal paths (nonempty lists of components, none empty, "." or ".."); these are the fixed points; normalising is idempotent |
| IndexEntries.NormalizeRefuses | tools/secret_scan.py:194-198 | a path is refused if and only if it is absolute, contains ".." or names nothing |
| IndexEntries.NormalizeKeeps | tools/secret_scan.py:194-198 | the named components are kept in order, whatever empty and "." components stand between them; backslashes separate as slashes do |
| IndexEntries.ParseIndexEntries | tools/secret_scan.py:324-336 | the entries of the nonempty records in order, or the failure of the first bad one |
| IndexEntries.EntriesExact | tools/secret_scan.py:324-336 | one bad record fails the whole listing, by the first bad one; otherwise the entries are those of the nonempty records, in order |
| IndexEntries.IndexReadsBack | tools/secret_scan.py:324-336 | the printed index parses to its entries, and splitting at the first colon recovers stage and path though paths hold tabs, colons and spaces |
| IndexEntries.ParsedIds | tools/secret_scan.py:330-335 | whatever bytes are listed, object ids of parsed entries are ASCII words |
| ObjectInfo.QueryObjectInfo | tools/secret_scan.py:339-361 | one line per distinct id, or failure |
| ObjectInfo.LineExact | tools/secret_scan.py:351-358 | a line is accepted if and only if it is three words, an id, a type and a number |
| ObjectInfo.AcceptedLines | tools/secret_scan.py:350-361 | the lines are read if and only if each is accepted; otherwise the first that is not gives the error |
| ObjectInfo.LastAnswerCounts | tools/secret_scan.py:359-360 | an id has the type and size of the last line that answers it, as the id asked for there or the one the line names |
| ObjectInfo.UnansweredKeeps | tools/secret_scan.py:359-360 | a line changes no other id |
| ObjectInfo.InfosOfStore | tools/secret_scan.py:339-361 | asked about an object store, the query fails if and only if an object is missing; otherwise it answers exactly the requested part of the store |
| ScanIndex.ScanIndex | tools/secret_scan.py:398-440 | the three loops yield, for any git output, the listed errors and findings or the first failure |
| ScanLaws.NothingLost | tools/secret_scan.py:398-440 | for any git output at all, in an answered scan every text path is a submodule link, or has an error under its own source and path, or had its text scanned; the totals balance accordingly |
| ScanLaws.ScanIsVerdicts | tools/secret_scan.py:398-440 | with git answering from a store: answered if and only if no scanned path names a missing object; then errors and findings are those of one independent verdict per entry, in order, and every text path is exactly one of link, error, scanned |
| ScanStages.StageDecided | tools/secret_scan.py:404-417 | on any printed index and for any answers about objects: a text path of mode 120000 is reported as a symbolic link, one of an unknown mode for that mode, and a regular one for its object or its text is scanned; the source is "index" exactly for stage 0 |
| ScanStages.ReportsAreCalledFor | tools/secret_scan.py:404-417 | every report and every scanned text belongs to a stage whose mode calls for it; a submodule link yields neither |
| ScanStages.AnsweredExactly | tools/secret_scan.py:419-430 | with an object store: the scan answers exactly when the store has the object of every regular text file |
| ScanStages.StoredStageDecided | tools/secret_scan.py:273-281 | a regular text file is reported for another object type, for more than 2097152 bytes, for a NUL byte or for its decoding error, in this precedence; otherwise the findings of its text are among those returned |
| ScanStages.StagesBalance | tools/secret_scan.py:398-440 | there are as many reports and scanned texts as text paths that are no submodule links |
| ScanLaws.BlobsOfStore | tools/secret_scan.py:364-395 | the blobs read from a store are its contents |
| ScanLaws.MissingObjectFailsScan | tools/secret_scan.py:351-353 | for any printed index with a regular text path whose object is missing, the scan has no answer for any path |
| ScanLaws.MissingObjectWitness | tools/secret_scan.py:351-353 | two files of which the store has the first: nothing is scanned |
| ScanText.ScanText | tools/secret_scan.py:292-321 | for arbitrary matches the findings are those of the blocks and, line by line, of the real tokens and of the suspicious values that share no character with a real token |
| ScanText.OccupiedMeansTaken | tools/secret_scan.py:301-314 | the span comparison skips a value if and only if it shares a character with some token that is no placeholder |
| ScanText.FindingsNumbered | tools/secret_scan.py:300-320 | a finding is returned for a line exactly when the line with that number, counted from 1, holds a token that is no placeholder, or a suspicious value that shares no character with one, by that name |
| ScanText.BlocksReported | tools/secret_scan.py:295-298 | a key block is reported exactly when its body is suspicious, under the number of newlines before it plus one |
| ScanText.BlockLineNumber | tools/secret_scan.py:295-300 | every position that is no break is in exactly one line; the newline count is the index of that line if and only if every line before it ends in a newline |
| ScanText.LinesEnded | tools/secret_scan.py:300 | before a line start splitlines yields as many lines as have ended |
| ScanText.WrongLineNumber | tools/secret_scan.py:295-298 | for every key block, after a lone carriage return: it is in the second line and reported in the first |
| Filler.IsRepeatedFiller | tools/secret_scan.py:223-233 | yes exactly for four or more characters that agree ignoring case or are invariant under a shift by at most eight that divides the length three times or more |
| Filler.RepeatsIsPeriodic | tools/secret_scan.py:229-232 | a text is its prefix repeated if and only if the shift by the prefix length leaves it unchanged |
| Filler.PeriodsMeet | tools/secret_scan.py:228-232 | two periods that fit together into the text have their gcd as a period |
| Filler.FirstUnitDivides | tools/secret_scan.py:228-232 | the first accepted unit length divides every accepted one |
| Filler.AcceptedLengths | tools/secret_scan.py:228-232 | the accepted unit lengths are exactly the admissible multiples of the first one |
| ExceptionList.ParseExceptions | tools/check_pnpm_audit_exceptions.py:23-48 | the loop with its open record yields the records of the list, or the error of its first malformed line |
| ExceptionList.ListRefused | tools/check_pnpm_audit_exceptions.py:12-45 | a list is refused if and only if one of its lines opens a record with text that has no colon |
| ExceptionList.PairSplits | tools/check_pnpm_audit_exceptions.py:12-20 | splitting a printed pair gives its key and value, quotes and colons in the value included |
| ExceptionList.ValuesRead | tools/check_pnpm_audit_exceptions.py:12-20 | a pair is cut at its first colon and both parts lose surrounding space; a value loses matching double or single quotes, a lone quote is empty, any other value stays |
| ExceptionList.IndentIgnored | tools/check_pnpm_audit_exceptions.py:29-29 | indentation and trailing space of a line do not count |
| ExceptionList.FileReadsBack | tools/check_pnpm_audit_exceptions.py:23-48 | the printed list parses to its records |
| ExceptionList.TextReadsBack | tools/check_pnpm_audit_exceptions.py:27-48 | the same from the text of the file, through Python's newline translation, for keys and values without line breaks of either kind |
| ExceptionList.NoiseIgnored | tools/check_pnpm_audit_exceptions.py:29-45 | a blank, comment, version or header line, or one that opens nothing and has no colon, changes neither records nor errors, even inside a record |
| ExceptionList.PreambleIgnored | tools/check_pnpm_audit_exceptions.py:34-45 | before the first record is opened no line counts |
| AuditReport.IterVulns | tools/check_pnpm_audit_exceptions.py:64-111 | one vulnerability per advisory, then one per nonempty identifier of each package |
| AuditReport.AdvisoryIdentified | tools/check_pnpm_audit_exceptions.py:51-61 | the identifier is the first nonempty of GitHub id, url, first CVE, number, title, advisory, overview |
| AuditReport.AdvisoryYields | tools/check_pnpm_audit_exceptions.py:68-78 | an advisory yields its module name, or else its name, with its own severity and identifier |
| AuditReport.ItemIdentified | tools/check_pnpm_audit_exceptions.py:87-108 | an entry's identifier is the first nonempty of GitHub id, url, source, title, name; a text is its own |
| AuditReport.PackageYields | tools/check_pnpm_audit_exceptions.py:82-111 | a package yields its name and severity once for each identifier, and nothing else |
| AuditReport.AdvisoryTitled | tools/check_pnpm_audit_exceptions.py:72-78 | an advisory's title is the first nonempty of its title, advisory, overview, url |
| AuditReport.ItemTitled | tools/check_pnpm_audit_exceptions.py:96-108 | an entry's title is the first nonempty of title, url, advisory, source; a text is its own |
| AuditReport.PackageTitled | tools/check_pnpm_audit_exceptions.py:109-111 | every vulnerability of a package carries the titles of all its entries that have one, in order, separated by a semicolon and a space |
| AuditReport.AnonymousYieldsNothing | tools/check_pnpm_audit_exceptions.py:82-111 | a package yields nothing if and only if none of its entries has an identifier |
| AuditReport.AnonymousPackageIgnored | tools/check_pnpm_audit_exceptions.py:80-111 | such a package, however severe, leaves the yielded list as if it were absent |
| AuditReport.AnonymousPackagePasses | tools/check_pnpm_audit_exceptions.py:80-111 | a report of one critical package without identifiers passes a gate without exceptions |
| AuditReport.AnonymousAdvisoryFails | tools/check_pnpm_audit_exceptions.py:66-78 | a severe named advisory without an identifier fails the gate |
| AuditGate.Gate | tools/check_pnpm_audit_exceptions.py:142-243 | the answer is 0 if and only if every exception is complete, dated, keyed and unique, and every severe named vulnerability has an identifier and an unexpired exception whose severity, if given, is that of the key's first vulnerability; the faults are listed in full |
| AuditGate.BuildIndex | tools/check_pnpm_audit_exceptions.py:151-185 | the index keeps the first valid exception of each key and faults every other |
| AuditGate.MatchVulns | tools/check_pnpm_audit_exceptions.py:192-219 | the walk over the vulnerabilities with its seen set |
| AuditGate.FaultlessIsPass | tools/check_pnpm_audit_exceptions.py:151-243 | the list of faults is empty if and only if the declarative demands hold |
| GateMeaning.PassMeaning | tools/check_pnpm_audit_exceptions.py:142-243 | the verdict on the records and vulnerabilities as written: every record has its five fields, a date, and names that are not blank, no two are about one package and advisory, and every severe named vulnerability has an advisory and a valid record about it in force, and the first of its target only records that agree in severity or name none; packages compare after strip, advisories and severities after strip and lower |
| GateMeaning.MatchingRecordPasses | tools/check_pnpm_audit_exceptions.py:163-176 | a valid, unexpired record that equals a vulnerability but for case and surrounding space passes for it |
| GateMeaning.SpellingIgnored | tools/check_pnpm_audit_exceptions.py:114-131 | rewriting fields with the same text but for case and surrounding space changes no verdict |
| GateMeaning.AdvisorySpellingIgnored | tools/check_pnpm_audit_exceptions.py:126-131 | so for the advisory of one exception |
| AuditGate.IndexFaultsHaveReasons | tools/check_pnpm_audit_exceptions.py:156-180 | every fault of the index is that of a refused exception, or of a second one for a key |
| AuditGate.WalkFaultsHaveReasons | tools/check_pnpm_audit_exceptions.py:193-219 | every fault of the walk is true of a vulnerability: no identifier, no exception, another severity, or the date on which its exception expired |
| AuditGate.IndexKeepsFirst | tools/check_pnpm_audit_exceptions.py:153-185 | whatever else is wrong with the list, the index holds for each key the first valid exception, and nothing else |
| GateLaws.ExceptionsPermuted | tools/check_pnpm_audit_exceptions.py:156-185 | the verdict does not depend on the order of the exceptions |
| GateLaws.FreshException | tools/check_pnpm_audit_exceptions.py:156-185 | a valid exception with a new key keeps a pass, and does not make one unless its key is needed |
| GateLaws.PassesUntil | tools/check_pnpm_audit_exceptions.py:216-219 | a pass holds on another day if and only if every needed exception lasts until then; so it holds on every earlier day |
| GateLaws.SeenOnceIsEnough | tools/check_pnpm_audit_exceptions.py:192-215 | a pass hides no severity mismatch if and only if vulnerabilities of one key agree in severity wherever the exception names one |
| GateLaws.MismatchMissed | tools/check_pnpm_audit_exceptions.py:203-215 | one exception and a report of two vulnerabilities that pass the gate, and fail it when the report lists them the other way round |
| GateLaws.ReportPermuted | tools/check_pnpm_audit_exceptions.py:192-215 | a pass holds for every order of the report if and only if vulnerabilities of one key agree in severity wherever the exception names one |

## Left out

- EagerLoading.All: one execution of a freshly built query; the loaders add predicates to the sub-queries, so a second execution of the same tree is another statement.
- EagerLoading.All: with a limit or offset on a sub-query the loaded graph is described by the batched reading; the `PlanLaws.LimitBounds...` lemmas say, edge by edge, when limits leave it the unfolding, and offsets have no such law.
- Owner, usage-log and group edges of accounts and account groups: they go through the same three loader methods with other columns.
- Sub-queries of groups and proxies have no edges of their own in the model.
- SQL text, drivers, transactions, interceptors, traversal paths and the unique flag: a query is a filter, a stable sort and a page over rows; ties keep table order.
- Predicates and orders are arbitrary functions of a row; NULL ordering and collation are not modelled.
- BulkCreate.AccountCreateBulk.Save: a hook calls the next mutator at most once and answers with any function of its result; hooks that call it twice, replace the mutation or panic, and the error the client sets before `Save`, are not modelled.
- BulkCreate.AccountCreateBulk.Save: the id and done flag of a mutation are an array of marks, and the panic of `*X` wrappers is left out.
- Single `Save`, upsert clauses, update and delete builders: thin wrappers over what is modelled.
- Limits and offsets are natural numbers; negative ones, which the builders accept, are not modelled.
- Integer widths of Go and the digit limit of Python's `int`: integers are unbounded.
- GitStream.ReadBlobs: a byte string is a string with one character per byte, and running git is a function of the request.
- ScanIndex.ScanIndex: `is_text_path`, UTF-8 decoding and the text of messages are parameters or data, not strings.
- ScanText.ScanText: the regular expressions, `is_placeholder_value` and `is_suspicious_field_value` are arbitrary functions; matches are never empty.
- The scan of the worktree, file reading, printing, argument parsing and exit codes of the command line: input and output.
- Filler.IsRepeatedFiller: lower-casing is an arbitrary function of the text.
- ExceptionList.ParseExceptions: takes the lines of the file; `ExceptionList.TextReadsBack` adds their reading, newline translation included.
- AuditGate.Gate: `lower` and the ISO date parser are arbitrary functions; absent and empty strings of the report are one value; the set that holds a missing-fields message is not ordered, so the fault keeps the record instead.
- The other generated entities (API keys, announcements, identities): the same templates with other columns.
