# Seekwel, modelled and proved

Seekwel is a small SQLite ORM written in Rust. This project models the parts of it where a
mistake costs data, and proves what they promise. SQLite itself is an abstract machine: each
statement has an effect on tables and rows, or fails. Files that update state in place are
modelled by classes and loops, each proved against a function; the theorems are about those
functions.

**Schema planning and applying** (`Schema*.dfy`, `Affinity.dfy`). `diff` compiles a target
and the live tables into sorted operations and blockers; `apply` rechecks the plan and runs it in
one transaction. A database maps table names to a definition and rows keyed by primary key.
Index names and table names share one namespace. How a value is stored under an affinity and
what a default expression evaluates to are parameters (`Engine`). The main results: running an
unblocked plan never meets a missing or existing table, column or index and ends at the target;
planning again is empty; safe plans keep every row and cell; after any completed apply altered
tables keep their rows and rebuilt ones carry them over one to one; over any sequence of applies
which tables exist follows from the applied targets and their history texts, and when each text
reads back with its target's table names, exactly the last target's tables stay managed and tables
never named are never touched. Exactly when an unblocked plan runs to the end is a condition on the
stored rows and on the user's own indexes (`PlanRunsExactly`).

Two gaps came to light, and each is stated exactly. A rebuild that drops a column under an index of
the user's own gets no blocker and never runs (`UnblockedPlanThatFails`, `EmptyTablesRunExactly`).
And default values go into the history text unescaped: the default `'line1`, newline, `line2'` is
legal, and once a target with it is applied no plan can be built any more, for any target
(`NoPlanAfterUnreadable`); a default that holds the record of a table `b` makes the next plan drop a
live table `b` that no target ever named (`MisleadingPlanDropsStranger`, `TwoAppliesDropStranger`).
Planning again after an apply asks for nothing if and only if the target's text can be read and
names no other live table (`ApplyThenPlanIsEmpty`).

**Canonical text and fingerprints** (`CanonicalText.dfy`, `Fingerprint.dfy`,
`SchemaNormalForm.dfy`). The history text is read back as the same schema if and only if no
string holds a tab or newline, no line ends in a carriage return, and no default is the empty
string. FNV-1a steps are bijections modulo 2^64.

**Transactions** (`Transaction*.dfy`, `Decimal.dfy`). A closure is a program tree of writes,
nested transactions, errors, panics and handlers that may swallow either. The machine with its
SAVEPOINT stack and thread-local state computes what the tree denotes, statement failures
included, and what it denotes is: exactly the writes whose every enclosing transaction
succeeded, if and only if no failing statement does harm (`Harmless`): where a nested transaction is
neither released nor undone as it should be, its body left nothing behind, and every outer one is
committed or rolled back.

**Locks and the reader pool** (`LockProtocol.dfy`). Any number of threads, each a list of calls,
step through pool mutex, condition variable, gate and writer mutex; spurious wakeups, barging and
every choice of notified waiter are steps. Safety, conservation, no lost wakeup and deadlock
freedom hold in every reachable state, for file and for in-memory databases; every run is bounded,
and one that no thread can continue has finished every call.

**Queries** (`Query*.dfy`, `Queries.dfy`, `Paging.dfy`, `HasMany.dfy`). A filter tree is compiled
to SQL tokens with numbered placeholders. A parser of those tokens, under either precedence of
AND and OR, recovers the tree, and its three-valued truth on every row is the filter's own. Lazy
and chunked iterators deliver the eager query's rows, with an exact number of page requests, as
long as the printed numbers are integers to SQLite: a limit, offset or chunk size of 2^63 or more is
a legal argument whose query fails (`HugeNumbersAreRefused`), and which requests fail is stated
exactly. No chain of builder calls lets an association query out of its parent.

**Form parameters** (`Param*.dfy`). A key such as `pets[][name]` is parsed to segments and a value
inserted along them. Looking up what was inserted finds it, paths apart are unchanged, guarded
merging loses no leaf, and a list of records comes back exactly when every later record starts
with a key of the one before.

## Conventions

- Names are exact strings. Target indexes carry the managed prefix `seekwel_idx_`.
- `NamesApart` collects the naming conventions the planner relies on without checking them: each
  index name belongs to one table, no index is called like a table, and the
  `__seekwel_rebuild_` names are free.
- `Reached` compares non-key column types up to affinity, as the planner does.
- `USIZE_MAX` is 2^64 - 1 and bounds result sets; `INTEGER_MAX`, 2^63 - 1, is SQLite's largest
  integer literal. `LIMIT 0` ends a statement before its `OFFSET` is read.
- A comparison is made under the affinity and collating sequence of its column, which `Collation`
  leaves open.
- The repository's README lists the comparisons without `In`; the code has it, and so does the
  model.

## Model

| member | source | states |
|---|---|---|
| SchemaNormalForm.NormalizedMeaning | src/schema/types.rs:16-75 | normalizing succeeds exactly on schemas with distinct table, column and index names, a key apart from the columns and indexes on declared columns; the result is in name order |
| SchemaNormalForm.IsNormalMeaning | src/schema/types.rs:16-75 | a schema is its own normal form exactly when it is well formed and listed in order |
| SchemaNormalForm.NormalizedIdempotent | src/schema/types.rs:16-75 | normalizing twice is normalizing once |
| SchemaNormalForm.NormalizedPermutedTables | src/schema/types.rs:17-35 | permuting the tables changes neither the result nor the error reported |
| SchemaNormalForm.NormalizedPermutedMembers | src/schema/types.rs:17-35 | permuting columns and indexes inside tables changes neither the result nor the error reported |
| SchemaNormalForm.Normalize | src/schema/types.rs:16-75 | the loop computes the normal form or its error, and succeeds exactly on well-formed schemas |
| SchemaNormalForm.CheckTable | src/schema/types.rs:36-72 | the checks of one table find its first fault in source order |
| CanonicalText.CanonicalString | src/schema/types.rs:77-108 | the buffer-filling loops print exactly the canonical text |
| CanonicalText.ReadCanonical | src/schema/types.rs:110-238 | the reading loop gives the parsed schema or the first error; what it accepts is in normal form and free of tabs and newlines |
| CanonicalText.PrintedReadsBack | src/schema/types.rs:77-238 | a printed schema without tabs and newlines reads back, except for empty defaults and carriage returns at line ends |
| CanonicalText.CanonicalRoundTrip | src/schema/types.rs:77-238 | a normalized schema reads back as itself if and only if it is text safe |
| CanonicalText.CanonicalInjective | src/schema/types.rs:77-108 | text-safe schemas with the same text are the same |
| CanonicalText.EmptyDefaultIsLost | src/schema/types.rs:77-238 | in every printable one-column table an empty default comes back as no default |
| Fingerprint.HashBytes | src/schema/types.rs:340-350 | the loop computes 64-bit FNV-1a |
| Fingerprint.MixInjectiveInHash | src/schema/types.rs:345-348 | one step is injective in the hash state |
| Fingerprint.MixInjectiveInByte | src/schema/types.rs:345-348 | one step is injective in the byte |
| Fingerprint.FnvSingleByte | src/schema/types.rs:340-350 | byte strings of one length that differ in one place hash differently |
| Fingerprint.OneCharacterIsNoticed | src/schema/types.rs:241-244 | texts that differ in one ASCII character have different fingerprints |
| Affinity.AffinityIgnoresCase | src/schema/types.rs:320-334 | the affinity of a declared type, section 3.1 of "Datatypes In SQLite", does not depend on ASCII letter case |
| Affinity.AffinityRules | src/schema/types.rs:320-334 | the affinity is decided by which words the declared type mentions anywhere in any case, in order of precedence, and by whether it is blank |
| SchemaPlanner.CompareColumns | src/schema/diff.rs:80-116 | the column loop collects additions, required-column blockers and rebuild reasons |
| SchemaPlanner.CompareIndexes | src/schema/diff.rs:171-192 | the index loop creates missing indexes and replaces changed ones |
| SchemaPlanner.CompareTable | src/schema/diff.rs:41-201 | one existing table gets a rebuild with its blockers when anything calls for one, else its additions and index changes |
| SchemaPlanner.CompareTargets | src/schema/diff.rs:33-202 | the target loop lists the operations and blockers of every target table |
| SchemaPlanner.DropSurplus | src/schema/diff.rs:204-231 | tables in scope that the target lacks are dropped, with their blockers |
| SchemaPlanner.ComputeDiff | src/schema/diff.rs:15-241 | the planner returns the specified plan, sorted by its keys, or the live schema's error |
| SchemaDiffFacts.ReasonsEmpty | src/schema/diff.rs:65-127 | a table needs no rebuild exactly when key, affinities, nullability and defaults agree and no column is dropped |
| SchemaDiffFacts.TableSettled | src/schema/diff.rs:41-202 | a table gets no operation and no blocker exactly when it matches its target |
| SchemaTheorems.DiffSucceeds | src/schema/diff.rs:19-22 | a well-formed database always yields a plan |
| SchemaTheorems.NothingToDo | src/schema/diff.rs:15-241 | a plan is empty and unblocked exactly when every target table matches and no surplus table is left |
| SchemaShares.RunOpsShares | src/schema/apply.rs:46-64 | with names apart, running a plan on the database is running each table's share on that table alone |
| SchemaAlter.AlterationRuns | src/schema/diff.rs:163-201 | drops, additions and creations in key order run through and settle the table, or stop at stored data |
| SchemaConvergence.RebuildSettles | src/schema/apply.rs:165-202 | a rebuild settles the table and keeps the indexes the user made by `CREATE INDEX`, or stops at stored data |
| SchemaTheorems.PlanConverges | src/schema/diff.rs:233-252 | the sorted operations of an unblocked plan meet no missing or existing object and reach the target; only stored data can stop them |
| SchemaFit.PlanRunsExactly | src/schema/apply.rs:43-64 | an unblocked plan runs to the end if and only if, in every table it alters, added columns find a value and new unique indexes no value twice, and, in every table it rebuilds, keys convert to distinct keys, no required column is left empty, no unique index finds a value twice, and every index the user made by `CREATE INDEX` sits on a column that stays |
| SchemaFit.EmptyTablesRunExactly | src/schema/apply.rs:196-199 | over tables without rows an unblocked plan runs to the end if and only if no index the user made by `CREATE INDEX` sits on a dropped column |
| SchemaFit.UnblockedPlanThatFails | src/schema/diff.rs:129-160 | a table with an index of the user's own on column `a` and a target without `a` give a plan with operations and no blocker that cannot run |
| SchemaTheorems.DroppedReplayStopsPlan | src/schema/apply.rs:196-199 | when the target drops a column under an index the user made by `CREATE INDEX`, no plan for it runs to the end, blocked or not, whatever the rows |
| SchemaTheorems.ReplanIsEmpty | src/schema/diff.rs:15-241 | planning again after reaching the target gives no operation and no blocker |
| SchemaApply.Database.Execute | src/schema/apply.rs:142-163 | a statement has its effect or changes nothing, and on a reliable connection fails only for that effect's error |
| SchemaApply.Database.RebuildTable | src/schema/apply.rs:165-202 | create, copy, drop, rename, index and replay in this order have the specified combined effect |
| SchemaApply.Database.Perform | src/schema/apply.rs:46-64 | each kind of operation has its specified effect |
| SchemaApply.Database.PerformAll | src/schema/apply.rs:43-83 | all operations run in order and one history row is appended |
| SchemaApply.Database.Rollback | src/schema/apply.rs:137-140 | what is committed stays; a failing rollback leaves the transaction open |
| SchemaApply.Database.Transact | src/schema/apply.rs:101-125 | a transaction that is kept ran every operation; one that is not leaves the committed state as it was; without statement failures it is kept exactly when the operations run |
| SchemaApply.Database.Apply | src/schema/apply.rs:13-92 | a refused plan reports the first refusal; a failed one leaves the committed tables and history as they were, even when its rollback fails; a completed one ran every operation and recorded its target; without statement failures it succeeds exactly when plan and operations do |
| SchemaApply.Database.Build | src/schema/plan.rs:42-64 | the plan is the one for the scope read from the history, or the first error |
| SchemaPlanner.RetainColumns | src/schema/apply.rs:204-219 | the loop pairs key with key and every surviving column with its namesake |
| SchemaData.SafePlanKeepsData | src/schema/apply.rs:37-64 | a plan without destructive operations keeps every row key and every existing cell |
| SchemaRuns.SafeApplyKeepsData | src/schema/apply.rs:37-83 | a completed apply in safe mode keeps every table, row key and existing cell |
| SchemaData.RetainedDistinct | src/schema/apply.rs:204-219 | the copied columns have distinct existing sources and distinct existing destinations |
| SchemaData.SwapCarriesRows | src/schema/apply.rs:165-194 | a rebuild maps rows one to one by key; shared columns keep their value as the new affinity stores it, new ones hold their default |
| SchemaData.SwapKeepsUnchangedColumns | src/schema/apply.rs:165-219 | with the key type unchanged keys stay, and columns of unchanged affinity keep their cells |
| SchemaData.LostColumnsAreNamed | src/schema/diff.rs:118-127 | the columns a rebuild loses are exactly those its reason names |
| SchemaFit.AppliedKeepsRows | src/schema/apply.rs:43-64 | after a completed apply in any mode an altered table keeps every row and cell, and a rebuilt one holds exactly its rows, one to one by key |
| SchemaRuns.PlanEffect | src/schema/apply.rs:43-64 | a plan that runs leaves target tables present, other tables of its scope absent and everything else untouched, without any naming convention |
| SchemaRuns.ScopeOfNext | src/schema/introspect.rs:31-43 | the next plan has a scope if and only if the latest history text can be read, and it holds the target's tables and those the text names |
| SchemaRuns.StepEffect | src/schema/apply.rs:13-92 | a completed plan-and-apply step over any target leaves the target's tables present, the others the latest history text names absent, and everything else untouched |
| SchemaRuns.RunsFollowTheTexts | src/schema/history.rs:8-23 | after any attempts over any targets the history lists the texts of the applied targets, which tables exist follows from targets and texts, and tables named by neither are as at the start |
| SchemaRuns.PrintableKeepsNames | src/schema/types.rs:77-238 | the text of a target whose strings hold no tab or newline reads back with the target's table names |
| SchemaRuns.RunsManageExactlyTheLastTarget | src/schema/introspect.rs:31-43 | after any attempts over targets whose texts read back with their own table names, tables ever named exist exactly when the last applied target names them, and others are as at the start |
| SchemaGaps.UnreadableDefault | src/schema/types.rs:86-94 | a default that goes on in a new line with a word that starts no record leaves a text that cannot be read, and no plan for any target can be built on it |
| SchemaGaps.NoPlanAfterUnreadable | src/schema/history.rs:15-22 | a concrete legal target after which no plan can be built |
| SchemaGaps.DefaultHidesTable | src/schema/types.rs:86-94 | a default that holds a table's record gives the text of a schema with that table |
| SchemaGaps.StrangerIsDropped | src/schema/diff.rs:204-231 | a live table named by the last history text and not by the target is dropped by the next plan |
| SchemaGaps.MisleadingPlanDropsStranger | src/schema/introspect.rs:31-43 | a concrete legal target whose next plan drops a live table it does not name |
| SchemaGaps.TwoAppliesDropStranger | src/schema/apply.rs:13-92 | once that target has been applied twice the table is gone |
| SchemaRuns.AppliedReaches | src/schema/apply.rs:13-91 | a completed apply has put the target in place |
| SchemaRuns.ApplyThenPlanIsEmpty | src/schema/plan.rs:42-64 | planning the same target right after a completed apply succeeds and asks for nothing if and only if the target's history text can be read and names no live table but the target's |
| SchemaRuns.KeptNamesReplan | src/schema/history.rs:8-23 | a target whose text reads back with its own table names meets that condition, whatever is live |
| TransactionSemantics.ExactlyTheKeptWrites | src/connection.rs:420-480 | for every program, inside a transaction or outside: the store gains exactly the executed writes whose every enclosing transaction succeeded, and no transaction is left open, if and only if no failing statement does harm |
| TransactionSemantics.ReliableIsHarmless | src/connection.rs:434-478 | no harm is done when the undos of failing transactions and the releases of succeeding ones work, as far as they are executed |
| TransactionSemantics.LeavesBehind | src/connection.rs:453-480 | inside a transaction the store gains exactly what the program leaves behind, whatever fails |
| TransactionSemantics.LeavesBehindOutside | src/connection.rs:420-451 | outside one too, unless an outer transaction can neither be committed nor rolled back, which stays open |
| TransactionSemantics.ActiveKeepsCommitted | src/connection.rs:453-480 | nothing is committed while a transaction is open |
| TransactionSemantics.OutcomeInside | src/connection.rs:453-480 | inside a transaction, how a closure ends depends on no stored data and on no failing undo |
| TransactionSemantics.NestedFailureRestores | src/connection.rs:453-480 | a nested transaction that reports failure restores the store exactly when its body, whatever fails in it, left no write behind, or failed itself and the rollback worked |
| TransactionSemantics.FailedReleaseKeepsTheWrite | src/connection.rs:461-465 | a program whose nested transaction fails at its release and whose write is committed anyway |
| Transactions.Session.Run | src/connection.rs:112-121 | the machine ends with the outcome and store the program denotes, and with depth and, if no executed release fails, savepoints as before |
| Transactions.Session.OuterTransaction | src/connection.rs:420-451 | begin, run, commit or roll back; no transaction state is left behind, and the kept writes are committed and no SQL transaction is left open if and only if no failing statement does harm |
| Transactions.Session.NestedTransaction | src/connection.rs:453-480 | savepoint, run, then release or roll back to it and release; depth and the savepoints below are restored |
| Transactions.Session.BeginSavepoint | src/connection.rs:482-504 | the name is one the outer transaction never issued, and the depth moves back when the statement fails |
| Transactions.Session.UndoNested | src/connection.rs:467-478 | the store returns to the savepoint's snapshot |
| Transactions.SavepointNameInjective | src/connection.rs:490 | different counters give different names |
| LockProtocol.RunInv | src/connection.rs:325-408 | every state of every run satisfies the invariant tying each thread's position to the locks it holds |
| LockProtocol.LockSafety | src/connection.rs:325-356 | the writer's holder holds the gate, exclusive access excludes every other accessor, and no thread asks for the gate while holding it |
| LockProtocol.PoolConservation | src/connection.rs:374-408 | idle and checked-out connections add up to the initial pool, and no connection is in two places |
| LockProtocol.NoLostWakeup | src/connection.rs:374-408 | with a sleeper and the pool mutex free, the idle connections are at most the woken threads |
| LockProtocol.DeadlockFreedom | src/connection.rs:210-243 | while a thread is unfinished some thread can step, even when waiting writers keep readers out and nobody wakes spuriously |
| LockProtocol.RunsAreBounded | src/connection.rs:325-408 | a run has no more steps than the work its first state holds, three more for each spurious wakeup |
| LockProtocol.StoppedRunIsFinished | src/connection.rs:325-408 | a run that no thread can continue, even under the strict policy, has finished every call |
| LockProtocol.StrictStepIsStep | src/connection.rs:294-301 | a step under the writer-preferring policy is a step of the protocol |
| QueryExpression.ParamBuffer.PushPlaceholder | src/model/comparison.rs:231-235 | the value is appended and the placeholder is its one-based position |
| QueryExpression.ParamBuffer.LeafIntoClause | src/model/comparison.rs:150-212 | a comparison is compiled or refused as specified, extending the parameters only |
| QueryExpression.ParamBuffer.IntoClause | src/model/query/expression.rs:19-36 | the recursive descent compiles the whole tree, extending the parameters only |
| QueryTheorems.CompilePreservesMeaning | src/model/query/expression.rs:18-45 | the compiled clause has the filter's three-valued truth on every row, under either precedence and with more values bound after it; the empty filter is the identity |
| QueryTheorems.CompileFailsExactly | src/model/comparison.rs:150-212 | compiling fails exactly on a leaf whose operator does not support its operand |
| QueryTheorems.OnlyOrderingNullIsRefused | src/model/comparison.rs:150-175 | a filter built by the public constructors is refused exactly when some leaf orders a column against NULL |
| QueryTheorems.InOverNothingIsFalse | src/model/comparison.rs:104-118 | `In` over only absent operands is supported and false |
| QueryTheorems.PlaceholdersInOrder | src/model/comparison.rs:231-235 | read left to right the placeholders are exactly old length + 1 up to new length |
| QueryTheorems.ParsePrinted | src/model/query/expression.rs:39-45 | printed clauses parse back to their tree under either precedence |
| QueryTheorems.GroupingIsUnambiguous | src/model/query/expression.rs:39-45 | a compiled clause parses to the filter's tree without its empty parts |
| Queries.BuildQueryPlan | src/model/query.rs:492-512 | the plan is the compiled filter with its parameters, ordering and paging, or the compile error |
| Queries.TailMeaning | src/sql/select.rs:221-240 | a rendered LIMIT and OFFSET is answered if and only if the numbers are at most 2^63 - 1 or the limit is 0, and then skips and keeps the asked rows |
| Queries.EagerAnswers | src/model/query.rs:168-211 | `all` and `count` answer the page and its length if and only if limit and offset fit; `first` and `exists` answer its first row if and only if the offset fits or the limit is 0 |
| Queries.PagedAnswers | src/model/query.rs:213-232 | a page request returns the next rows of the page if and only if what it asks for and where it starts fit |
| Queries.FirstRequestDecides | src/model/query.rs:217-232 | with at most 2^63 - 1 rows, when the first request fits all later ones do |
| Queries.HugeNumbersAreRefused | src/sql/select.rs:226-236 | the largest limit, an offset of 2^63 and the largest chunk size are refused whatever the rows |
| Paging.ChunkedTryIter.Next | src/model/query/chunked.rs:150-190 | a chunk is the next stretch of the page; a request fails exactly on a fault or a number that does not fit; the end or a failure is final; what is left shrinks by exactly the chunk |
| Paging.LazyTryIter.Next | src/model/query/lazy.rs:143-178 | an item is the next row of the page; a request fails exactly on a fault or an offset that does not fit; the end or a failure is final |
| Paging.CollectChunks | src/model/query/chunked.rs:129-206 | the chunks concatenate to the page, are non-empty and full except perhaps the last, and take one request each plus one more exactly when the page is a multiple of the size and the limit is not used up; a faulty or refused request cuts the list short; without faults, over at most 2^63 - 1 rows, it fails if and only if the first request does not fit |
| Paging.CollectItems | src/model/query/lazy.rs:123-194 | the items are the page, one request each plus one more unless the limit is used up; a faulty or refused request cuts the list short; without faults it fails if and only if the first request does not fit |
| HasMany.ChainShape | src/model/association/has_many.rs:332-391 | after any builder calls the scope keeps the parent predicate, the filter is the left-to-right fold of the and/or calls, orderings accumulate, the last limit and offset win, and only `chunked(0)` panics |
| HasMany.UnboundStaysUnbound | src/model/association/has_many.rs:41-147 | an association without a parent, or made without its handlers, stays an error through every chain |
| HasMany.ScopeIsInescapable | src/model/association/has_many.rs:383-391 | the plan of any chain admits exactly the parent's rows that pass the filter, and fails exactly on an unsupported filter |
| HasMany.PagesStayInside | src/model/query/chunked.rs:55-92 | every row of every page of a chain belongs to the parent |
| HasMany.StoredIdInjective | src/model/sql_field.rs:148-158 | two parent ids are never stored as the same integer |
| HasMany.QuerySelectsChildren | src/model/association/has_many.rs:140-147 | the association's own query is planned, has no paging, and selects exactly the parent's children |
| HasMany.ChildTable.Save | seekwel-macros/src/model/codegen.rs:685-704 | the saved child is the parent's, whatever the builder held |
| HasMany.Association.Load | src/model/association/has_many.rs:246-257 | the scoped query's rows, cached or not, are the parent's children, and a failure caches nothing |
| HasMany.Association.Append | src/model/association/has_many.rs:260-269 | the parent's children gain exactly the new child, and a filled cache follows |
| ParamKeys.ParamKeySegments | src/model/params.rs:275-298 | the loop splits a key into its segments |
| ParamKeys.PrintedSegments | src/model/params.rs:275-298 | printing the segments of any key gives the key back |
| ParamKeys.SegmentsInjective | src/model/params.rs:275-298 | different keys have different segments |
| ParamKeys.ReadPrinted | src/model/params.rs:275-298 | every unambiguous list of segments is read back from its printed key |
| ParamKeys.SegmentsAreCanonical | src/model/params.rs:275-298 | the segments of a key are the key itself or an unambiguous list |
| Params.ParamCell.InsertPath | src/model/params.rs:181-208 | the in-place insertion leaves the specified tree |
| Params.ParamCell.TakePath | src/model/params.rs:169-179 | the value at the path is returned and removed |
| Params.ParamCell.InsertEntry | src/model/params.rs:162-166 | a key's segments are the path of its insertion |
| Params.ReadForm | seekwel-macros/src/model/codegen.rs:536-547 | a form is its entries inserted in order |
| ParamTheorems.LookupInserted | src/model/params.rs:169-208 | after an insertion on any tree, lookups at and below the path find the inserted value and its parts |
| ParamTheorems.InsertFrame | src/model/params.rs:181-245 | lookups apart from the path are unchanged, even where a scalar or list was replaced |
| ParamTheorems.ApartIsIncomparable | src/model/params.rs:169-208 | paths of keys are apart exactly when neither is a prefix of the other |
| ParamTheorems.TakeThenInsert | src/model/params.rs:169-208 | putting a taken value back restores the tree |
| ParamTheorems.TakeFrame | src/model/params.rs:169-179 | taking removes the value and nothing apart from it |
| ParamLeaves.InsertedIsThere | src/model/params.rs:181-208 | the inserted value, with all its parts, is at the place the insertion goes to, lists included |
| ParamLeaves.LeavesKept | src/model/params.rs:210-225 | a guarded insertion keeps every leaf at its location and adds only the inserted leaves at a place that had none |
| ParamLeaves.GuardedInsertIsLossless | src/model/params.rs:181-225 | the leaves afterwards are the old and the inserted ones, and their numbers add up |
| ParamRecords.ListComesBack | src/model/params.rs:185-199 | chained records build exactly their list; otherwise some record ends up with a field it never had |
| ParamRecords.RecordListRoundTrip | src/model/params.rs:161-225 | a record list sent as bracketed entries under a free prefix comes back exactly when every later record starts with a key of the one before |
| ParamRecords.RecordListFrame | src/model/params.rs:161-225 | the rest of the tree is as before |

## Left out

- SQL text: clauses are token sequences, and statements are their effects; quoting, spelling and JSON rendering are not modelled.
- The sixteen hexadecimal digits of a fingerprint and the plan id: the 64-bit hash stands for them.
- Statements SQLite fails by aborting the whole transaction on its own, and raw `COMMIT` or `ROLLBACK` inside closures.
- SchemaApply.Database.Apply: a panic inside an apply is not modelled; introspection reads, `PRAGMA integrity_check`, the history table and the history insert are possible failures without further effect.
- SchemaTheorems.PlanConverges: assumes the conventions of `NamesApart`, and that no user index sits on a dropped column; `PlanRunsExactly` shows the second condition to be needed.
- A live table without any primary key: introspection reports the key `id INTEGER` for it, so such a table with a plain `id` column can look settled and draw no blocker; every live table of the model has a key.
- Replayed triggers and views have no effect on tables in the model; only replayed indexes do.
- Indexes SQLite makes for inline `UNIQUE` constraints: the code neither replays them nor lists them as a blocker or a reason, so a rebuild silently loses the uniqueness.
- Replayed index SQL is taken to spell its column unquoted: in double quotes, a default SQLite reads the name of a dropped column as a string and creates the index.
- Views share SQLite's namespace with tables and indexes; a view called like a target table gives an unblocked `CreateTable` that fails.
- SQLite's configured limits on bound values, expression depth, parser nesting and statement length, beyond which a long filter or an `In` over very many operands is refused.
- Partial and multi-column indexes, case-insensitive identifiers, and what the PRAGMAs report beyond columns, single-column indexes and obstacles to a rebuild.
- SchemaRuns.RunsFollowTheTexts: nothing else changes the schema between the steps, and the rollbacks of failing steps work.
- LockProtocol.DeadlockFreedom: callbacks end, and make further calls only inside a transaction, where they use the pinned connection; lock poisoning is ignored as the code ignores it, and `tokio` blocking is not modelled.
- Paging.CollectChunks: rows are a fixed sequence during the iteration.
- HasMany.Association.Load: rows come back in insertion order, and only this handle changes the children between its calls, or the cache is cleared in between; the cache's own mutex is not modelled.
- HasMany.Association.Append: takes the collation to find a stored id equal to itself; what else the child's builder may refuse is one possible failure.
- Params.ParamCell.InsertPath: a borrowed child is moved to a cell of its own and moved back, so aliasing is not modelled.
- Raw `ORDER BY` fragments: ordering terms are carried along, and their effect is the given row order.
- The query log, the registry, the procedural macros other than the form loop, serde visitors and scalar parsing, typestates, validation, insert and update rendering: plumbing or easy members.
