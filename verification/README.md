# Verified model of the ent runtime for accounts and of the audit gate

This project models, in Dafny 4.11, four algorithms of the repository and proves what they promise:

1. **Eager loading** (`backend/ent/account_query.go`, `backend/ent/accountgroup_query.go`). One batched child
   query per edge, whose rows are handed to the parent nodes through hash maps. `EdgeJoin` defines the joins as
   properties of lists, `EdgeLoading`, `ManyToOne`, `EagerQuery` and `MembershipQuery` hold the loops that compute
   them on nodes updated in place, `LoadErrors` says which error is reported, and `Projection`, `ChildProjection`,
   `EntityRow`, `AccountRow` and `ChildTables` follow column selections and rows from the queries down to the struct
   fields that the loaders read.
2. **Creation** (`backend/ent/account_create.go`, `withHooks` in `backend/ent/ent.go`). A bulk creation is a chain
   of mutators, each wrapped in user hooks, that calls itself forward, inserts once at the end and back-fills
   identifiers on the way back; a single one is a chain of hooks around one exec step. `HookChain` gives the meaning of
   a chain for arbitrary hooks, `HookLaws` and `SaveLaws` are its laws, `SingleLaws` says what a single save does, and
   `Creation` is the code that updates the state. `CreationLaws` states the laws for whole bulk creations,
   `BulkAndSingle` compares the two kinds, `HookPlay` foretells what one hook's run does, and `ExactLaws` derives from
   it when exactly two of the laws hold. `AccountCreate` and `AccountBulk` instantiate the laws with the defaults, checks
   and specification of accounts, `AccountSchema` compares the generated code with the database schema of
   `backend/ent/migrate/schema.go`, and `CreateThenLoad` joins the first two parts: what is created is what is loaded.
3. **Cloning a query builder**. `QueryView` is what a query says and compiles to, `QueryClone` the builder in memory,
   with Go slices as array, length and capacity.
4. **The audit gate** (`tools/check_pnpm_audit_exceptions.py`). `Blocks`, `AuditParser` and `AuditPrinter` are the
   exception list, `AuditText` says what a file of it can hold, `AuditReport` is the report, `AuditGate` the decision.
   `AuditYields`, `AuditVerdict` and `AuditComplaints` say who is reported, when the gate passes and what it complains
   of in terms of the inputs alone; `AuditDedup` and `AuditLaws` are the laws of the verdict.

`Prelude` holds what all of them share. `dafny verify dfyconfig.toml` checks everything.

## Assumptions

- A child query answers rows of the queried parents only (its pushed-down `IN` predicate). Where rows outside it
  are possible, the loaders' error is modelled.
- In the joined many-to-many query the foreign key is the first column and the group's identifier the second.
- `AddColumnOnce` and `AppendFieldOnce` append a column unless it is there. `QueryContext.Clone` copies the fields
  list and the pointed-to values.
- The store returns written values unchanged and NULL for unwritten columns, JSON text decodes to the document
  it was encoded from, and the edges of an insert specification relate the new row to exactly the rows they name.
- `str.lower` is any function that is idempotent, adds no line break, and leaves exactly the blank ends blank
  (`Folding`); ASCII folding is one (`LowerFolds`).
- Hooks decide from the mutation they were given and from what their calls returned; each makes at most a fixed
  number of calls, which may be any number. A hook may edit the mutation, replace it, retry, fail or make a value up.

## What turned out not to hold, and when it does

- `byID` and `nodeids` keep only the last node of a repeated identifier
  (`backend/ent/account_query.go:548`, `backend/ent/account_query.go:640`). The lists are the joins for all rows
  exactly when the parents' identifiers are distinct (`GroupsRefineJoin`, `ChildrenPartition`); no child is lost or
  duplicated even when they are not (`ChildrenConserved`).
- A bulk link checks its builder's own mutation before it takes the one it was handed
  (`backend/ent/account_create.go:1865-1868`), a single save checks what it was handed. `BulkExact` says what a bulk
  creation checks and what it writes under hooks that edit or replace the mutation, for any number of builders, and
  `UncheckedWrites` when exactly the difference lets something unchecked through; for accounts that is when all own
  mutations pass `check()` and some handed one does not (`UncheckedAccounts`). With hooks that edit in place, however
  they retry, only checked contents are written (`BulkWritesChecked`), and what is checked is what is written
  (`InPlaceExact`).
- The done mutations form a suffix for hooks that report success only if a call succeeded (`BulkDoneSuffix`).
  `SuffixExact` gives the exact condition for a hook on any one of any number of builders, for every check: unless it is
  the first builder or an earlier check fails, the hook must never report success after nothing but failed calls, be they
  stopped by a check or refused by the store. `SwallowedError` is a hook that does. A builder counts as done when any
  mutation it has or had is done, so a hook that replaces the mutation and is then refused can leave a done builder whose
  current mutation is not; with hooks that edit in place there is only one mutation per builder (`InPlaceMarks`).
- A success does not always mean that all identifiers are the store's. For a hook on any one of any number of builders
  and every check, `IdentifiersExact` says when it does, for every store: an earlier check fails, or the hook never
  reports success unless its last call that got past its own builder's check was accepted. `RepeatedInsert` is a hook that
  inserts twice and reports the first success: when the second insert is refused, the node has lost its identifier. For
  any number of hooks it is enough that each one's success is that of its last call (`BulkIdentifiers`), or that each
  calls once (`BulkExact`).
- Bulk creation ignores the error of `defaults()` (`backend/ent/account_create.go:1859`); this is harmless because
  every default that can fail leaves unset a field that `check()` requires (`FailedDefaultsFailCheck`).
- The `seen` set lets the first occurrence of a key decide. It agrees with checking all occurrences, for every exception
  file and day, exactly when severities agree per key or some relevant occurrence has an advisory or package that is blank
  or contains a line break, which no exception in a file can cover (`DedupExact`, `ParsedValues`); the order of the
  vulnerabilities is irrelevant under exactly the same condition (`OrderExact`). `OrderMatters` is a file with one
  exception on which two orders get different exit codes.
- A package in `vulnerabilities` whose `via` names no usable advisory is never reported, whatever its severity
  (`SilentPackage`). A usable title that is not text ends the program with an error (`RunGate`).
- A lock modifier is the one part of a query that its clone does not carry (`CloneLosesLocks`).

## Model

| member | source | states |
|---|---|---|
| EdgeLoading.LoadGroups | backend/ent/account_query.go:542-602 | leaves on every node exactly the list GroupsOf, resets it to empty first, changes no other edge, and reports exactly the first neighbor no row named, whatever interceptors hand back |
| EdgeLoading.IndexNodes | backend/ent/account_query.go:546-552 | the identifier list sent to the query, and a map pointing each identifier at its last node |
| EdgeLoading.ScanRows | backend/ent/account_query.go:576-585 | one group node per group in order of first rows, and for each group exactly the accounts its rows name |
| EdgeLoading.AssignAll | backend/ent/account_query.go:597-599 | ranging over the node set in any order gives the same result: each node gets the group once and nothing else changes |
| EdgeJoin.FirstRowsExact | backend/ent/account_query.go:576-585 | deduplicating on the fly keeps one node per group, as its first row describes it, sorted by first row |
| EdgeJoin.RelatedIsJoin | backend/ent/account_query.go:542-602 | sharing one node per group and distributing it equals the nested-loop join of each account with the rows, repeats allowed |
| EdgeJoin.JoinIsUnique | backend/ent/account_query.go:542-602 | the nested-loop join specification admits a single list, so order and multiplicity are fixed |
| EdgeJoin.AllKnown | backend/ent/account_query.go:592-596 | without interceptors the "unexpected groups node" error is unreachable |
| EdgeJoin.GroupsRefineJoin | backend/ent/account_query.go:546-602 | every parent ends with its join, for all rows, if and only if parent identifiers are distinct |
| EdgeLoading.LoadUsageLogs | backend/ent/account_query.go:635-664 | leaves on node j the neighbors whose key the map sends to it, in order, up to the first unexpected foreign key, which is reported |
| EdgeLoading.LoadAccountGroups | backend/ent/account_query.go:665-694 | the same for the membership rows |
| EdgeJoin.ChildrenConserved | backend/ent/account_query.go:635-694 | every neighbor lands on exactly one parent, with multiplicity, whether or not identifiers repeat |
| EdgeJoin.ChildrenPartition | backend/ent/account_query.go:635-694 | for any kind of children, each parent holds precisely the neighbors with its key, in order, for all neighbors, if and only if identifiers are distinct |
| ManyToOne.IndexByKey | backend/ent/account_query.go:604-615 | the keys sent to the query and, per key, all nodes that carry it, in order |
| EdgeJoin.QueriedExact | backend/ent/account_query.go:604-618 | the queried keys have no repeats and are exactly the foreign keys present |
| EdgeLoading.LoadProxy | backend/ent/account_query.go:603-634 | gives every node the last neighbor its foreign key names, also when identifiers or nodes repeat; runs no query without keys; reports the first neighbor no key names |
| EdgeJoin.MatchExact | backend/ent/account_query.go:623-633 | when neighbors have distinct identifiers a node gets x if and only if x is a neighbor with its key |
| EagerQuery.SqlAll | backend/ent/account_query.go:480-540 | the parent query's error, or fresh nodes with the requested edges loaded, or the error of the first requested loader that fails, in order |
| EagerQuery.ProxyAccess | backend/ent/account.go:110-119 | after a successful query ProxyOrErr is not-loaded iff the edge was not requested, not-found iff requested and no neighbor matches, and otherwise the matching proxy |
| EagerQuery.ListsAccess | backend/ent/account.go:101-136 | after a successful query with distinct parents and no interceptors each list accessor returns the nested-loop join if its edge was requested, and the not-loaded error of its edge otherwise |
| EagerQuery.NoUnexpectedNode | backend/ent/account_query.go:542-694 | with child queries that respect their IN predicate, and may fail, the only error of the query is one of theirs: no unexpected node is reported |
| LoadErrors.FirstErrorExact | backend/ent/account_query.go:480-540 | the error is that of the first requested loader that fails, in the order groups, proxy, usage logs, account groups: the failed query's, or the first neighbor that nothing asked for, under the name of its edge |
| MembershipQuery.Load | backend/ent/accountgroup_query.go:379-436 | both many-to-one loaders of the join table: every row gets the last neighbor its key names, other edges stay |
| MembershipQuery.SqlAll | backend/ent/accountgroup_query.go:334-377 | the parent query's error, or fresh rows with both requested edges, or the first error |
| MembershipQuery.LinkAccess | backend/ent/accountgroup.go:47-65 | AccountOrErr and GroupOrErr tell not-requested, not-answered and found apart for every row, however many rows share a key |
| LoadErrors.LinkErrorExact | backend/ent/accountgroup_query.go:334-436 | the same for the membership query: the account's error, or else the group's |
| Projection.QuerySpecColumns | backend/ent/account_query.go:716-727 | the loops that build the column list compute SpecColumns |
| Projection.SpecColumnsExact | backend/ent/account_query.go:716-727 | the columns are exactly the selected fields, in order, the keys, and the identifier, which comes first and once; without selected fields they are the whole table |
| Projection.AccountKeysSurvive | backend/ent/account_query.go:708-727 | whenever the full query reads a row, so does the projected one, with the same identifier, and the same proxy key when requested |
| Projection.EagerLoadingCommutes | backend/ent/account_query.go:708-727 | for every selection of account fields and every set of edges, errors and edges equal those of the unprojected query |
| ChildProjection.LogKeysSurvive | backend/ent/account_query.go:645-647 | whatever fields the usage-log query selects, each log is read with the identifier and the owner of the full query |
| ChildProjection.ChildrenRead | backend/ent/account_query.go:655-662 | a one-to-many loader looks at nothing of a child but its key: it hands out the rows it would hand out bare |
| ChildProjection.TargetsRead | backend/ent/account_query.go:619-633 | a many-to-one loader looks at nothing of a neighbor but its key, for its error and for its matches |
| ChildProjection.AllFieldsCommute | backend/ent/account_query.go:645-727 | for every selection of fields in the account, usage-log, proxy and account-group queries at once: same error, same groups and usage logs, and the same proxy and membership rows on every parent |
| ChildTables.LogsAgree | backend/ent/usagelog.go:180-462 | for all 39 usage-log columns the scanned type is the asserted one, and the table has every column that is read |
| AccountSchema.LogsFit | backend/ent/migrate/schema.go:927-967 | the same for the 39 usage-log columns |
| AccountSchema.ProxiesFit | backend/ent/migrate/schema.go:720-732 | the same for the proxy columns |
| AccountSchema.LinksFit | backend/ent/migrate/schema.go:210-215 | the same for the columns of the join table |
| Projection.LinkKeysSurvive | backend/ent/accountgroup_query.go:448-467 | without an identifier column, every key a loader reads survives every selection of fields |
| Projection.LinkLoadingCommutes | backend/ent/accountgroup_query.go:448-467 | the two edges of join-table rows do not depend on the selected fields |
| Projection.WrapperAligned | backend/ent/account_query.go:565-586 | the wrapper that prepends a column and strips it again never fails a type assertion, reads both keys, and hands the inner callback exactly what the unwrapped query would |
| EntityRow.AssignValues | backend/ent/account.go:163-367 | too few values is the mismatch error; otherwise the columns are assigned in order and the first failing one is reported |
| EntityRow.AssignDecodes | backend/ent/account.go:138-367 | for every column list, in any order and with repeats, scanned holders are accepted exactly when the queried JSON texts decode, and then each queried column ends in its own field, all others zero |
| EntityRow.ValuesRead | backend/ent/account.go:163-367 | a field holds exactly the value stored in its column, or the document its JSON text encodes, directly or behind a pointer; NULL, empty JSON and unqueried columns leave nil or the zero value |
| EntityRow.OnlyUnmarshalFails | backend/ent/account.go:138-367 | on scanned holders the only possible error is a JSON text that does not decode, in a queried column |
| AccountRow.AccountAgrees | backend/ent/account.go:138-367 | for all 29 columns the type made by scanValues is the one asserted by assignValues |
| AccountSchema.AccountFits | backend/ent/migrate/schema.go:97-127 | exactly the columns of the schema are scanned and asserted, each with the type its column demands; exactly the nullable ones are pointers, and the others start at the zero value of their type |
| AccountCreate.PassesAllRules | backend/ent/account_create.go:508-574 | check() accepts iff no rule is violated |
| AccountSchema.CheckExact | backend/ent/account_create.go:508-574 | check() accepts iff every column that the schema does not let be null, but for the identifier, is set and every set column with a validator passes it; its error is true |
| AccountSchema.CheckFirst | backend/ent/account_create.go:508-574 | the error is about the first such column, in the order of the schema |
| AccountCreate.DefaultsExact | backend/ent/account_create.go:451-505 | defaults() keeps every set field, gives unset ones their own default, stops only at a missing maker, and then leaves that maker's field unset |
| AccountSchema.DefaultsSuffice | backend/ent/account_create.go:451-505 | with all makers present defaults() leaves only name, platform and type to the caller: check() then accepts iff these were set and the validators pass |
| CreateThenLoad.CreatedEdgesLoad | backend/ent/account_create.go:708-760 | after an insert of the specification a successful query, with any selected fields, loads exactly the groups, usage logs and proxy that the mutation named |
| CreateThenLoad.CreatedKeys | backend/ent/account_create.go:594-762 | whatever fields the query selects, it reads from the created row the assigned identifier and, when the proxy is requested, the key the mutation named |
| AccountCreate.FailedDefaultsFailCheck | backend/ent/account_create.go:451-574 | whenever defaults() fails, check() fails on what it left behind |
| AccountCreate.WriteThenRead | backend/ent/account_create.go:594-762 | reading back all columns of the row that createSpec describes gives the node it returned plus the identifier: every column that was set holds exactly the value that was set, every other one nil or its zero value |
| HookChain.Run | backend/ent/account_create.go:1853-1906 | in every run objects keep their builder, nodes and inserts are never taken back, and every builder keeps a mutation of its own |
| Creation.Creator.SaveBulk | backend/ent/account_create.go:1849-1906 | the loops wrap each builder's hooks around its link, outermost first; nothing happens for a preset error or without builders; otherwise the outcome and final state are those of the chain |
| Creation.Creator.MutateLink | backend/ent/account_create.go:1860-1893 | the mutator of one builder computes RunLink: check, take over the mutation, build, call on, back-fill only on success |
| Creation.Creator.MutateHook | backend/ent/account_create.go:1894-1897 | a hook with any number of calls to its successor computes RunHook |
| Creation.Creator.Exec | backend/ent/account_create.go:576-592 | sqlSave on the mutation copied into the builder computes RunExec, of which SingleLaws.ExecSaves says what it does |
| Creation.Creator.SaveOne | backend/ent/ent.go:542-573 | a nil hook is an error that leaves the whole state untouched; otherwise the hooks run around exec and the outcome is the chain's. With hooks that call once: they are entered in order and left in reverse around one exec step, which checks, inserts and returns what their edits make of the mutation, the first hook editing first, with the identifier of the store, or with the error of the check or the store and nothing marked |
| SingleLaws.ExecSaves | backend/ent/account_create.go:576-592 | a failing check comes back with nothing built or inserted; a refusal comes back as the store's error and marks nothing; an accepted insert gives the node with the store's identifier, recorded in node, mutation and specification |
| SingleLaws.SingleExact | backend/ent/ent.go:542-573 | the same for a whole chain of hooks that call once, together with the order in which they run |
| SingleLaws.SingleCompletes | backend/ent/account_create.go:587-590 | with hooks whose success is that of their last call, a single save that succeeds leaves node, mutation and specification with the store's last identifier |
| HookLaws.BelowKept | backend/ent/account_create.go:1853-1906 | a chain entered at link i leaves the nodes, mutations and specifications of earlier builders alone, apart from assigned identifiers |
| CreationLaws.BulkInsertsAll | backend/ent/account_create.go:1870-1882 | whatever hooks do, every batch insert carries one specification per builder, and the one at position j is made from contents of builder j: they have every property that builder j started with and its hooks keep |
| CreationLaws.BulkWritesChecked | backend/ent/account_create.go:1865-1868 | with hooks that edit in place, however they retry, every specification inserted was made from contents that pass the checks |
| CreationLaws.InPlaceMarks | backend/ent/account_create.go:1870-1892 | with hooks that edit in place each builder keeps its first mutation, so a builder is done exactly when its current mutation is |
| CreationLaws.BulkDoneSuffix | backend/ent/account_create.go:1870-1892 | in every run with honest hooks, including ones that fail after success, the done builders are a suffix, and all of them on success |
| ExactLaws.SuffixExact | backend/ent/account_create.go:1865-1892 | for any builders, any checks and a hook on builder j: the done mutations form a suffix for every store if and only if j is first, an earlier check fails, or the hook never reports success after nothing but failed calls |
| ExactLaws.IdentifiersExact | backend/ent/account_create.go:1865-1892 | for any builders, any checks and a hook on builder j: whatever the store answers, success means that the last insert was accepted and every node, mutation and specification holds its identifier, if and only if an earlier check fails or the hook never reports success unless its last call past its own builder's check was accepted |
| HookPlay.HookPlays | backend/ent/account_create.go:1860-1893 | a hook's whole run follows from its decisions, the checks and the store's answers alone: what its calls return, whether some insert was accepted, and whether identifiers are in place |
| HookPlay.BareRun | backend/ent/account_create.go:1860-1893 | a chain without hooks is all or nothing: the first failing check comes back with nothing inserted or marked, a refusal leaves no mark, an accepted insert marks every builder |
| ExactLaws.SwallowedError | backend/ent/account_create.go:1865-1892 | a hook that swallows errors breaks the suffix law on every reachable builder but the first, whatever its own checks say |
| CreationLaws.BulkIdentifiers | backend/ent/account_create.go:1886-1892 | with hooks whose success is that of their last call, on success each node is built from its specification and carries the identifier stored in it, which is the store's last answer |
| BulkAndSingle.RepeatedInsert | backend/ent/account_create.go:1886-1892 | a hook that calls twice and reports its first success leaves a node without identifier when the second insert is refused |
| CreationLaws.BulkExact | backend/ent/account_create.go:1849-1906 | with hooks that call once, editing the mutation or replacing it: each link checks what its builder's own mutation holds; exactly one insert, of what the links were handed, in order, if all checks pass, none otherwise; the first failing builder's error or the store's outcome comes back; all mutations are done, with the store's identifiers, or none |
| CreationLaws.UncheckedWrites | backend/ent/account_create.go:1865-1870 | such a creation writes only what checked contents give, unless all own mutations pass and some handed contents give something else: exactly then it does not; where a specification decides its check, something else is contents that fail |
| AccountBulk.UncheckedAccounts | backend/ent/account_create.go:1865-1870 | a bulk creation of accounts with hooks that call once writes contents that check() refuses iff all own mutations pass and some handed one does not |
| AccountBulk.SpecDecides | backend/ent/account_create.go:508-574 | check() looks only at what createSpec copies: accounts with one specification get one verdict |
| CreationLaws.InPlaceExact | backend/ent/account_create.go:1849-1906 | when hooks that call once also edit in place, each link writes exactly what it checked |
| CreationLaws.HookFreeBulk | backend/ent/account_create.go:1849-1906 | without hooks one insert carries what the exec steps of the builders would insert one by one, or nothing is inserted |
| AccountBulk.DefaultsErrorHarmless | backend/ent/account_create.go:1858-1859 | dropping the error of defaults() never lets an insert through that a single save would have stopped |
| AccountBulk.BulkRefinesSingles | backend/ent/account_create.go:421-426 | bulk reaches the insert iff every builder alone would, with the same specifications in order |
| SingleLaws.SingleWritesChecked | backend/ent/account_create.go:576-592 | a single save writes only checked contents, for all hooks, also ones that replace the mutation |
| SingleLaws.HooksInOrder | backend/ent/ent.go:549-564 | hooks that call once are entered 0..n-1, exec runs once on the object handed on by the innermost, edited or new, and they are left in reverse |
| BulkAndSingle.ReplacedMutation | backend/ent/account_create.go:1865-1868 | for any builders and hooks that call once: bulk creation inserts all handed contents if all own mutations pass, while each single save inserts its handed contents if these pass |
| QueryClone.Append | backend/ent/account_query.go:42-45 | append writes into the shared array while capacity lasts and into a new one otherwise |
| QueryClone.SharedAppend | backend/ent/account_query.go:350-352 | two appends to one slice header with spare capacity overwrite each other, so a clone must copy its lists |
| QueryClone.AccountQuery.Do | backend/ent/account_query.go:41-70 | every builder call changes exactly its part of the query |
| QueryClone.AccountQuery.Clone | backend/ent/account_query.go:342-360 | a clone is entirely new memory and says what the query says, without the lock modifiers |
| QueryClone.AccountQuery.QuerySpec | backend/ent/account_query.go:708-749 | the specification of the query, with the modifiers sqlAll adds: its own limit, offset, uniqueness, predicates, order and modifiers, and the columns of its selected fields |
| QueryClone.EvolveIsApply | backend/ent/account_query.go:342-360 | in an interleaving, each side becomes what its own calls alone make of it |
| QueryClone.CloneAndUse | backend/ent/account_query.go:342-360 | after any interleaving of calls on a query and its clone, each says what its own calls made of it |
| QueryClone.CompileBoth | backend/ent/account_query.go:342-360 | each of the two compiles to what its own calls make of it alone, setting by setting and list by list, and after the same calls on both the clone lacks the earlier lock modifiers and nothing else |
| QueryView.CloneLosesLocks | backend/ent/account_query.go:789-812 | after any calls, made on a query and on its clone alike, the two compile to the same specification but for the lock modifiers the query had when it was cloned |
| QueryView.CompilesExact | backend/ent/account_query.go:708-749 | limit, offset and uniqueness are those of the last call that set them, a PostgreSQL lock counting as Unique(false), or the query's own; predicates, order and modifiers are the query's own followed by those of the calls in order; the columns follow the Select calls, with the proxy key once WithProxy was called |
| QueryView.EdgeCalls | backend/ent/account_query.go:364-405 | an edge query holds the arguments of the last With call for it and those given to it since |
| AuditParser.StripExact | tools/check_pnpm_audit_exceptions.py:15-20 | strip removes surrounding blanks and nothing else |
| AuditParser.ReadLine | tools/check_pnpm_audit_exceptions.py:29-45 | one line closes, opens or extends a record, or raises, and does nothing else |
| AuditParser.ParseExceptions | tools/check_pnpm_audit_exceptions.py:23-48 | the loop raises iff some bullet carries no colon, and otherwise returns the records of the lines |
| AuditParser.OneRecordPerBullet | tools/check_pnpm_audit_exceptions.py:34-48 | exactly one non-empty record per line that strips to "- ...", in file order, made of the lines up to the next one |
| Blocks.RecordsAreBlocks | tools/check_pnpm_audit_exceptions.py:23-48 | folding lines into an open record equals cutting the list at its starting lines and folding each block |
| AuditPrinter.EntryReadsBack | tools/check_pnpm_audit_exceptions.py:12-20 | a printed entry splits into its key and value, for every value, iff the key is stripped and free of colons |
| AuditPrinter.QuotedValue | tools/check_pnpm_audit_exceptions.py:12-20 | a value in a pair of either quote character is what stands between them |
| AuditPrinter.PlainValue | tools/check_pnpm_audit_exceptions.py:12-20 | an unquoted value is read as it is iff it is stripped and does not look quoted, under a stripped key without a colon |
| AuditPrinter.LineReadsBack | tools/check_pnpm_audit_exceptions.py:29-45 | a printed line adds its entry iff its key is admissible in its place |
| AuditPrinter.IgnoredLine | tools/check_pnpm_audit_exceptions.py:30-43 | blank lines, comments, headings and lines without a colon neither start a record nor add to one |
| AuditPrinter.RecordMapExact | tools/check_pnpm_audit_exceptions.py:40-45 | a record holds the printed keys, each with its last value |
| AuditPrinter.FirstTextLine | tools/check_pnpm_audit_exceptions.py:27-29 | each of LF, CR and CR LF ends one line, which is read with LF |
| AuditPrinter.ParserInvertsPrinter | tools/check_pnpm_audit_exceptions.py:12-48 | for records with admissible keys and any one-line values the printed file parses to the same records, whether its lines end in LF, CR or CR LF |
| AuditGate.NormalizedAway | tools/check_pnpm_audit_exceptions.py:114-131 | padding a text with blanks, or changing case in an advisory or severity, leaves its normal form, for any case folding |
| AuditGate.DecimalExact | tools/check_pnpm_audit_exceptions.py:119-131 | a number is read as the decimal digits that denote it, without leading zeros, after a sign |
| AuditGate.DecimalUnique | tools/check_pnpm_audit_exceptions.py:119-131 | numeric identifiers are told apart by their text exactly when they differ |
| AuditLaws.RespellingHarmless | tools/check_pnpm_audit_exceptions.py:114-219 | surrounding blanks anywhere, and case in advisories and severities, never change the exit code, in the report as in the exceptions |
| AuditGate.BuildIndex | tools/check_pnpm_audit_exceptions.py:152-185 | the index of the first sound exception per key, and one complaint per unsound or repeated one, in order |
| AuditGate.NoComplaintIffSound | tools/check_pnpm_audit_exceptions.py:156-180 | nothing is reported about the list iff every exception is sound and no two share a key |
| AuditGate.CoveredIs | tools/check_pnpm_audit_exceptions.py:181-216 | in a sound list the index lookup finds a fitting entry iff some exception covers the vulnerability |
| AuditGate.Scan | tools/check_pnpm_audit_exceptions.py:187-219 | the loop with its seen set reports exactly what each first occurrence calls for, in order |
| AuditGate.Validate | tools/check_pnpm_audit_exceptions.py:151-243 | main collects exactly the report and returns 0 iff it is empty |
| AuditGate.VerdictExact | tools/check_pnpm_audit_exceptions.py:151-243 | the exit code is 0 iff the list is sound, every named high or critical vulnerability has an advisory, and the first one of each key has an unexpired exception of blank or equal severity |
| AuditVerdict.VerdictSpelledOut | tools/check_pnpm_audit_exceptions.py:151-243 | the same in terms of the five fields, dates, normal forms and severities: complete exceptions, no two for one package and advisory, an advisory for every named high or critical entry, and for the first of each package and advisory an exception that has not expired and whose severity is blank or equal |
| AuditVerdict.UnknownStops | tools/check_pnpm_audit_exceptions.py:187-243 | a high or critical advisory or package entry for which the list has no exception makes the program fail |
| AuditVerdict.AdvisoryStops | tools/check_pnpm_audit_exceptions.py:66-78 | so does an advisory, first of its package and identifier, whose exceptions have expired or are for another severity |
| AuditComplaints.ComplaintsExact | tools/check_pnpm_audit_exceptions.py:156-236 | every complaint is due and every due one is made: about an exception's missing fields, date, blank key or repetition, and about a vulnerability without advisory, without exception, of another severity than its exception, or with an expired one; the list comes first |
| AuditDedup.DedupExact | tools/check_pnpm_audit_exceptions.py:192-219 | the exit code is the verdict over all occurrences, for every exception file that parses and every day, iff severities agree per key or some relevant occurrence cannot be covered by any file |
| AuditText.ParsedValues | tools/check_pnpm_audit_exceptions.py:23-48 | no value read from a file contains a line break |
| AuditText.FileReadsBack | tools/check_pnpm_audit_exceptions.py:23-48 | every list of records with the required fields and one-line values is what some file parses to |
| AuditDedup.ActualCanonical | tools/check_pnpm_audit_exceptions.py:114-131 | the program's own normal forms are normal and one-line texts keep one line, as the exact laws require |
| AuditDedup.ExceptionsPass | tools/check_pnpm_audit_exceptions.py:156-219 | for a report without uncoverable occurrences there is a file, one exception per key, on which the exit code is 0 |
| AuditDedup.DedupSound | tools/check_pnpm_audit_exceptions.py:192-219 | with agreeing severities the exit code is the verdict over all occurrences |
| AuditLaws.ExceptionOrder | tools/check_pnpm_audit_exceptions.py:156-185 | permuting the exceptions never changes the exit code |
| AuditLaws.VulnOrder | tools/check_pnpm_audit_exceptions.py:193-219 | permuting the vulnerabilities does not change it when severities agree per key |
| AuditLaws.OrderExact | tools/check_pnpm_audit_exceptions.py:193-219 | permuting the vulnerabilities never changes the exit code, for every file and day, under exactly the condition of DedupExact |
| AuditLaws.OrderMatters | tools/check_pnpm_audit_exceptions.py:203-219 | with the program's normalisations and a file with one exception, two occurrences of one key with different severities give exit code 0 in one order and 1 in the other |
| AuditLaws.PassesEarlier | tools/check_pnpm_audit_exceptions.py:216-219 | a list that passes on one day passes on every earlier day |
| AuditReport.PickExact | tools/check_pnpm_audit_exceptions.py:51-61 | the advisory identifier is the first usable one in order of stability |
| AuditReport.IterVulns | tools/check_pnpm_audit_exceptions.py:64-111 | the loops yield what AuditYields describes, in report order, or raise iff some usable title is not text |
| AuditYields.YieldsExact | tools/check_pnpm_audit_exceptions.py:64-111 | one vulnerability per advisory comes first, in order, with its severity, its first usable name and its first usable identifier; all others are reported for packages, and every usable identifier that a package names is |
| AuditYields.YieldedIff | tools/check_pnpm_audit_exceptions.py:64-111 | a vulnerability is yielded iff some advisory or some package entry is reported as it |
| AuditYields.YieldsInOrder | tools/check_pnpm_audit_exceptions.py:80-111 | packages follow the advisories and each other in order |
| AuditYields.EntriesInOrder | tools/check_pnpm_audit_exceptions.py:86-111 | within a package the entries of its via list follow each other in order |
| AuditYields.OneEntry | tools/check_pnpm_audit_exceptions.py:86-111 | an entry is reported once if the first usable of its five identifiers exists, and otherwise not at all |
| AuditYields.OneText | tools/check_pnpm_audit_exceptions.py:106-111 | a via that is text is reported once unless it is empty, and one that is neither list nor text not at all |
| AuditYields.RaisesIff | tools/check_pnpm_audit_exceptions.py:98-109 | reading raises iff the title of some via entry, the first usable of title, url, advisory and source, is a number other than 0 |
| AuditReport.PackagesReported | tools/check_pnpm_audit_exceptions.py:80-111 | a vulnerability is yielded for a package iff its via names that identifier and it is usable |
| AuditReport.SilentPackage | tools/check_pnpm_audit_exceptions.py:109-111 | removing a package without usable via identifiers, whose titles can be joined, never changes the outcome |
| AuditReport.RunGate | tools/check_pnpm_audit_exceptions.py:142-243 | the whole program: a list that does not parse raises, a title that is not text raises, otherwise the verdict over what the report yields |

## Left out

- Fluent setters, `SetNillable*`, upserts, `*X` panic variants, formatters, update and delete builders: single assignments or delegation.
- `First`, `Only`, `Exist`, `Count`, `IDs`, `GroupBy`, `Aggregate`, path queries: delegation to `All` and to the SQL layer.
- `IsNotFound` and the other error predicates, `withInterceptors`, `scanWithInterceptors`, contexts: interceptors appear only as a function on the groups that loadGroups receives.
- Real SQL, `sqlgraph` and the driver: queries, the batch insert and row scanning are parameters with the assumptions above.
- The other entities, which repeat the same templates.
- EdgeLoading.LoadGroups: an interceptor cannot fail by itself; an error of the query stands for it.
- MembershipQuery.Load: loadAccount and loadGroup are one method with the edge as a parameter, and the loaded account or group is a value without further edges.
- HookChain.Run: the identifier a mutation records is a value, not a pointer into the node.
- Creation.Creator.Exec: a single save that gets no identifier back fails with NoIdentifier where the code panics on its type assertion.
- Creation.Creator.SaveOne: a hook cannot hand a mutation of a foreign type on, which the code answers with an error.
- Creation.Creator.SaveBulk: a nil hook in a bulk creation, which panics in the code, cannot be expressed, and mutations of a foreign type cannot be handed on.
- Creation.Creator.MutateHook: a hook makes at most `calls` calls, any number fixed in advance.
- CreationLaws.BulkDoneSuffix: for several hooks the condition on hooks is sufficient only; ExactLaws.SuffixExact is the exact one for one hook.
- CreationLaws.BulkIdentifiers: the condition is sufficient only, and leaves out hooks whose last call was stopped by their own builder's check; ExactLaws.IdentifiersExact is the exact one for one hook.
- ExactLaws.SuffixExact: several hooks at once, or hooks on several builders.
- ExactLaws.IdentifiersExact: several hooks at once, or hooks on several builders.
- CreationLaws.BulkExact: hooks that call their successor any other number of times, or change its outcome.
- EntityRow.AssignValues: a struct is a function from columns to fields, and the generated switches are tables, so assignment of a field is an update of that function.
- Projection.EagerLoadingCommutes: rows that the full query cannot read, for which there is nothing to compare with.
- ChildProjection.AllFieldsCommute: the fields of the group query, whose wrapped callbacks Projection.WrapperAligned covers; a loaded child is the identifiers and the name the model keeps of it.
- AccountBulk.BulkRefinesSingles: the makers' values, such as the clock, are the same in the bulk and in the single saves.
- QueryClone.AccountQuery.Clone: an edge query is its list of predicates, list elements are numbers, the intermediate SQL selector is a value, and the path is a flag that clones share.
- AuditGate.BuildIndex: which missing fields a complaint names follows the order of a list, where the code iterates over a set.
- AuditDedup.DedupExact: it is stated for any normalisation whose normal forms are normal and under which some one-line text is a date; that date.fromisoformat accepts one is not proved, as it is a parameter.
- AuditReport.IterVulns: message texts, and severities that are not strings.
- JSON decoding, ISO dates, the clock, files and arguments: decoded values, optional day numbers, a day and texts of Unicode characters are inputs.
- 64-bit integers: identifiers are only compared, so integers are unbounded.
