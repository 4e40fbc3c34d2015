# DBil, verified

A Dafny model of the parts of DBil whose behaviour is hard to see from any one
function, with proofs of what holds across them. `dafny verify dfyconfig.toml`
checks everything.

The model has seven connected parts.

1. **SQL text.** Typed row edits and column filters are rendered as SQL text
   (`SqlText`, `Mutate`, `Filters`), then read again by a lexical classifier and
   judged by a tag policy (`SqlCheck`, `Gate`). `SqlReader` is an independent
   reader for the SQL concerned, after sections 4.1.1 and 4.1.2.1 of the
   PostgreSQL documentation, and `SqlEval` gives conditions their three-valued
   meaning. The builders are proved to print what the reader reads back
   (`SqlLexing`, `ReadBack`), filters to mean what they say, facet counts to
   agree with searches (`Facets`), and the gate's verdict on built statements is
   characterised exactly (`WhereSurvival`, `BuiltEdits`, `Submit`, `FlaggedEdit`).
   `ValueTexts` says what each type's text means, `SqlKeywords` what the classifier
   makes of plain statements.
2. **Canonical JSON and the audit chain.** The printer of `writeCanonical`, an
   independent RFC 8259 reader (sections 2 to 7), the proof that they invert each
   other (`CanonicalJson`, `JsonReader`, `JsonRoundTrip`, `Canonicalizing`), and
   the hash-chained log with `Append` and `VerifyChain` (`AuditChain`,
   `AuditProps`, `AuditGrowth`, `AuditFields`).
3. **Connection pool and tunnels.** A transition system over any number of
   interleaved `OpenByID`, `CloseConn` and `Shutdown` calls (`PoolManager`,
   `PoolProps`, `PoolRoutes`). The locked sections are also methods of a class with the two
   maps as fields.
4. **Discovery.** The row state machine under rescans, approvals and rejections
   (`Discovery`, `DiscoveryProps`, `DiscoveryCalls`), the connections made from rows
   (`DiscoveryConns`), and the same calls interleaved statement by statement
   (`DiscoveryRaces`, `DiscoveryOverlaps`).
5. **Collector runners.** The goroutine lifecycle under `Start`, `Stop` and
   `Shutdown` (`Collector`, `CollectorProps`, `CollectorLife`).
6. **Lock chains and spreadsheet columns** (`Locks`, `Xlsx`).
7. **Pending edits.** The editor of the data page, connected through parts 1 and
   `ExecuteTx` to what ends up in the table (`Editor`, `EditorGrid`, `SqlRun`,
   `EditorWrites`, `EditorPage`, `EditorSubmit`), and told from the events alone
   (`EditorHistory`).

## Where code and documentation disagree

- `FEATURES.md:54-55` says inline edits are never dangerous. Deletes and inserts
  are not, for any values (`BuiltEdits.DeleteIsSafe`, `BuiltEdits.InsertIsSafe`).
  An update can be: `stripComments` (`internal/sqlcheck/classify.go:45-49`) looks
  inside string literals, so a new value with a comment opener can swallow the
  WHERE. `BuiltEdits.UpdateDangerousIff` says exactly when, and
  `FlaggedEdit.DashesLoseTheWhere` gives an edit, of any table, that production
  refuses.
- The page of a table does not always show what submitting would store.
  `EditorPage.PageIsTrueIff` says exactly when the changes can be built and the
  page shows all they do. Apart from names that cannot be quoted it fails in four
  ways. Row keys are looked up with `in` and `[]`, which also find the names every
  JavaScript object inherits: for a row keyed `constructor`, say, the lookup of its
  first cell throws (`web/src/pages/dataEditor.ts:91-92`,
  `web/src/pages/DataPage.tsx:669`) and takes the page down
  (`EditorPage.InheritedRowBreaksPage`). A column so named, in an edited row, shows
  the inherited object instead of the cell (`Editor.EditHidesColumn`). Pending changes survive a change of
  filters (`web/src/pages/DataPage.tsx:34-37`, `:111`), so they can be of rows the
  page no longer shows (`EditorPage.HiddenDelete`). A key column named `__proto__`
  is lost where it is assigned (`web/src/pages/dataEditor.ts:16`,
  `web/src/pages/DataPage.tsx:143`), so rows share a key and no change of a row can
  be built (`EditorPage.ProtoKeyMarksAll`).
- The approval handler creates the connection before it marks the row
  (`internal/server/handlers/discover.go:138-158`), so a failed write leaves the
  row open with its connection made. A second approval is then refused, since
  aliases are unique (`internal/store/connections.go:189-190`), until the
  connection is deleted or a rescan gives the row another alias; only then does
  the row get a second connection (`DiscoveryConns.AnotherIff`,
  `DiscoveryConns.SecondConnectionCause`).
- `RunOnce` discards the error of the audit write for a new row
  (`internal/discover/manager.go:151-152`), so a row is audited as detected at
  most once, and not at all when that write fails
  (`DiscoveryProps.DetectedAtMostOnce`).
- `Upsert` reads the row and later writes status pending without a guard
  (`internal/store/discovered.go:123`, `:145`). Decisions are permanent when
  repository calls do not interleave; statement by statement, a rejected or
  approved row returns to pending exactly when an `Upsert` read it before the
  decision and wrote after it (`DiscoveryRaces.DecisionUndoneIff`). Overlapping
  approvals of one row can both record a connection
  (`DiscoveryOverlaps.RecordedTwiceIff`, `DiscoveryOverlaps.BothRecord`).

## Assumptions

- SHA-256 is a function into 32 bytes with no collision among the byte strings
  actually hashed (the logs compared, and the seed). Injectivity on all inputs
  would contradict the fixed output length.
- The field cipher opens what it sealed under the same entry id. Formatting a
  float64 gives a JSON number that reads back as the same float64.
- Opening a pool or a tunnel returns a fresh one. A call abandoned by its caller
  still runs to its end.
- A scanner reports entries under its own source, and a source has one scanner.
- Loaded rows have key columns, no NULL in them, and, unless a key column is named
  `__proto__`, distinct row keys; no other row has a loaded row's key values; the
  table does not change under a run of the editor; edits leave key columns alone.
  `IntrospectTable` (`internal/pg/mutate.go:93-95`) guarantees the key columns.
  `EditorGrid.KeyStringsDecode` and `EditorGrid.RowKeysCollide` say when distinct
  keys give distinct row keys.
- A table is unordered, so the loaded rows are written next to each other in it,
  wherever filters found them.

## Model

| member | source | states |
|---|---|---|
| Mutate.SortedKeys | internal/pg/mutate.go:220-227 | whatever order the map yields its keys in, the result is the one ascending enumeration of them |
| Sorting.SortStrings | internal/pg/mutate.go:220-227 | sorting distinct keys in place yields the unique sorted enumeration of their set |
| Sorting.AscendingUnique | internal/pg/mutate.go:220-227 | two ascending enumerations of one key set are equal, so map iteration order leaves no trace |
| Sorting.FirstDifference | internal/audit/hashchain.go:87-92 | where two texts first differ the smaller character comes first, and a text comes before any it starts |
| Mutate.BuildWhereByPK | internal/pg/mutate.go:136-156 | succeeds exactly when every key column is present, not null and an identifier; each error names a real cause |
| Mutate.AssignClauses | internal/pg/mutate.go:162-172 | one assignment per column in sorted order, or an error naming an unknown or ill-named column of the edit |
| Mutate.BuildUpdate | internal/pg/mutate.go:158-178 | renders exactly the valid updates, as SET over sorted columns and WHERE over the key |
| Mutate.BuildDelete | internal/pg/mutate.go:180-186 | renders exactly the deletes that address a row |
| Mutate.BuildInsert | internal/pg/mutate.go:188-206 | renders exactly the inserts whose columns exist, names and values in one order |
| Mutate.BuildMutations | internal/pg/mutate.go:104-132 | one statement per change in input order when all are valid; otherwise the error of the first bad change |
| SqlLexing.ReadEscaped | internal/pg/rows.go:49-51 | a literal printed with doubled quotes reads back as its text, whatever follows the closing quote |
| SqlLexing.LexIdent | internal/pg/rows.go:39-44 | a quoted identifier is one identifier token with the same name |
| SqlLexing.LexLiteral | internal/pg/mutate.go:213-218 | a quoted value is one literal token with the same text |
| ReadBack.LexValue | internal/pg/mutate.go:213-218 | NULL and text stay distinct: null reads as the keyword, every other value as a literal with its text |
| ValueTexts.TextsRead | internal/pg/tabledata.go:264-285 | a boolean column reads the text of a boolean as that boolean; strings and numbers are their own texts; null is none |
| ValueTexts.BoolFilter | internal/pg/tabledata.go:237-256 | a filter listing one boolean keeps exactly the rows that store it |
| ValueTexts.BoolKey | internal/pg/mutate.go:136-156 | a boolean key value addresses exactly the rows that store it |
| ValueTexts.BoolSet | internal/pg/mutate.go:213-218 | a boolean set by an edit is stored as a text that reads as it |
| ValueTexts.IdentIsWord | internal/pg/rows.go:34-44 | a name can be quoted exactly when it is one whole word that does not start with a digit |
| ReadBack.ReadUpdate | internal/pg/mutate.go:158-178 | a built update reads back as the same assignments and key equalities on the same table |
| ReadBack.ReadDelete | internal/pg/mutate.go:180-186 | a built delete reads back as equality on every key column of the same table |
| ReadBack.ReadInsert | internal/pg/mutate.go:188-206 | a built insert reads back with each column paired with its own value |
| ReadBack.StatementReadsBack | internal/pg/mutate.go:104-206 | every built statement, for any values, is read back as the edit it was built from |
| ReadBack.BatchReadsBack | internal/pg/mutate.go:104-132 | in a built batch statement i reads back as change i |
| EditorWrites.KeyExprMeans | internal/pg/mutate.go:136-156 | the key condition is true of a row exactly when all its key columns hold the given texts |
| EditorWrites.WholeRow | internal/pg/mutate.go:158-178 | the assignments of a built update, carried out, overlay the row with exactly the edited columns |
| SqlCheck.FirstWord | internal/sqlcheck/classify.go:52-63 | the index loop yields the maximal leading run of word bytes, upper-cased |
| SqlCheck.StripIdempotent | internal/sqlcheck/classify.go:45-49 | stripping comments twice is stripping once, on every string |
| SqlCheck.VerdictsIgnoreStripping | internal/sqlcheck/classify.go:67-96 | both verdicts are the same on text already stripped |
| SqlCheck.DangerousIsDML | internal/sqlcheck/classify.go:86-96 | every string flagged dangerous is classified as a write |
| SqlKeywords.KeywordClass | internal/sqlcheck/classify.go:67-79 | a text that opens with a whole word, in either case, has that keyword's class, whatever follows |
| SqlKeywords.WordClass | internal/sqlcheck/classify.go:52-79 | the whole first word counts, underscores included, so a longer word is not the keyword it starts with |
| SqlKeywords.BlankBefore | internal/sqlcheck/classify.go:52-63 | a blank in front changes neither verdict |
| SqlKeywords.BlockBefore | internal/sqlcheck/classify.go:45-49 | a block comment in front is one blank and leaves the class as it was |
| SqlKeywords.LineBefore | internal/sqlcheck/classify.go:45-49 | a line comment in front is one blank, up to its newline, and leaves the class as it was |
| SqlKeywords.BareDelete | internal/sqlcheck/classify.go:86-90 | DELETE FROM, in either case, with no WHERE left after it is dangerous |
| WhereSurvival.HiddenStrips | internal/sqlcheck/classify.go:45-49 | when comments opened before the WHERE run over it, what stripping leaves of the whole statement |
| WhereSurvival.KeptStrips | internal/sqlcheck/classify.go:45-49 | when none does, the WHERE keyword is still there after stripping, whatever follows it |
| WhereSurvival.KeptIsSafe | internal/sqlcheck/classify.go:86-96 | a statement whose own WHERE survives stripping is never dangerous |
| WhereSurvival.NoOpeners | internal/sqlcheck/classify.go:45-49 | text without either comment opener leaves nothing open |
| BuiltEdits.BuiltIsDML | internal/sqlcheck/classify.go:67-79 | every built statement is classified as a write |
| BuiltEdits.DeleteIsSafe | internal/sqlcheck/classify.go:86-96 | built deletes are never dangerous, for any key values |
| BuiltEdits.InsertIsSafe | internal/sqlcheck/classify.go:86-96 | built inserts are never dangerous, for any values |
| BuiltEdits.UpdateDangerousIff | internal/sqlcheck/classify.go:86-96 | a built update is dangerous if and only if a new value opens a comment that hides the WHERE and what is left mentions none |
| BuiltEdits.GuardedUpdateIsSafe | FEATURES.md:54-55 | a built update whose new texts hold no comment opener is never dangerous, for any key values |
| FlaggedEdit.DashesHide | internal/sqlcheck/classify.go:45-49 | two dashes in a value hide a WHERE on the same line |
| FlaggedEdit.DashesLoseTheWhere | FEATURES.md:54-55 | in every table, setting any column to two dashes, in a row whose key text is on one line, is a valid edit that is dangerous and refused on production |
| Gate.GateBatch | internal/postgres/manager.go:309-329 | blocked exactly when some statement is refused, with the first refusal's reason; held exactly when confirmation is missing |
| Gate.WriterVerdict | internal/policy/policy.go:40-82 | for a writer, production refuses definitions and dangerous statements and has other writes confirmed, staging has all of these confirmed, local and dev ask nothing |
| Gate.ReaderVerdict | internal/postgres/manager.go:309-321 | a read-only role may not write or define; anything else is judged as a writer's |
| Gate.UnknownTagRefuses | internal/policy/policy.go:36-39 | under an unknown tag exactly the writes, definitions and dangerous statements are refused |
| Submit.BuiltJudgement | internal/postgres/manager.go:258-274 | on the four tags a writer's built statement is refused only when it is dangerous and the tag is production |
| Submit.DangerousNeedsHiding | internal/sqlcheck/classify.go:86-96 | among built statements only an update whose WHERE is hidden can be dangerous |
| Submit.SubmitConfirmed | internal/server/handlers/mutate.go:62-85 | a confirmed batch is blocked exactly on production by a dangerous statement, so one without comment openers always passes |
| Submit.SubmitUnconfirmed | internal/postgres/manager.go:309-333 | without a confirmation every built batch is held on staging, held on production unless a dangerous statement blocks it, and passed on local and dev |
| Filters.BuildWhere | internal/pg/tabledata.go:228-262 | compiles exactly when every active filter's column is an identifier, one clause per active filter in order |
| Filters.WhereReadsBack | internal/pg/tabledata.go:228-262 | the clause reads back as the conjunction of the active filters, precedence included |
| Filters.FilterMeans | internal/pg/tabledata.go:237-256 | one filter's condition is true of a row exactly when the filter lists the row's text or its NULL |
| Filters.WhereMeans | internal/pg/tabledata.go:228-262 | under three-valued logic the clause keeps exactly the rows that every active, non-excluded filter lists |
| Filters.OneMoreFilter | internal/pg/tabledata.go:230-236 | a filter without column or values, or on the excluded column, is as good as absent; any other keeps just the rows that hold one of its values |
| SqlEval.AmongTrue | internal/pg/tabledata.go:244-256 | IN over texts is true exactly of a value that is one of them, never of NULL |
| Facets.SearchRows | internal/pg/tabledata.go:52-85 | the total counts the matching rows and the page is PageOf them, which PagesTile describes |
| Facets.PagesTile | internal/pg/tabledata.go:215-226 | sizes of 1 to 200 are used as given; pages are adjacent from the first row on, and once one falls short all rows have been shown |
| Facets.NegativePage | internal/pg/tabledata.go:222-225 | a page before the first is the first |
| Facets.CollectDistinct | internal/pg/tabledata.go:109-125 | the first 200 groups, and truncated exactly when there were more |
| Facets.DistinctValues | internal/pg/tabledata.go:87-126 | each count is the search total with that column's filters replaced by the value; untruncated counts add up to the total without them |
| Facets.OnlyCounts | internal/pg/tabledata.go:87-126 | a group's size is the number of rows a search for that value alone finds |
| Facets.GroupsCover | internal/pg/tabledata.go:99-125 | distinct groups that leave no value out add up to all the rows |
| Xlsx.XlsxColumnName | internal/server/handlers/export_formats.go:125-133 | the loop computes the bijective base-26 name |
| Xlsx.NameDecodes | internal/server/handlers/export_formats.go:125-133 | decoding a column's name gives the column, and the name is non-empty over A to Z |
| Xlsx.NameOfValue | internal/server/handlers/export_formats.go:125-133 | every non-empty name over A to Z is the name of the column it decodes to |
| Xlsx.Bijection | internal/server/handlers/export_formats.go:125-133 | positive integers and names correspond one to one |
| Xlsx.NamesIncrease | internal/server/handlers/export_formats.go:125-133 | names strictly increase, shorter first and then alphabetically |
| Xlsx.OrderAgrees | internal/server/handlers/export_formats.go:125-133 | one name comes before another exactly when its column does |
| Locks.IndexSessions | internal/observ/locks.go:60-74 | the loop builds the index in which, as LastRowWins says, each pid has its last row |
| Locks.LastRowWins | internal/observ/locks.go:60-74 | a pid is in the index exactly when some row has it, and what the index holds is the last such row |
| Locks.Holders | internal/observ/locks.go:78-83 | the pids found are exactly those that block some session |
| Locks.BlockedBy | internal/observ/locks.go:94-102 | everyone the holder blocks, each once however often it is repeated, and no other |
| Locks.ListLockChains | internal/observ/locks.go:54-106 | one chain for each pid that blocks someone, vanished holders included, and none for anyone else |
| Locks.HolderIsItself | internal/observ/locks.go:85-93 | a listed holder heads its chain with its own session, any other with the placeholder |
| Locks.ListedExactly | internal/observ/locks.go:94-103 | a session is under a holder exactly when the holder is in its blocked_by |
| Locks.ListedTotal | internal/observ/locks.go:60-105 | the chains list as many entries as there are distinct blocking pairs |
| PoolProps.FoundIsOpen | internal/postgres/manager.go:47-53 | a lookup that finds a pool returns one that was opened and has not been closed, and opens and closes nothing; one that finds none means none is cached |
| PoolManager.Manager.TryPublish | internal/postgres/manager.go:87-100 | the first to publish wins; a loser gets the winner's pool and the maps stay as they were |
| PoolManager.Manager.Detach | internal/postgres/manager.go:162-173 | takes a connection's pool and tunnel out, together |
| PoolManager.Manager.DetachAll | internal/postgres/manager.go:177-190 | takes every pool and tunnel out |
| PoolProps.StepKeepsInv | internal/postgres/manager.go:47-190 | every locked section and every external call keeps conservation and pairing |
| PoolProps.AlwaysConserved | internal/postgres/manager.go:47-190 | in every interleaving each pool and tunnel opened is in exactly one place and closed at most once; a cached one is not closed |
| PoolProps.NothingLeaks | internal/postgres/manager.go:47-190 | with no call in flight opened minus closed equals the cache, pools and tunnels alike, failed opens included |
| PoolProps.TunnelsPaired | internal/postgres/manager.go:87-98 | a cached tunnel belongs to the cached pool of its id, so publishing never overwrites one |
| PoolProps.SameInstance | internal/postgres/manager.go:48-53 | two opens of one id that settle with no removal between them return the same pool |
| PoolProps.ResolvedIsCached | internal/postgres/manager.go:87-98 | the pool an open settles on is in the cache at that moment |
| PoolRoutes.TunnelAsRevealed | internal/postgres/manager.go:55-86 | in every interleaving a pool is dialled through a tunnel exactly when its call's reveal asked for one, and through the one that call dialled in between; a call whose reveal failed never dials |
| PoolRoutes.ViaThrough | internal/postgres/manager.go:73-98 | the way a pool was dialled never changes |
| PoolRoutes.FailsIff | internal/postgres/manager.go:55-86 | in every interleaving a call returns no pool, or is bound to, exactly when its reveal, tunnel or dial failed |
| PoolRoutes.CacheAfter | internal/postgres/manager.go:87-190 | a close takes its id out of the cache, a shutdown everything, publishing fills an empty place, and nothing else touches it |
| Collector.Manager.Enroll | internal/observ/collector.go:77-92 | a second Start for an id changes nothing |
| Collector.Manager.TakeOne | internal/observ/collector.go:142-148 | Stop takes the runner of its id out of the registry |
| Collector.Manager.TakeEvery | internal/observ/collector.go:155-160 | Shutdown takes every runner out |
| CollectorProps.StepKeepsInv | internal/observ/collector.go:77-166 | every locked section, channel operation and loop step keeps ownership of live loops |
| CollectorProps.LiveLoopsOwned | internal/observ/collector.go:77-166 | in every interleaving a live loop is registered under its own id or owned by exactly one stopping call |
| CollectorProps.LiveAreRegistered | internal/observ/collector.go:77-166 | with no stopping call in flight the live loops are exactly the registered ones, one per id |
| CollectorProps.StoppedForGood | internal/observ/collector.go:142-166 | once the call that took a runner has returned, that runner has exited and never ticks again |
| CollectorLife.RegistryAfter | internal/observ/collector.go:77-166 | a Start puts a new loop under a free id and changes nothing under a taken one, a Stop takes its id out, a Shutdown all, and nothing else touches the registry |
| CollectorLife.RunsUntilStopped | internal/observ/collector.go:77-166 | in every interleaving a registered runner stays registered, uncancelled and alive until a Stop of its id or a Shutdown |
| CollectorLife.StartedRuns | internal/observ/collector.go:77-92 | once a Start on a free id has returned, and until a stop, its runner is registered and running |
| CollectorLife.LoopsOk | internal/observ/collector.go:94-112 | in every interleaving a loop that ended was cancelled and had polled at least once |
| CollectorLife.TicksCounted | internal/observ/collector.go:94-112 | a loop's count is the number of its polls in the schedule |
| Discovery.Repo.Upsert | internal/store/discovered.go:89-200 | the in-place row update, error paths included, is the specification's |
| Discovery.Repo.MarkUnreachable | internal/store/discovered.go:339-361 | afterwards every pending row of the source has been seen; a row changes only if it was pending and unseen, and then only its status, to unreachable |
| Discovery.Repo.RunOnce | internal/discover/manager.go:123-165 | the pass over scanners, and the number of entries it reports as stored |
| Discovery.Repo.StoreEntries | internal/discover/manager.go:131-159 | every entry's key counts as seen, stored or not; for a new row one audit write is attempted, and its failure changes nothing else |
| Discovery.Repo.ApproveRow | internal/server/handlers/discover.go:87-176 | the order of checks, connection and mark, a taken alias included, with what each failure leaves behind |
| Discovery.Repo.RejectRow | internal/server/handlers/discover.go:180-210 | any row can be rejected, and nothing else changes |
| DiscoveryCalls.UpsertRow | internal/store/discovered.go:89-200 | when Upsert refuses, and otherwise which row it wrote: fields and status of an open or new row, the time of an approved one, a rejected one untouched, no other row changed |
| DiscoveryCalls.RejectDone | internal/server/handlers/discover.go:180-210 | Done is answered exactly for an existing row when the write works; that row is then rejected and nothing else changed |
| DiscoveryCalls.ApproveReply | internal/server/handlers/discover.go:87-176 | which answer each row and request get, and that only Done approves the row, with a new connection under its alias |
| DiscoveryCalls.ByHand | internal/store/connections.go:266-279 | a connection needs an unused name; deleting one unlinks its row and changes no status |
| DiscoveryCalls.StoredCounts | internal/discover/manager.go:131-148 | the count of a source's turn is the number of its findings that can be stored, told from the rows before it |
| DiscoveryCalls.StoredHasRow | internal/discover/manager.go:131-148 | every finding counted has a row under its key afterwards |
| DiscoveryCalls.PassCounts | internal/discover/manager.go:123-165 | a pass reports the sum over the sources whose scan succeeded |
| DiscoveryProps.DecisionsStick | internal/store/discovered.go:131-142 | over every run of whole calls rejected is permanent, approved only becomes rejected, rows stay unique and never vanish, and each row has at most one turn at the audit log |
| DiscoveryProps.DetectedAtMostOnce | internal/discover/manager.go:150-153 | over every run a row is audited as detected at most once, and exactly once if and only if the write at its creation succeeded |
| DiscoveryConns.AnotherIff | internal/server/handlers/discover.go:106-158 | after a first connection, and with no other connection in the way, a row gets another exactly when it is still open and the first was deleted or the row's alias has changed; then the first one's mark had failed |
| DiscoveryConns.OneConnectionPerRow | internal/server/handlers/discover.go:106-158 | over every run, a connection whose row was then marked is the last one made from that row |
| DiscoveryConns.SecondConnectionCause | internal/server/handlers/discover.go:138-158 | over every run, between two connections from one row the first mark failed and either the first connection was deleted or a rescan changed the row's alias |
| DiscoveryConns.DoubledByRescan | internal/store/discovered.go:143-153 | from an empty store: scan, approval with a failed mark, rescan under another alias and approval give two connections from one row |
| DiscoveryConns.DoubledByDeletion | internal/store/connections.go:266-279 | from an empty store: scan, approval with a failed mark, deletion and approval give two connections from one row |
| DiscoveryConns.RetryIsRefused | internal/store/connections.go:189-190 | with neither in between the second approval finds the alias taken and changes nothing |
| DiscoveryRaces.UndisturbedIsUpsert | internal/store/discovered.go:89-200 | an Upsert's read and write with nothing in between are the whole call's specification |
| DiscoveryRaces.UndisturbedIsApprove | internal/server/handlers/discover.go:106-158 | an approval's read, insert and mark with nothing in between are the whole call |
| DiscoveryRaces.SingleStatements | internal/store/discovered.go:322-361 | rejection, lapse and connections by hand are the same statements as whole calls |
| DiscoveryRaces.DecisionUndoneIff | internal/store/discovered.go:123-150 | in every interleaving of statements, connections by hand included, a decided row returns to an open state exactly when an Upsert that read it before the decision writes after it |
| DiscoveryRaces.RecordedIff | internal/server/handlers/discover.go:106-158 | in every interleaving, a connection is recorded for a row exactly by an approval that read the row open, made the connection while the alias read was free, and marks the row while the connection exists |
| DiscoveryRaces.RejectionOvertakenIff | internal/server/handlers/discover.go:106-158 | in every interleaving, a rejected row becomes approved exactly when an approval that read it before it was decided marks it after |
| DiscoveryRaces.ApprovedRevives | internal/store/discovered.go:123-150 | from any pending row with a free alias there is a schedule in which the row is approved and then pending again |
| DiscoveryRaces.RejectedRevives | internal/store/discovered.go:123-150 | from any pending row there is a schedule in which the row is rejected and then pending again |
| DiscoveryOverlaps.AnotherMadeIff | internal/server/handlers/discover.go:106-152 | in every interleaving, after a connection from a row and with no other in the way, an approval makes a second exactly when the first is gone by then or the two approvals read different aliases |
| DiscoveryOverlaps.RecordedTwiceIff | internal/server/handlers/discover.go:106-158 | in every interleaving, a row has two connections recorded exactly when each is carried by its own approval, the later having read the row before the earlier marked it or after its decision was undone, and either the aliases read differ or the connection made first was gone when the other was made |
| DiscoveryOverlaps.BothRecord | internal/store/discovered.go:143-153 | from any pending row with a free alias, a scan that renames it between the reads of two approvals lets both record a connection |
| DiscoveryProps.AppliedStep | internal/store/discovered.go:130-199 | one entry keeps what the scan's earlier entries established, and adds its own |
| DiscoveryProps.ScanReconciles | internal/discover/manager.go:131-162 | after a source's successful turn accepted entries show their last fields, unless decided, and, if marking succeeded, its pending keys were all seen |
| DiscoveryProps.OtherSourceUntouched | internal/store/discovered.go:339-361 | a failed scan, or another source's, leaves a source's rows alone |
| DiscoveryProps.PassReconciles | internal/discover/manager.go:123-165 | after a whole pass every successfully scanned source is reconciled and every other source untouched |
| Canonicalizing.Buffer.WriteCanonical | internal/audit/hashchain.go:63-113 | appends the canonical text for any order in which maps yield their keys |
| Canonicalizing.Canonicalize | internal/audit/hashchain.go:48-61 | empty input is null, text that is not JSON an error, other text its value's canonical form |
| JsonRoundTrip.CharsRead | internal/audit/hashchain.go:68-74 | an escaped string reads back as the string, whatever follows its closing quote |
| JsonRoundTrip.EscapesAreMarkupFree | internal/audit/hashchain.go:68-74 | printed strings hold no control or markup character and no JavaScript line separator |
| JsonRoundTrip.EscapeForm | internal/audit/hashchain.go:68-74 | each character has one fixed escape: the two-character one where there is one, \u with four lower-case digits for other control and markup characters, none for the rest |
| JsonRoundTrip.Reads | internal/audit/hashchain.go:63-113 | the reader inverts the printer on every value, whatever order each object in it lists its members in, and in any context that ends a number |
| Canonicalizing.ReadsBack | internal/audit/hashchain.go:48-113 | decoding printed text gives the value printed |
| Canonicalizing.SelfDelimiting | internal/audit/hashchain.go:63-113 | where a canonical text ends can be told, so equal texts with anything after them have equal values |
| Canonicalizing.UnmarshalIsValid | internal/audit/hashchain.go:52-55 | every decoded number is carried by the text it formats to |
| Canonicalizing.Idempotent | internal/audit/hashchain.go:48-61 | the canonical form of canonical text is itself |
| Canonicalizing.SameFormSameValue | internal/audit/hashchain.go:44-47 | two texts have one canonical form exactly when they hold the same value |
| Canonicalizing.KeyOrderLeavesNoTrace | internal/audit/hashchain.go:27-29 | any two texts of one value, each object's members listed in any order at each place, have one canonical form |
| AuditChain.Hash | internal/audit/hashchain.go:119-136 | hashes the concatenation of id, timestamp, fields, canonical details and previous hash, or fails on details that are not JSON |
| AuditChain.AuditRepo.Append | internal/store/audit.go:44-120 | links to the last hash under the next id; a failure at any point leaves the log unchanged |
| AuditChain.AuditRepo.VerifyChain | internal/store/audit.go:134-205 | the loop reports the first violation in id order, or none |
| AuditProps.AcceptedIff | internal/store/audit.go:134-205 | VerifyChain finds nothing wrong exactly when every row is linked to all rows before it ("accepted" below) |
| AuditProps.ReportsTheFirst | internal/store/audit.go:134-205 | the violation reported is that of some row all of whose predecessors were accepted |
| AuditProps.RowIntact | internal/audit/hashchain.go:140-152 | a row passes exactly when both hashes have 32 bytes, it points back, its details open and decode, and its hash is that of its own bytes |
| AuditProps.NeverTheSeed | internal/audit/hashchain.go:19-25 | every encoding has at least 49 bytes and the seed 21, so no entry is the genesis |
| AuditProps.InputSplits | internal/audit/hashchain.go:119-136 | equal encodings have equal ids, timestamps, contents and previous hashes |
| AuditProps.HeadDeterminesLog | internal/store/audit.go:134-205 | two accepted logs with one last hash have equal length and agree row by row on id, timestamp, links and content bytes |
| AuditProps.SharedHashSharesPast | internal/store/audit.go:134-205 | accepted logs that share any entry hash share everything up to it, at the same position |
| AuditProps.TamperingIsCaught | internal/store/audit.go:151-204 | a row changed or made unreadable under its stored hash is rejected, whatever else was changed |
| AuditFields.Layout | internal/audit/hashchain.go:119-136 | the bytes hashed are id and time as eight bytes each, most significant first, then user, action, resource and details run together, then the previous hash |
| AuditFields.OneFieldIsCaught | internal/store/audit.go:151-204 | a row that differs from an accepted one in just one of id, time, user, action, resource and details, under the same entry hash, is rejected, whatever else was changed |
| AuditFields.VerdictOnRow | internal/store/audit.go:151-204 | each verdict's cause, in the order the causes are looked for |
| AuditFields.AppendRecords | internal/store/audit.go:44-120 | an append succeeds exactly when the details are JSON and nothing fails; the new row then has the call's fields under the next id, and its details open again |
| AuditGrowth.AppendVerifies | internal/store/audit.go:44-120 | an append to an accepted log gives an accepted log with the next number |
| AuditGrowth.AppendsVerify | internal/store/audit.go:44-120 | every log built by any run of appends, failed ones included, is numbered 1 to n and accepted |
| AuditGrowth.LogsOnlyGrow | internal/store/audit.go:44-120 | a run of appends never loses or changes a written row |
| AuditGrowth.FieldsRunTogether | internal/audit/hashchain.go:130-133 | bytes moved between user and action leave the hash as it was |
| AuditGrowth.Utf8Injective | internal/audit/hashchain.go:133 | different texts have different UTF-8 bytes |
| AuditGrowth.AgreeingDetails | internal/audit/hashchain.go:119-136 | rows that agree and have the same three fields have the same canonical details |
| SqlRun.Pool.ExecuteTx | internal/postgres/pgx.go:97-115 | all statements and the sum of their rows, or no change at all, with the first failing statement named |
| SqlRun.Pool.ExecuteBatch | internal/postgres/manager.go:299-344 | succeeds exactly when there is nothing to run, or the gate lets every statement through, the pool opens, the transaction begins and commits and every statement runs; then all have run and the total is theirs, otherwise nothing has changed |
| Editor.BuildChanges | web/src/pages/dataEditor.ts:108-123 | updates of live edits, then deletes, then non-empty drafts, for any order of object keys |
| Editor.EditShows | web/src/pages/dataEditor.ts:54-59 | an edited cell shows its last value and every other cell and mark is unchanged |
| Editor.ToggleFlips | web/src/pages/dataEditor.ts:61-68 | toggling flips one row's mark and nothing else, and toggling twice takes a new mark back |
| Editor.InheritedStaysDeleted | web/src/pages/dataEditor.ts:61-68 | to the editor a row keyed by an inherited name counts as deleted, and toggling leaves the state as it was |
| Editor.RemovedDraft | web/src/pages/dataEditor.ts:79-81 | removing a draft keeps exactly the others |
| Editor.DraftCellHolds | web/src/pages/dataEditor.ts:75-77 | typing into a draft's cell gives that draft the value, in place of an earlier one, and changes nothing else |
| Editor.RowsAndDraftsApart | web/src/pages/dataEditor.ts:54-81 | edits and marks leave drafts alone and drafts leave them alone |
| EditorHistory.RowsAreTold | web/src/pages/dataEditor.ts:54-87 | in every run a row's edits are the values last typed into its cells since a reset, and it is marked when toggled an odd number of times |
| EditorHistory.CellLast | web/src/pages/dataEditor.ts:54-59 | the last value typed into a cell is the one told |
| EditorHistory.DraftsAreTold | web/src/pages/dataEditor.ts:70-87 | in every run the drafts are those added and not removed, each with the values last typed into it |
| EditorHistory.DraftLast | web/src/pages/dataEditor.ts:75-77 | the last value typed into a draft's cell is the one told |
| EditorHistory.HistoryIsStored | web/src/pages/dataEditor.ts:108-117 | submitted, a row is gone if marked, and otherwise holds the last value typed into each cell and what it held in the others |
| EditorHistory.DraftIsStored | web/src/pages/dataEditor.ts:118-121 | submitted, a draft added, typed into and not removed is a row with the last value typed into each of its cells |
| EditorSubmit.ResetClears | web/src/pages/dataEditor.ts:83-87 | after a reset nothing is pending, and draft numbers go on |
| EditorGrid.ReachableTracks | web/src/pages/dataEditor.ts:54-87 | over every run, page changes included, each edit and delete belongs to a loaded row, carries its key and leaves key columns alone; draft ids stay distinct and drafts hold existing columns |
| EditorGrid.ShownIsWritten | web/src/pages/dataEditor.ts:89-98 | the page renders and shows what the pending changes make of its rows, cell by cell, if and only if no row key, and no unedited column of an edited row, is an inherited name |
| EditorGrid.KeptIff | web/src/pages/dataEditor.ts:108-117 | a loaded row is stored as it was exactly when it is not marked deleted and its edit, if any, only sets values it has |
| EditorGrid.TellsAllIff | web/src/pages/DataPage.tsx:34-37 | the page shows its rows as they will be stored and every other loaded row is stored as it was, if and only if no inherited name gets in the way and no row off the page is marked deleted or has an edit that sets anything new |
| EditorGrid.RendersIff | web/src/pages/DataPage.tsx:632-670 | over every run the page can be rendered exactly when no row key on it is an inherited name, and then shows as many rows as will be stored |
| EditorGrid.KeyStringsDecode | web/src/pages/dataEditor.ts:10-12 | key values without U+0001 are determined by their row key |
| EditorGrid.RowKeysCollide | web/src/pages/dataEditor.ts:10-12 | with U+0001 in a value two different keys share a row key |
| EditorWrites.HitsOne | internal/pg/mutate.go:136-156 | the key condition of a loaded row is true of that row alone, edited or not |
| EditorWrites.UpdatePatches | web/src/pages/dataEditor.ts:110-114 | running one update patches its own row and affects one row |
| EditorWrites.DeleteRemoves | web/src/pages/dataEditor.ts:115-117 | running one delete removes its own row and affects one row |
| EditorWrites.InsertsWrite | web/src/pages/dataEditor.ts:118-121 | running the inserts adds one row per non-empty draft, its values over the database's defaults |
| EditorSubmit.OnlyThePage | internal/pg/mutate.go:136-156 | a statement addressed to a loaded row leaves every row that was not loaded alone |
| EditorPage.InChanges | web/src/pages/dataEditor.ts:108-123 | what is submitted is exactly an update for each live edit, a delete for each mark and an insert for each draft that holds something |
| EditorPage.BuildableIff | internal/pg/mutate.go:104-156 | the changes of any run can be built if and only if the table's name and every column written are identifiers and, where loaded rows are changed, so are the key columns and none is named __proto__ |
| EditorPage.PageIsTrueIff | web/src/pages/DataPage.tsx:140-147 | the changes can be built and the page tells all they do, if and only if names fit, no inherited name gets in the way and no row off the page is marked deleted or has an edit that sets anything new |
| EditorPage.InheritedRowBreaksPage | web/src/pages/DataPage.tsx:667-670 | for every inherited name there is a table with a row so keyed: a page with that row on it shows nothing, the other row included, and no event after it does anything |
| EditorPage.HiddenDelete | web/src/pages/DataPage.tsx:111 | a delete made under one filter still removes its row when submitted under another that hides the row |
| EditorPage.ProtoKeyMarksAll | web/src/pages/dataEditor.ts:10-18 | with a key column named __proto__ one delete marks both rows of a page and cannot be built |
| EditorSubmit.ChangesWrite | web/src/pages/dataEditor.ts:108-123 | the changes of any run whose names fit leave exactly the overlay of the loaded rows, the drafts added and nothing else touched, each change affecting one row |
| EditorSubmit.DirtyCountsChanges | web/src/pages/dataEditor.ts:100-106 | the count shown is the number of changes submitted |
| EditorWrites.RunIsEffects | internal/postgres/pgx.go:97-115 | built statements run from their text do what their changes say and touch no other table |
| EditorWrites.RunsIffAccepted | internal/postgres/pgx.go:97-115 | built statements all run exactly when the database accepts each in its turn, on the table as those before it left it |
| EditorSubmit.BatchWrites | internal/postgres/pgx.go:97-115 | the changes of any run whose names fit can be built, and their text, if it runs, leaves the overlay and affects as many rows as the count shown |
| EditorSubmit.SubmitChanges | web/src/pages/DataPage.tsx:147-164 | from any run of editor events through building, gate and transaction: succeeds exactly when there is nothing to do or the changes can be built, pass the gate, run and commit; then the overlay is stored, rows never loaded and other tables are untouched and the rows affected are the count shown; otherwise nothing changes |
| EditorSubmit.NothingUnconfirmed | internal/server/handlers/mutate.go:62-85 | without a confirmation on staging or production, or for a read-only role anywhere, no change goes through |

## Left out

- Primitives and libraries: AES-GCM, HKDF, SHA-256, SQLite and pgx internals, the network and SSH handshakes appear as parameters with the laws listed above.
- HTTP routing, request decoding, status codes and React components: plumbing around the operations modelled.
- Docker API client, environment and label parsing, configuration, container preflight: input handling with single-branch checks.
- Users, sessions, roles, stored observations and the capability cache: shallow invariants.
- Timeouts and poll intervals of a policy: constants nothing modelled depends on.
- CSV, zip and XML writing: standard-library code; only the column names are modelled.
- Liveness: wall-clock timeouts and whether a goroutine is ever scheduled; only safety is stated.
- Manager.Execute for hand-written SQL and TestSSHHost: the gate's verdicts on arbitrary text are covered by the classifier results; TestSSHHost opens and closes within one call.
- Text is a sequence of code points: invalid UTF-8, which JSON decoding replaces and PostgreSQL rejects, is not modelled.
- Upper-casing of letters outside ASCII beyond the two that upper-case into ASCII: they cannot form a keyword.
- Number formatting in filters and cells: a number is carried by its text.
- Typed columns: a stored value is its text, so coercions that respell a value, and rejections of a text by its column's type, are left to the database's answer.
- JSON nesting deeper than 10000, which decoding refuses, is not modelled.
- Reading the log from the database in VerifyChain: query and scan errors are not modelled.
- Two additions of a draft before the page renders again share an id in the source; here each addition sees the last one.
- Discovery.Repo.Upsert: one atomic step here; its statements interleave in DiscoveryRaces, where audit entries are left out. The sealed password is a field like any other.
- Discovery.Repo.ApproveRow: one atomic step here, its read, insert and mark separate in DiscoveryRaces, where a missing passphrase or password is left out; audit entries for approvals and rejections are left out.
- SqlCheck.FirstWord: works on characters where the source cuts bytes, so for text outside ASCII only the keyword verdict agrees.
- SqlRun.Pool.ExecuteTx: constraints, triggers and types are one arbitrary answer per statement; statements of other sessions during the transaction are not modelled.
- EditorGrid.ShownIsWritten: speaks of loaded rows; drafts are compared only in what is stored for them (InsertsWrite).
- Virtual scrolling: a loaded row is rendered when it is scrolled near; here every row on the page is rendered.
- EditorSubmit.SubmitChanges: one attempt; the prompts that repeat it with a confirmation or a passphrase are left out, and so are rows changed by others between loading and submitting.
- Switching to another connection on the same table, which also keeps pending changes: a run stays on one connection.
- Facets.SearchRows: the source sends no ORDER BY, so a page is a slice of the order the server used for that query; different calls need not share one.
- Facets.DistinctValues: the server's grouped answer is any legal one; ties are in any order.
