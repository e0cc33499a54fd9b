# A verified model of the FlowCanvas backend

FlowCanvas watches the connections a Mihomo kernel carries, draws devices, the
applications seen from them and the available proxies as a canvas, and turns the edges a
user draws (Source → Filter → Target) into routing rules spliced into the kernel's own
configuration file. This project models the Go backend of that program in Dafny and proves
what it is for. Check it with `dafny verify dfyconfig.toml`.

## What is modelled

**Compiler and merge.** `Compiler`, `CompilerLoops`, `ConfigMerge`, `ConfigMergeLoops`: the
compilation of a canvas and the merge into a user's YAML tree, as the loops of the source
and as functions they are verified against. `RuleSyntax`, `ConfigMergeLaws`,
`CompilerProperties`: what the rendered text and the merged tree are. `CompilerSays` and
`UserPart` say the same about raw texts, literal prefixes and positions: what every match,
address, name and filter compiles to or fails with, and what of a file is the user's. `Routing` gives the
rule language a first-match semantics and gives the canvas a meaning that mentions no rule
at all; `RoutingCorrect` proves that the two agree, and `MappedSource` shows the one kind
of canvas on which the code falls short.

**Application.** `ApplyProtocol` is the state machine of backup, audit row, write, reload,
probe and compensation, in which every step can fail before or after it takes effect and
the process can crash anywhere. `ApplySafety` proves its invariants. `ApplyService` is the
service object as the program runs it, verified to perform runs of that machine;
`ApplyCorrect` puts both on the real compiler and merge.

**Telemetry.** `Models` and `Watcher` (what a snapshot admits and how it differs from the
previous one), `FeatureWriter` and `Coalescing` (bounded queue, overflow map, batches),
`Runtime` and `RuntimeStore` (the relational tables and their derived columns).
`RuntimeRows` says what a batch, a refresh and the cleanup leave in every row;
`RuntimeInvariants` and `RuntimeRuns` prove what the derived columns are worth in every
run. `Pipeline` is the whole path from snapshot to table as one machine, and the writer is
verified to perform runs of it; `PipelineOverflow` proves that nothing is lost under any
schedule, `PipelineOrder` exactly when the newest event of a connection wins, and
`PipelineWitnesses` that it need not. `Polling` puts watcher, writer and store together.
`ObservedRouting` closes the circle: the traffic of
an observed connection is what the rule for its wired flow routes.

**Canvas and events.** `GraphValidator`, `CanvasStore`, `ETags`, `CanvasServer` (checking,
saving and applying a graph under optimistic locking) and `EventHub` (bounded subscriber
queues with resync).

`Text`, `Decimal`, `Library`, `Domain`, `Telemetry` and `Wrappers` hold what these share.
Library code the program calls (address parsing and printing, lower-casing, hashing, YAML
text, quoting of notices) is a value of type `Library`; each theorem names the laws it
needs of it (`LawfulAddresses`, `LawfulYaml`, `LawfulCase`, `PlainAddresses`,
`NonEmptyAddresses`, `Distinguishes`).

## Where the code does less than it seems to

Each of these is proved: an input or a run for which the expected property fails, and the
exact condition under which it holds.

- An open connection that is observed again for another device-application leaves the old
  row's `active_connections` one too high (`MigrationLeavesGhostConnection`); by how much
  any row is off after any batch or run is `ExcessAfterBatch` and `ExcessAfterRun`, and a
  run is exact if and only if no row has an excess (`RunIsExactIff`). The design text
  promises equality.
- An application can stay active with no active device-application, for good
  (`MigrationStrandsApplication`); it does exactly if a batch takes its last active row
  away without reconciling it (`JustifiedIff`).
- Once the queue overflows, the newest event of a connection need not win: it may overflow
  and be flushed before older ones that still wait in the queue
  (`OverflowReordersEvents`, for every capacity and batch size), or be taken by a flush
  that puts an older overflow event behind it (`ShutdownReordersEvents`). It wins if and
  only if no flush did either since it was submitted (`NewestWinsIff`). With batches no
  longer than the queue, which the configuration enforces, the second way is left to the
  shutdown flush (`FlushMisordersIff`, `ShutdownMisordersIff`); with longer ones it is not
  (`LongBatchReordersEvents`). Nothing is ever lost or made up
  (`NothingLostNothingInvented`). The design text promises the newest event.
- A canvas save whose transaction committed is answered with a failure when the canvas
  cannot be loaded again: `FailedLoadHidesSave`; the canvas changes exactly if the
  transaction commits, and the answer is a failure then exactly if the load fails
  (`ChangedIffCommitted`, `OnlyCommitsChange`). The answer to a successful save can carry
  the tag of another session's later graph (`ReplyNamesLaterRevision`); it names the save's
  own revision exactly if no other save commits before the load
  (`ReplyNamesOwnRevisionIff`).
- Coalescing an open and a close drops the historical row (`CoalescingDropsRow`), exactly
  as `CoalescingKeepsRowIff` says.
- A change notification is raised exactly when some event of the batch changed the open
  pairs (`ChangedIffSomeEventChanges`), so no net change is missed (`NoChangeIsMissed`).
  It can be raised for nothing when a batch names a connection twice
  (`RepeatedConnectionOverReports`), which coalesced batches do not
  (`ChangedIffPairsChange`).
- An IPv4-mapped source renders as an invalid prefix and matches nothing
  (`SourceRendersExactly`), so a canvas can compile and route nothing
  (`MappedSourceServesNothing`, `MappedSourceRoutesNothing`).
- A suffix match of a lone dot compiles but matches no host
  (`BareDotSuffixMatchesNoHost`). A domain or suffix that compiles matches some host if
  and only if its cleaned value does not end in a dot; a keyword always does
  (`CompiledMatchReachesHostIff`).
- Canonicalising a host is not idempotent (`CanonicalHostIsNotIdempotent`): a space before
  the root dot survives (`CanonicalIsStableIff`). A host with a comma is observed and does
  not compile (`ObservedHostDoesNotCompile`); which hosts compile to themselves is
  `ObservedHostCompilesIff`.
- `Apply` can return an error with the candidate live: the last audit write may fail, and
  so may the write of a rollback (`ErrorsLeaveCandidateLive`). `Service.Apply` says exactly
  when, and which content the file has in every case.
- The design text places backups under `<revision>.yaml`; the code names them after the
  compilation's own id, and the model follows the code. The text also says a semantic
  failure creates no application; the code records a failed row, and so does the model.

## Model

| member | source | states |
|---|---|---|
| `RoutingCorrect.CandidateMeaning` | backend/internal/compiler/compiler.go:39-161 | On configuration text, for every compilable canvas, acceptable base and packet that no path from an IPv4-mapped source matches: the merged file sends it to the byte-least target some canvas path wants it at, and where the base's own rules send it when no path does |
| `RoutingCorrect.CandidateServes` | backend/internal/compiler/compiler.go:39-161 | On configuration text, for every packet at all: the least target served through a representable source, else the base's own rules |
| `RoutingCorrect.MergedTreeMeaning` | backend/internal/compiler/compiler.go:84-145 | The first of these two on trees |
| `RoutingCorrect.MergedMeaning` | backend/internal/compiler/config_merge.go:14-44 | The second of them on trees |
| `RoutingCorrect.ServedIsWanted` | backend/internal/compiler/compiler.go:197-212 | A target is served exactly when it is wanted, provided the paths that match the packet start at representable addresses |
| `MappedSource.MappedSourceServesNothing` | backend/internal/compiler/compiler.go:207-211 | A canvas whose wired device has an IPv4-mapped address compiles, wants traffic and serves none |
| `MappedSource.MappedSourceRoutesNothing` | backend/internal/compiler/compiler.go:207-211 | Its merge decides every packet as the base does |
| `MappedSource.SomePathRenders` | backend/internal/compiler/compiler.go:197-254 | Such canvases exist |
| `RoutingCorrect.LinesServeExactly` | backend/internal/compiler/compiler.go:84-123 | The rules compiled for a target match a packet exactly when a canvas path with a representable source wants it there |
| `RoutingCorrect.IntentRendersExactly` | backend/internal/compiler/compiler.go:111-122 | A rendered rule, parsed and matched, accepts exactly the packets its device and match specification describe, and none at all when the device's address is IPv4-mapped |
| `RoutingCorrect.SourceRendersExactly` | backend/internal/compiler/compiler.go:197-212 | A rendered source prefix matches exactly the device's own address if and only if it is not IPv4-mapped; a mapped one matches nothing |
| `RoutingCorrect.FullPrefixMatches` | backend/internal/compiler/compiler.go:207-211 | A full-length prefix matches an address if and only if it is the same address |
| `RoutingCorrect.MatchRendersExactly` | backend/internal/compiler/compiler.go:214-242 | A rendered match accepts a host exactly when the canvas's match specification does |
| `RoutingCorrect.RuleSetDecides` | backend/internal/compiler/compiler.go:127-140 | A managed RULE-SET line splits back into its provider and target, and decides for that target exactly when that provider matches |
| `RoutingCorrect.MergedProviderServes` | backend/internal/compiler/config_merge.go:99-118 | Looking a managed provider up in the merged mapping finds the compiled payload, past every user provider |
| `RoutingCorrect.RouteAfterSkipping` | backend/internal/compiler/config_merge.go:120-138 | Managed lines are tried first and in order; when none decides, the user's rules decide as before |
| `RoutingCorrect.CompiledMatchReachesHostIff` | backend/internal/compiler/compiler.go:214-242 | A match specification that compiles matches some host name if and only if it is a keyword or its cleaned value does not end in a dot |
| `RoutingCorrect.BareDotSuffixMatchesNoHost` | backend/internal/compiler/compiler.go:231 | A suffix of a lone dot compiles to the empty suffix and matches no host name |
| `CompilerLoops.Compile` | backend/internal/compiler/compiler.go:39-161 | Succeeds exactly when every edge is directed and every wired filter renders, with the preview determined by the sets of nodes and edges; otherwise the error is that of the first undirected edge, or else of the least failing filter |
| `CompilerLoops.GroupEdges` | backend/internal/compiler/compiler.go:45-70 | The grouping loop yields each filter's sources and targets, or the error of the first undirected edge in order |
| `CompilerLoops.CompileFilters` | backend/internal/compiler/compiler.go:84-127 | The filter loop yields the rules grouped by target and the warnings of all filters, or the error of the least failing filter |
| `CompilerLoops.EmitProviders` | backend/internal/compiler/compiler.go:129-145 | One provider and one RULE-SET line per target, in order |
| `CompilerLoops.UniqueSorted` | backend/internal/compiler/compiler.go:300-306 | The distinct values in strictly increasing order |
| `Text.MapKeysSorted` | backend/internal/compiler/compiler.go:308-315 | The keys of a map, each once, strictly increasing |
| `Text.SortedUnique` | backend/internal/compiler/compiler.go:300-315 | There is only one strictly increasing sequence with given members, whatever order a map was iterated in |
| `Text.LessIff` | backend/internal/compiler/compiler.go:300-315 | The order of the names is that of dictionaries: the first difference decides, a proper prefix comes first |
| `Text.TrimSpaceIff` | backend/internal/compiler/compiler.go:197-223 | Trimming takes off the spaces at both ends, all of them and nothing else |
| `Text.SpacesAre` | backend/internal/compiler/compiler.go:198 | The characters trimming takes for spaces are the white-space characters of Unicode, one by one |
| `Domain.CatalogHoldsLast` | backend/internal/graph/validator.go:33-37 | Of several nodes with one id the last is the one looked up |
| `Compiler.ResolveIntentNodes` | backend/internal/compiler/compiler.go:163-195 | A resolved intent has data of the three kinds, of one device |
| `CompilerProperties.OrderIndependent` | backend/internal/compiler/compiler.go:39-161 | Permuting or duplicating edges, or permuting nodes with distinct ids, keeps success or failure and gives the identical preview |
| `CompilerProperties.PreviewShape` | backend/internal/compiler/compiler.go:129-145 | The (target, rule) pairs are exactly those of the wired filters, each once; targets and payloads strictly increase; one RULE-SET line per provider |
| `CompilerProperties.EveryWiredFilterContributes` | backend/internal/compiler/compiler.go:84-127 | On success every wired filter has exactly one source and one target and contributes its line |
| `CompilerSays.MatchSays` | backend/internal/compiler/compiler.go:214-242 | What a match specification compiles to, or its error, from its raw text: case and surrounding spaces come off, commas and control characters are refused, a domain must not be an address, a suffix loses one leading dot |
| `CompilerSays.EdgeSays` | backend/internal/compiler/compiler.go:45-70 | Which edges wire a filter, and whether any other has a missing node or a wrong direction |
| `CompilerSays.TypesSay` | backend/internal/compiler/compiler.go:225-233 | The three keywords of the rule language |
| `CompilerSays.SourceSays` | backend/internal/compiler/compiler.go:197-212 | The prefix of a device's trimmed address: full length and without its zone, and the text of an invalid prefix exactly for a mapped one |
| `CompilerSays.MappedSays` | backend/internal/compiler/compiler.go:207-211 | Which addresses are IPv4-mapped, and what each unmaps to |
| `CompilerSays.TargetSays` | backend/internal/compiler/compiler.go:244-254 | A target name is valid if and only if it is not all spaces and has no comma and no control character |
| `CompilerSays.IntentSays` | backend/internal/compiler/compiler.go:104-126 | The rule text and the warning of one intent, or the first of its errors in the order source, match, target |
| `CompilerSays.FilterSays` | backend/internal/compiler/compiler.go:86-127 | The error of every wired filter: several or no sources before several or no targets before missing nodes, wrong data, a foreign filter |
| `CompilerSays.WarningsSay` | backend/internal/compiler/compiler.go:119-159 | The warnings are exactly the notices of the targets at the end of some path that are not alive or are inactive, in order |
| `CompilerSays.PreviewSays` | backend/internal/compiler/compiler.go:129-161 | Canvas and revision of a preview, and a text that reads back as a mapping of its providers and rules, with that text's hash |
| `CompilerSays.ProviderEntrySays` | backend/internal/compiler/compiler.go:256-268 | Every managed provider is an inline one of classical behaviour with the compiled payload |
| `CompilerSays.ProviderNameSays` | backend/internal/compiler/compiler.go:138 | A provider is named flowcanvas- and the hexadecimal digits of its target's digest |
| `CompilerSays.HexSays` | backend/internal/domain/ids.go:9-12 | Two hexadecimal digits a byte, the high half first |
| `CompilerProperties.CompiledIsManaged` | backend/internal/compiler/compiler.go:122-145 | Every provider and rule of a compiled preview is recognisable as managed and passes validation |
| `CompilerProperties.CompiledMergeAccepted` | backend/internal/compiler/config_merge.go:14-44 | Merging a compiled canvas succeeds if and only if the base parses to a mapping whose two sections, if present, have the right kinds; validation never refuses it |
| `CompilerProperties.CompiledLastMergeWins` | backend/internal/compiler/config_merge.go:14-34 | Merging a second canvas over the first gives the same text as merging it over the base |
| `RuleSyntax.PayloadRoundTrip` | backend/internal/compiler/compiler.go:122 | A rendered rule with comma-free parts parses back to exactly those parts |
| `RuleSyntax.RenderingInjective` | backend/internal/compiler/compiler.go:122 | Rendering is injective on comma-free prefix, match type and value |
| `RuleSyntax.CommaMakesRenderingAmbiguous` | backend/internal/compiler/compiler.go:216 | With a comma allowed two different intents would render alike |
| `RuleSyntax.RuleSetFields` | backend/internal/compiler/compiler.go:139 | A RULE-SET line splits into exactly its keyword, provider name and target |
| `RuleSyntax.RuleSetManaged` | backend/internal/compiler/config_merge.go:128-136 | Every compiled RULE-SET line is recognised as managed |
| `RuleSyntax.RuleSetValid` | backend/internal/compiler/config_merge.go:82-94 | Every compiled RULE-SET line of a valid target name is well formed to validation |
| `ConfigMergeLoops.MergeManagedOverlay` | backend/internal/compiler/config_merge.go:14-44 | The merge performed on the mutable tree computes the merge function, errors included; which items it deletes, keeps and adds is UserPart.MergedRoot |
| `ConfigMergeLoops.ValidateManagedConfiguration` | backend/internal/compiler/config_merge.go:46-97 | Validation performed by the loops computes the validation function, errors included |
| `ConfigMergeLoops.ReplaceManagedProviders` | backend/internal/compiler/config_merge.go:99-118 | User providers in order, then the compiled ones |
| `ConfigMergeLoops.ReplaceManagedRules` | backend/internal/compiler/config_merge.go:120-138 | Compiled rules, then in order the rules that are not managed, which are those UserPart.ManagedRuleIff names |
| `ConfigMergeLoops.MappingNode.SetMappingValue` | backend/internal/compiler/config_merge.go:168-176 | In-place update of the first entry with a key, or an appended one |
| `ConfigMergeLoops.MappingNode.MappingValue` | backend/internal/compiler/config_merge.go:148-158 | The value of the first entry with a key |
| `ConfigMergeLaws.MergedSections` | backend/internal/compiler/config_merge.go:14-34 | User providers and user rules keep their exact order, managed rules come first, every other root key keeps its value; what makes an item the user's is UserPart.UserPartIff |
| `ConfigMergeLaws.MergeFrame` | backend/internal/compiler/config_merge.go:168-176 | Every root entry keeps its place and key, and its value unless it is one of the two sections; at most two entries are appended |
| `ConfigMergeLaws.MergeSucceedsIff` | backend/internal/compiler/config_merge.go:99-138 | The tree merge succeeds if and only if the two sections have the right kinds or are absent |
| `ConfigMergeLaws.MergeKeepsView` | backend/internal/compiler/config_merge.go:14-44 | The tree without its managed entries is the same before and after a merge |
| `ConfigMergeLaws.LastMergeWins` | backend/internal/compiler/config_merge.go:14-34 | Merge(Merge(b, p), q) equals Merge(b, q), as trees |
| `ConfigMergeLaws.MergeIsValid` | backend/internal/compiler/config_merge.go:46-97 | Validation accepts every successful merge of a managed preview |
| `ConfigMergeLaws.MergeTextIsMergedTree` | backend/internal/compiler/config_merge.go:14-44 | On text the merge is parse, merge and emit, and its result parses to the merged tree |
| `UserPart.ManagedRuleIff` | backend/internal/compiler/config_merge.go:128-136 | A rule is managed if and only if it is a scalar whose text, leading spaces aside, starts with RULE-SET,flowcanvas- |
| `UserPart.UserPartIff` | backend/internal/compiler/config_merge.go:99-138 | The user's part of a tree, said by positions and prefixes alone (the rules that are not managed, in order, the providers whose keys do not start with flowcanvas-, in order, and the rest of the root), is the view the other theorems are about |
| `UserPart.MergedRoot` | backend/internal/compiler/config_merge.go:14-34 | In the merged tree the first rules entry holds the compiled rules and then, in order, exactly the base's rules that are not managed; the first rule-providers entry holds exactly the base's own providers, in order, and then the compiled ones; and the user's part is what it was |
| `UserPart.MergedRest` | backend/internal/compiler/config_merge.go:168-176 | Every other root entry stays where and what it is |
| `UserPart.MergeSays` | backend/internal/compiler/config_merge.go:14-44 | Which error, or which text, a merge gives: unparsable, root not a mapping, wrong kind of either section, or the emitted tree |
| `UserPart.ValidationSays` | backend/internal/compiler/config_merge.go:46-97 | Which candidate texts validation accepts and the error of every other one, by the first sections, the key and rule prefixes and the fields themselves |
| `ApplyCorrect.EveryRunIsSafe` | backend/internal/compiler/applier.go:93-157 | Over any interleaving of applications and validations and any failures and crashes: the user's part of the file, said by positions and prefixes, is the same in every state of the run, a changed file is covered by its backup and rollback row, and every rollback row has its backup |
| `ApplyCorrect.ServiceIsSafe` | backend/internal/compiler/applier.go:93-249 | The same of everything a service object has ever done, at every step of it |
| `ApplyCorrect.ApplyCanvas` | backend/internal/compiler/applier.go:93-157 | After a successful application, whatever the service did before, the file routes every packet that no IPv4-mapped source matches as the canvas wants, whatever the user's rules mean, with the user rules of the very first file as fallback, and it is what the kernel runs |
| `ApplyCorrect.CandidateRoutesLikeCanvas` | backend/internal/compiler/applier.go:110-149 | The candidate of a prepared application routes every packet that no IPv4-mapped source matches as the canvas wants, with the previous file's user rules as fallback |
| `ApplyCorrect.RestartIsInitial` | backend/internal/compiler/applier.go:56-73 | A new process over the files and audit any run left, crashes included, starts where the theorems start |
| `ApplyService.ErrorsLeaveCandidateLive` | backend/internal/compiler/applier.go:151-154 | Faults under which a prepared application reports an error with the candidate in the file: a lost audit write, and a refused reload with a lost restoring write |
| `ApplyCorrect.RealMergeKeepsUser` | backend/internal/compiler/config_merge.go:14-44 | The merge of any compiled preview keeps the user's part of any configuration text |
| `ApplySafety.UserPartNeverChanges` | backend/internal/compiler/applier.go:93-157 | For any abstraction that merging leaves alone, every run leaves that of the file alone, failed rollbacks included |
| `ApplySafety.EveryStateCovered` | backend/internal/compiler/applier.go:110-149 | At every step, so also after a crash there: if the file differs from the bytes read at the start, the backup holds those bytes and a rollback row with both hashes exists |
| `ApplySafety.RunKeepsInvariant` | backend/internal/compiler/applier.go:93-249 | The full invariant over file, backups, audit rows, kernel and progress, in every reachable state |
| `ApplySafety.StatusesTellTheTruth` | backend/internal/compiler/applier.go:141-156 | A row marked applied means the file is the candidate and the kernel accepted and passed the probe on it; rolled back means the file is the original and the kernel accepted it again; only drafts and new rows change status |
| `ApplySafety.StatusIsFinal` | backend/internal/store/compilation.go:47-74 | A row that has left draft keeps its status through every later run |
| `ApplySafety.EveryStatusHasCause` | backend/internal/compiler/applier.go:77-157 | Validated arises only on a new row of a validation of a canvas that compiles, failed only on a new row of one that does not or at a failure's last step, draft only on a new row, applied and rolled back only at their own steps |
| `ApplySafety.LastStepSettles` | backend/internal/compiler/applier.go:195-249 | The step that completes an application gives its row the status of that step and the hash it settles on |
| `ApplySafety.EndLeavesOneOfTwo` | backend/internal/compiler/applier.go:195-249 | Whatever way an application ends, the file is its original or its candidate |
| `ApplyService.Service.Apply` | backend/internal/compiler/applier.go:93-157 | For every combination of faults the exact reply, file, kernel, audit rows, rollback row and backup: success if and only if every step succeeded; failed stored with the overlay's hash if and only if preparation failed and the audit write took effect; applied, rolled back, failed and draft reported exactly when; an error with the candidate live left exactly when the last audit write or an undoing write fails; the call is a run of the protocol |
| `ApplyService.OutcomeMeans` | backend/internal/compiler/applier.go:93-249 | What that outcome is, by conditions on the faults: status and rollback status reported, status and hash stored, backup, other applications' rows untouched |
| `ApplyService.Service.Commit` | backend/internal/compiler/applier.go:141-156 | Write, reload, probe and record, or compensate; the resulting file |
| `ApplyService.Service.Prepare` | backend/internal/compiler/applier.go:118-140 | When it succeeds the backup holds the original and the rollback row both hashes; otherwise the application fails with the file untouched |
| `ApplyService.Service.FailWithRollback` | backend/internal/compiler/applier.go:203-233 | The original is restored unless writing it back failed; a rolled-back status implies file and kernel are the original |
| `ApplyService.Service.CompleteRollbackFailure` | backend/internal/compiler/applier.go:235-249 | A failed rollback is recorded as failed and never reported as rolled back |
| `ApplyService.Service.FailWithoutRollback` | backend/internal/compiler/applier.go:195-201 | A failure before the write records the application as failed with the overlay's hash, unless the write is lost, and reports failed or, if the audit write returned an error, draft; nothing else changes |
| `ApplyService.Service.AtomicWriteConfig` | backend/internal/compiler/applier.go:277-313 | The write fails before or after the rename: the file is the old or the new content, never anything else |
| `ApplyService.Service.Validate` | backend/internal/compiler/applier.go:77-88 | A dry run changes nothing but the audit, where it adds exactly one row, validated or failed, under a fresh id |
| `ApplyService.Service.RecordFailure` | backend/internal/compiler/applier.go:175-193 | A canvas that does not compile is recorded as failed and nothing else happens |
| `ApplyService.AuditStore.CreateCompilation` | backend/internal/store/compilation.go:15-45 | A row is inserted under a fresh id, or nothing changes |
| `ApplyService.AuditStore.CompleteCompilation` | backend/internal/store/compilation.go:47-74 | An existing row takes the new status and hash |
| `ApplyService.AuditStore.CreateCompilationRollback` | backend/internal/store/compilation.go:106-125 | At most one rollback row per compilation |
| `ApplyService.AuditStore.CompleteCompilationRollback` | backend/internal/store/compilation.go:127-154 | An existing rollback row takes the new status |
| `RuntimeRuns.EveryRunFromEmpty` | backend/internal/store/runtime.go:30-141 | From the empty database, in every run of batches, topology refreshes and startup cleanups: active exactly when the count is positive, the count never below the open samples and at most one above, positive counts have a live device and application; in runs without migration the count is exact and active applications are justified |
| `RuntimeRows.SampleAfterBatch` | backend/internal/store/runtime.go:219-349 | The sample of every connection after any batch: it belongs to the flow of the last observation and is open until the first close after it, at that close's time; without an observation it is what it was, closed by the first close |
| `RuntimeRows.ReconciledRowSays` | backend/internal/store/runtime.go:395-415 | A row the batch lists counts exactly its open samples, is active if there are any and inactive since now otherwise |
| `RuntimeRows.UnlistedRowSays` | backend/internal/store/runtime.go:272-303 | A row the batch does not list is as it was, or says what the samples said just before the last connection to leave it did, at the time of that event |
| `RuntimeRows.AffectedSays` | backend/internal/store/runtime.go:44-69 | A batch lists exactly the flows it observes and the flows of the known samples it closes |
| `RuntimeRows.DevicesAfterBatch` | backend/internal/store/runtime.go:219-240 | A batch makes exactly the devices it observes active, last seen at their last observation |
| `RuntimeRows.DevicesAfterRefresh` | backend/internal/store/topology.go:11-77 | A refresh makes the found devices active and seen now; of the others exactly those seen earlier that carry no connection become inactive |
| `RuntimeRows.AppsAfterBatch` | backend/internal/store/runtime.go:76-82 | A listed application is active exactly if one of its rows is; any other is as it was |
| `RuntimeRows.SamplesAfterStartup` | backend/internal/store/runtime.go:90-141 | The cleanup closes every open sample now and leaves closed ones alone |
| `RuntimeRows.RowsAfterStartup` | backend/internal/store/runtime.go:90-141 | The cleanup makes exactly the rows that are active or have a count inactive, with count zero and now as the time |
| `RuntimeRows.AcceptableIff` | backend/internal/store/runtime.go:44-69 | A batch is refused if and only if it has an event of another kind or an observation without id, source or host; no close is refused |
| `RuntimeRows.TallySays` | backend/internal/store/runtime.go:51-67 | A batch reports the number of its observations and of its closes of connections known by then |
| `RuntimeRuns.RunKeepsInvariant` | backend/internal/store/runtime.go:30-141 | The same from any database that satisfies it |
| `RuntimeRuns.RunWithoutMigrationIsExact` | backend/internal/store/runtime.go:272-303 | Without an open connection changing its device-application, counts stay exact and active applications justified in every run |
| `RuntimeRuns.ExcessAfterRun` | backend/internal/store/runtime.go:272-303 | By exactly how much each count exceeds its open samples after any run from any database |
| `RuntimeRuns.RunIsExactIff` | backend/internal/store/runtime.go:272-303 | A run leaves every count exact if and only if no row has such an excess |
| `RuntimeRuns.JustifiedAfterBatchIff` | backend/internal/store/runtime.go:76-82 | A batch leaves an application active without an active device-application if and only if it does not reconcile it and none of its rows stays active |
| `RuntimeRuns.JustifiedIff` | backend/internal/store/runtime.go:70-141 | The same for every run; neither a refresh nor the startup cleanup repairs it |
| `RuntimeRuns.MigrationStrandsApplication` | backend/internal/store/runtime.go:273-279 | For any two connections of one device-application there is a run after which the application is active with nothing of it active, even after the startup cleanup |
| `RuntimeInvariants.ExcessAfterBatch` | backend/internal/store/runtime.go:272-303 | By exactly how much each count exceeds its open samples after any batch on any database |
| `RuntimeInvariants.BatchKeepsInvariant` | backend/internal/store/runtime.go:30-88 | One batch keeps the invariant |
| `RuntimeInvariants.BatchKeepsExact` | backend/internal/store/runtime.go:30-88 | One batch without migration keeps counts exact and active applications justified |
| `RuntimeRuns.MigrationLeavesGhostConnection` | backend/internal/store/runtime.go:273-279 | A two-batch run after which a device-application is active with one connection that does not exist |
| `RuntimeRuns.StartupRestoresExact` | backend/internal/store/runtime.go:90-141 | The startup cleanup makes every count exact and zero, from any state whatever |
| `RuntimeRuns.RefreshRetires` | backend/internal/store/topology.go:55-66 | Exactly which devices a refresh leaves inactive |
| `RuntimeRuns.RefreshKeepsInvariant` | backend/internal/store/topology.go:11-77 | A refresh never retires a device with active connections and touches nothing else |
| `RuntimeRuns.ChangedIffSomeEventChanges` | backend/internal/store/runtime.go:51-67 | For every acceptable batch, changed is reported exactly when some event of it changed the set of open pairs |
| `RuntimeRuns.NoChangeIsMissed` | backend/internal/store/runtime.go:51-67 | A batch that changes the open pairs is always reported |
| `RuntimeRuns.ChangedIffPairsChange` | backend/internal/store/runtime.go:272 | For a batch of distinct connections, which every coalesced one is, changed is reported exactly when the set of open pairs changed |
| `RuntimeRuns.RepeatedConnectionOverReports` | backend/internal/store/runtime.go:335-348 | With a repeated connection the report may be raised for nothing |
| `RuntimeStore.Store.ApplyFeatureEvents` | backend/internal/store/runtime.go:30-88 | The transaction applies all events and reconciles every affected row, or refuses the batch and changes nothing |
| `RuntimeStore.Store.ApplyObservedFeatureTx` | backend/internal/store/runtime.go:219-312 | One observation: upserts, early reconcile of the previous row, re-pointed sample, and whether anything changed |
| `RuntimeStore.Store.CloseObservedFeatureTx` | backend/internal/store/runtime.go:314-349 | One close: the known sample is closed, an unknown one is ignored |
| `RuntimeStore.Store.ReconcileAll` | backend/internal/store/runtime.go:70-82 | Reconciling the affected sets row by row in any order gives one result |
| `RuntimeStore.Store.ReconcileDeviceApplicationTx` | backend/internal/store/runtime.go:395-415 | Count, state and inactivity time recomputed from the samples |
| `RuntimeStore.Store.ReconcileApplicationTx` | backend/internal/store/runtime.go:417-430 | An application is active exactly when one of its device-applications is |
| `RuntimeStore.Store.MarkOpenConnectionsInactive` | backend/internal/store/runtime.go:90-141 | Closes every open sample, reconciles every stale row and reports how many it closed |
| `RuntimeStore.Store.UpsertTopologyDevices` | backend/internal/store/topology.go:11-77 | Upserts the found devices, retires the stale ones, and reports exactly whether there was either |
| `Coalescing.EveryCutAgrees` | backend/internal/telemetry/event_writer.go:178-196 | Every way of cutting a stream into coalesced batches, at any times, leaves the open pairs of applying it event by event |
| `Coalescing.CoalesceEvents` | backend/internal/telemetry/event_writer.go:178-196 | The loop returns the newest event of every connection, in order of first appearance |
| `Coalescing.OrderSays` | backend/internal/telemetry/event_writer.go:178-196 | Exactly the connections that appear, in the order in which they first do |
| `Coalescing.LatestSays` | backend/internal/telemetry/event_writer.go:178-196 | The event kept for a connection is its last one |
| `Coalescing.LatestOfCoalesced` | backend/internal/telemetry/event_writer.go:178-196 | Coalescing keeps exactly the newest event of every connection and invents none |
| `Coalescing.CoalescedEffects` | backend/internal/telemetry/event_writer.go:178-196 | A coalesced batch has the effect of the whole batch on any set of open pairs |
| `Coalescing.CoalescedBatchNotifiesExactly` | backend/internal/telemetry/event_writer.go:106-114 | A flush notifies exactly when the batch changed the open pairs |
| `Coalescing.CoalescingKeepsRowIff` | backend/internal/store/runtime.go:329-331 | When coalescing keeps a connection's historical row: if and only if it existed before, or was never observed in the batch, or is observed last |
| `Coalescing.CoalescingDropsRow` | backend/internal/store/runtime.go:329-331 | An open and a close in one batch leave no row once coalesced |
| `Pipeline.FlushedPipelineMirrorsSnapshot` | backend/internal/telemetry/event_writer.go:93-149 | For every sequence of snapshots and every schedule in which the queue never fills and no flush fails: once flushed, the open samples with their device-applications are exactly the connections of the last snapshot |
| `Pipeline.StoreMirrorsConnections` | backend/internal/telemetry/event_writer.go:93-149 | In such a run the open samples are exactly the normalised connections of the last snapshot, the last of several with one id counting |
| `Pipeline.RunConverges` | backend/internal/telemetry/event_writer.go:93-149 | At every moment of such a run, what is stored plus what is under way amounts to the last snapshot |
| `PipelineOverflow.NothingLostNothingInvented` | backend/internal/telemetry/event_writer.go:74-101 | With overflow: once drained, every connection submitted was applied, with events submitted for it and nothing else, and a connection that never overflowed ends on its last submitted event |
| `PipelineOrder.NewestWinsIff` | backend/internal/telemetry/event_writer.go:93-149 | In every drained run without failure, the last event applied for a connection is the last one submitted if and only if no flush misordered it since: overflowed ahead of older events that wait, or taken together with an older overflow event |
| `PipelineOrder.StoreMirrorsConnectionIff` | backend/internal/telemetry/event_writer.go:93-149 | In such a run the store agrees with the last snapshot on a connection if and only if it was not misordered or the event applied last says the same |
| `PipelineOrder.UnmisorderedRunMirrorsSnapshot` | backend/internal/telemetry/event_writer.go:93-149 | A run that misorders nothing mirrors the last snapshot, overflow or not |
| `PipelineOrder.MisorderedHasOverflowed` | backend/internal/telemetry/event_writer.go:83-88 | Only connections that overflowed can be misordered |
| `PipelineOrder.FlushMisordersIff` | backend/internal/telemetry/event_writer.go:97-101 | With batches no longer than the queue, an ordinary flush misorders exactly a connection whose newest event overflowed while older ones wait |
| `PipelineOrder.ShutdownMisordersIff` | backend/internal/telemetry/event_writer.go:121-133 | With the channel empty, the shutdown flush misorders exactly a connection whose newest event did not overflow while an older one did |
| `PipelineWitnesses.OverflowReordersEvents` | backend/internal/telemetry/event_writer.go:97-101 | For any connection, capacity and batch size there is a run in which its close overtakes its observation through the overflow, and the drained store keeps it open |
| `PipelineWitnesses.ShutdownReordersEvents` | backend/internal/telemetry/event_writer.go:121-133 | For any connection, capacity and batch size there is a run in which the shutdown flush stores an overflowed observation after the newer close |
| `PipelineWitnesses.LongBatchReordersEvents` | backend/internal/telemetry/event_writer.go:97-101 | With batches longer than the queue an ordinary flush does so too |
| `FeatureWriter.FeatureWriter.constructor` | backend/internal/telemetry/event_writer.go:49-69 | Sizes that are not positive are replaced by the defaults; everything starts empty |
| `FeatureWriter.FeatureWriter.ApplyFeatureEvents` | backend/internal/telemetry/event_writer.go:74-91 | Each event goes to the queue if there is room and replaces its connection's overflow entry otherwise; the call is that many submissions of the pipeline |
| `FeatureWriter.FeatureWriter.Flush` | backend/internal/telemetry/event_writer.go:98-117 | Batch and overflow reach the store as one coalesced transaction, or the batch is kept and the error counted; the callback runs exactly on a reported change; it is one flush, or failed flush, of the pipeline |
| `FeatureWriter.FeatureWriter.OnEvent` | backend/internal/telemetry/event_writer.go:134-142 | One received event joins the batch and a full batch is flushed, counters and callback included; it is a reception and at most one flush of the pipeline |
| `FeatureWriter.FeatureWriter.OnDone` | backend/internal/telemetry/event_writer.go:121-133 | Shutdown applies batch, queue and overflow, in that order, in one last transaction; it is the stop, the receptions that empty the channel and the last flush, successful or not, of the pipeline |
| `FeatureWriter.FeatureWriter.DrainOverflow` | backend/internal/telemetry/event_writer.go:164-176 | Every overflow event exactly once, and an empty map |
| `FeatureWriter.FeatureWriter.DrainChannel` | backend/internal/telemetry/event_writer.go:198-208 | Everything that waited, in order |
| `FeatureWriter.SubmissionsAreOneCall` | backend/internal/telemetry/event_writer.go:74-91 | The pipeline's single submissions add up to one call of the writer |
| `FeatureWriter.CallSays` | backend/internal/telemetry/event_writer.go:74-91 | A call queues, in order, as many of the events that name a connection as there is room for, and of the rest leaves the newest of each connection in the overflow |
| `Polling.Poll` | backend/internal/mihomo/watcher.go:60-93 | One snapshot, from the controller's connections through watcher and writer: the watcher remembers exactly the normalised connections, and writer, watcher and the pipeline's run stay in step |
| `Polling.StoreMirrorsWatcher` | backend/internal/telemetry/event_writer.go:93-149 | Whatever polls and writer branches came before, once the writer is drained without failure its store agrees with the watcher's last snapshot on every connection that was not misordered |
| `FeatureWriter.WriterMirrorsSnapshot` | backend/internal/telemetry/event_writer.go:93-149 | The same for the writer alone and the run it has performed |
| `FeatureWriter.CleanedStoreStarts` | backend/internal/store/runtime.go:90-141 | A writer created over a cleaned store starts where the pipeline's theorems start |
| `Watcher.Watcher.HandleSnapshot` | backend/internal/mihomo/watcher.go:60-93 | Remembers exactly the normalised connections, and reports each connection of either snapshot once: observed as the snapshot has it if present, closed as last seen but at the time of the snapshot if gone |
| `Watcher.CurrentSays` | backend/internal/mihomo/watcher.go:60-75 | The connections remembered are the admitted ones, the last of several with one id counting |
| `Watcher.DiffEffects` | backend/internal/mihomo/watcher.go:60-93 | Applying a diff turns the pairs of the previous snapshot into those of the next |
| `Models.AdmittedCanBeStored` | backend/internal/mihomo/models.go:54-104 | Every admitted connection has what the store demands; which connections are admitted, and as what, is Models.NormalizeSays |
| `Models.NormalizeSays` | backend/internal/mihomo/models.go:54-104 | From the raw texts, admitted if and only if id, address, a host name and a known network are there; the feature then has the address's text, the sniffed host if that is a host name and else the requested one, its network and the snapshot's time |
| `Models.NetworkSays` | backend/internal/mihomo/models.go:152-166 | TCP if and only if the trimmed lower-case text is tcp; QUIC if and only if it is quic, or udp with sniff type quic; UDP if and only if it is udp otherwise |
| `Models.CanonicalHostIff` | backend/internal/mihomo/models.go:132-150 | A text stands for a host name exactly when, trimmed and lower-cased, it is that name or that name with its root dot |
| `Models.DottedNameIff` | backend/internal/mihomo/models.go:140-148 | The label check accepts exactly the texts that are two or more short non-empty labels joined by dots |
| `Models.ByteLengthSays` | backend/internal/mihomo/models.go:134-147 | Lengths are those of the UTF-8 text, one to four bytes a character |
| `Models.CanonicalIsStableIff` | backend/internal/mihomo/models.go:132-150 | Canonicalising again changes nothing if and only if no space preceded the root dot |
| `Models.CanonicalHostIsNotIdempotent` | backend/internal/mihomo/models.go:132-150 | A text with such a space, whose canonical form canonicalises to something else |
| `Models.ObservedHostDoesNotCompile` | backend/internal/compiler/compiler.go:214-223 | A host with a comma is admitted by the watcher and refused by the compiler |
| `Models.ObservedHostCompilesIff` | backend/internal/compiler/compiler.go:214-242 | An observed host compiles to a rule for itself if and only if it holds no separator, no control character and no trailing space |
| `ObservedRouting.AddressSurvivesIff` | backend/internal/compiler/compiler.go:197-212 | The stored text of any address, zoned or not, reads back as that address up to its zone if and only if the zone is not all spaces |
| `ObservedRouting.FlowMatchesItsConnectionIff` | backend/internal/mihomo/models.go:54-104 | A discovered flow matches the traffic of its connection if and only if the address is not IPv4-mapped, its zone not blank and the host does not end in a space |
| `ObservedRouting.WiredConnectionIsRouted` | backend/internal/compiler/compiler.go:84-145 | Once such a flow is wired and the canvas compiles, with its address not mapped and no space at the host's end, the merged file sends that connection's traffic to the wired proxy, or to a lesser name another path serves it at |
| `GraphValidator.ValidateEdges` | backend/internal/graph/validator.go:33-85 | Reports the error of the first offending edge, and none exactly when every edge is sound and no two have the same end points |
| `GraphValidator.NoErrorIffAccepts` | backend/internal/graph/validator.go:33-85 | The running check of the loop accepts exactly what the order-free condition does |
| `GraphValidator.AcceptedIff` | backend/internal/graph/validator.go:33-128 | A graph is accepted if and only if every edge runs from a source to a filter of the same device or from a filter to a target without stating another kind, and no two edges join the same ends |
| `GraphValidator.KnownEdgeSays` | backend/internal/graph/validator.go:59-128 | Which of the errors an edge between given nodes has: missing node, wrong data, foreign device, wrong direction |
| `GraphValidator.RefusedSays` | backend/internal/graph/validator.go:39-85 | The error is that of the first edge that does not join the accepted ones before it: empty end, then repetition, then the edge's own |
| `GraphValidator.CanonicalSays` | backend/internal/graph/validator.go:95-104 | An accepted edge gets the kind its source node calls for and nothing else changes |
| `GraphValidator.CanonicalizeEdgeKinds` | backend/internal/graph/validator.go:87-105 | Accepts exactly the valid graphs and fills in every edge's kind |
| `GraphValidator.CanonicalIsStable` | backend/internal/graph/validator.go:87-105 | Canonicalising changes only unstated kinds, its output is accepted, and doing it twice changes nothing |
| `GraphValidator.AcceptedGraphSaysWhy` | backend/internal/graph/validator.go:33-128 | An accepted graph, compiled over the same nodes, never fails for an unavailable node, a wrong direction or a foreign filter |
| `GraphValidator.OneSourcePerFilter` | backend/internal/telemetry/live_catalog.go:49-63 | When source ids are derived from device ids, no filter of an accepted graph has two sources |
| `CanvasStore.Store.SaveDefaultGraph` | backend/internal/store/store.go:207-301 | The transaction stores the whole graph for the current revision, or nothing; the reply for each refusal and each database failure, the load after the commit included; which rows it stores is CanvasStore.SavedNodes and CanvasStore.SavedEdgesLoad, when it does CanvasStore.SaveSays |
| `CanvasStore.SavedNodes` | backend/internal/store/store.go:250-278 | After a commit every catalog node has a row with its kind, its resource and the last position the request gives it, or else its kind's default; rows outside the catalog are unchanged |
| `CanvasStore.UpsertSucceedsIff` | backend/internal/store/store.go:250-278 | Upserting the nodes succeeds if and only if their kinds and resources are known and each, in its turn, has kind and resource to itself |
| `CanvasStore.SaveSays` | backend/internal/store/store.go:207-301 | When a save commits, in terms of catalog, revision, node rows and edges, and when it is refused for an unknown node or a conflict |
| `CanvasStore.KnownSays` | backend/internal/store/store.go:213-229 | Unknown are exactly requests with a position or an edge end outside the catalog |
| `CanvasStore.Store.LoadDefaultCanvas` | backend/internal/store/store.go:181-204 | The stored edges in order of id |
| `CanvasStore.ChangedIffCommitted` | backend/internal/store/store.go:207-301 | The canvas changes if and only if the transaction commits, and then by one revision; success means it committed; an error with a changed canvas is returned if and only if the load after the commit fails |
| `CanvasStore.FailedLoadHidesSave` | backend/internal/store/store.go:297-300 | Every save that would succeed is, when the load after it fails, stored and answered with an error |
| `CanvasStore.ConflictIff` | backend/internal/store/store.go:246-252 | A conflict is reported if and only if the nodes are known, the revision was read and it is not the expected one |
| `CanvasStore.InsertSucceedsIff` | backend/internal/store/store.go:279-290 | Inserting the edges succeeds exactly when ids and end points are distinct and kinds are known |
| `CanvasStore.SavedEdgesLoad` | backend/internal/store/store.go:279-300 | The edges loaded after a commit are exactly the request's, in order of id |
| `CanvasStore.RevisionCountsWinners` | backend/internal/store/store.go:291-300 | Over any interleaving of saves the revision counts the commits |
| `CanvasStore.EachCall` | backend/internal/store/store.go:207-301 | In any interleaving, a save that does not commit changes nothing, and success is told exactly to commits that could be loaded |
| `CanvasStore.RevisionWonOnce` | backend/internal/store/store.go:246-252 | Each expected revision is committed at most once, and later commits expected more |
| `CanvasStore.LosersChangeNothing` | backend/internal/store/store.go:207-301 | Saves that do not commit leave the canvas as it was |
| `CanvasStore.LatestWinnerLoads` | backend/internal/store/store.go:207-301 | After any run the loaded edges are those of the latest commit |
| `ETags.QuotedTagRoundTrip` | backend/internal/api/server.go:368-378 | The quoted tag of a revision parses back to it, for exactly the 64-bit revisions |
| `ETags.HeaderNames` | backend/internal/api/server.go:368-378 | A header names a revision if and only if, without the spaces around it and then the quotes, it is canvas- and a 64-bit integer that is not negative |
| `Decimal.ParseInt64Iff` | backend/internal/api/server.go:373 | A 64-bit integer is read from digits after at most one sign, with the value they have from the left, and from nothing else |
| `CanvasServer.HandleSaveGraph` | backend/internal/api/server.go:100-147 | The order of checks (header, body, catalog, graph, revision), the reply for each, and the resulting canvas, with other sessions' saves between commit and load |
| `CanvasServer.EarlyRepliesSay` | backend/internal/api/server.go:100-125 | Bad header, bad body, unreadable catalog and refused graph: each is the reply exactly if it holds and none before it does |
| `CanvasServer.AcceptedRepliesSay` | backend/internal/api/server.go:126-147 | Once the graph is accepted the reply is an unknown node, a conflict, success or a failure, each exactly when: the edges can then only be refused for a repeated id |
| `CanvasServer.OnlyCommitsChange` | backend/internal/api/server.go:100-147 | Exactly a request that commits changes the canvas, to the revision after the one it was made for; it is answered with the tag of the revision then loaded, or with a failure if and only if the load fails |
| `CanvasServer.ReplyNamesOwnRevisionIff` | backend/internal/api/server.go:100-147 | The tag of a reply names the request's own revision if and only if no other save commits before the load, and is one further for each that does |
| `CanvasServer.ReplyNamesLaterRevision` | backend/internal/store/store.go:297-300 | Any save that commits in between makes the reply carry the tag of its graph |
| `CanvasServer.TagDecides` | backend/internal/api/server.go:100-147 | A sound request is answered with a conflict exactly when its tag is not that of the current revision and the revision can be read |
| `CanvasServer.SavedGraphSaysWhy` | backend/internal/api/server.go:116-147 | A stored graph, loaded and compiled over the nodes it was saved with, never fails for an unavailable node, a wrong direction or a foreign filter |
| `CanvasServer.HandleApplyCompilation` | backend/internal/api/server.go:223-251 | Nothing is compiled or written unless canvas and catalog can be read and the request names the stored revision; then it is the stored graph that is applied |
| `EventHub.EveryLifeIsHealthy` | backend/internal/api/events.go:29-53 | For any interleaving of offers and deliveries: at most 256 waiting, ids strictly increase, every id is delivered, waiting or lost, and every loss is followed by a resync with a larger id |
| `EventHub.StreamComesFrom` | backend/internal/api/events.go:37-51 | In every life, all that a subscriber receives or will is the published event of an offer made while fewer than 256 waited, under its id, or the resync of an offer made to a full queue |
| `EventHub.QueueIsTail` | backend/internal/api/events.go:37-51 | What waits are the last events sent, at most 256, where sent is what the offers alone prescribe |
| `EventHub.OfferLoses` | backend/internal/api/events.go:41-51 | An offer to a full queue loses exactly the oldest waiting event and the one offered; any other loses nothing |
| `EventHub.ReceptionTakesOldest` | backend/internal/api/events.go:84-89 | A reception takes the oldest event that waits |
| `EventHub.Hub.Publish` | backend/internal/api/events.go:19-53 | Every subscriber with room is sent the event itself, name and payload, under one fresh id, and every other one a resync in place of its oldest event; an event that cannot be encoded reaches nobody; every queue stays healthy |
| `EventHub.Hub.OfferTo` | backend/internal/api/events.go:37-51 | Sends the event itself if there is room, and otherwise drops the oldest event and sends a resync under a new id |
| `EventHub.Hub.Deliver` | backend/internal/api/events.go:84-89 | The oldest waiting event of one subscriber; the others are untouched |
| `EventHub.Hub.Subscribe` | backend/internal/api/events.go:93-100 | A fresh id with an empty queue |
| `EventHub.Hub.Unsubscribe` | backend/internal/api/events.go:102-106 | The subscriber is forgotten; the others are untouched |

## Left out

- HTTP, WebSocket and JSON: requests and replies are values; of the handlers the model keeps the order of checks and the effect on the stores.
- YAML text syntax, tags, styles, comments and anchors: parsing and emitting are assumed inverse on an ordered tree, and an empty document is a root that is not a mapping.
- Address text, Unicode lower-casing, SHA-256 and quoted notices are parameters of `Library`, used through the laws each theorem names.
- Strings are sequences of code points, whose order is that of their UTF-8 bytes; invalid UTF-8 is not modelled.
- Device, application and device-application ids are hashes of exactly the texts they stand for; the tables are keyed by those texts, which assumes the hash injective on them, and the case-insensitive collation of hosts is not modelled, since observed hosts are lower-case.
- What user rules match is an arbitrary function of the rule, the user's part of the file and the packet; user rules that refer to a managed provider by name fall outside it.
- The kernel's own parsing of a rule: the model splits at commas and takes the fixed brackets off. A match value with brackets in it compiles and reads back here, which says nothing about how the kernel pairs them.
- Columns that decide nothing (first-seen times, byte counters, proxy chains, transport hints, names, MAC addresses) and node labels and positions outside the canvas store.
- SQL: every transaction is one atomic step over maps, and its failure is a parameter; constraint violations that the schema can raise are modelled for nodes and edges only. A commit that reports an error is assumed not to have taken effect.
- Files: a write is atomic and fails before or after taking effect; modes, temporary names, directory syncs, size limits and context deadlines are not modelled. Nothing else is assumed to write the configuration while an application holds the lock, and edits by others between applications start a new run.
- Random ids are parameters; a collision is a failing insert.
- The writer's `queued` counter, timers and the select loop's choice of branch: each branch is a method verified to be steps of `Pipeline`, whose runs also admit submissions between a reception and the flush that follows it.
- `Publish` is one step; concurrent calls hold only a read lock in the source and could interleave more finely. The payload is the encoded text; encoding it is not modelled.
- `LoadDefaultCanvas` reads revision and edges in separate queries; no snapshot isolation against concurrent saves is claimed.
- Discovery: ARP and DHCP files, the proxy refresher, `TargetsFromCatalog`, the live catalog's node list and the demo catalog; catalogs are parameters.
- Reconnection and back-off of the watcher, whose in-memory state survives a reconnect as in the source; its startup state is that after the startup cleanup.
- Configuration from the environment, migrations, the front end, the LuCI view and the packaging.
