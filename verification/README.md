# Proofs about the stack's stateful scripts

These Dafny modules model the parts of the repository's Python scripts that keep state or transform data under rules
that must hold for every run, and prove those rules. Each module follows one script or one part of it; loops that update
variables are methods with loop invariants, objects and module-level dictionaries that methods change are classes, and
expressions are functions. The `*_laws` modules state what the specification functions mean.

- **Usage pipeline** (`capture`, `capture_laws`, `replay_laws`, `sanitizer`, `stored_captures`, `usage_store`,
  `usage_collector`, `usage_laws`, `ledger`, `ledger_laws`, `sampler`): the rate-limit event merger and what replaying a
  capture does, the sanitizer in front of it, the persisted window state and key registry over whole runs of collections,
  the ledger fold against a declarative ledger, and the one-probe-per-slot scheduler under crashes and clock rollback.
- **Adoption checks** (`interrupts`, `regex_subset`, `drift`, `drift_laws`, `drift_count`): the signal discipline around a
  probe's process group as a step system, the one-pass pattern scanner against a tokenise-then-check specification, and
  the recursive drift count against sets of paths and names.
- **Quota reader** (`app_server`, `app_server_laws`, `app_server_cuts`): a framed byte stream with bounds, where the bounds
  make chunk boundaries matter, and reply matching.
- **Model currency** (`wrapper_command`, `pointers`): the argv automaton against a grammar of wrapper invocations, and
  JSON pointers (RFC 6901) from emission to evaluation and back.
- **Decision index** (`identities`, `aliases`, `decisions`, `decisions_laws`, `refused_index`, with `sorting`): repository
  names, alias closure with exact cycle detection, and an order-independent union of sources.
- **Boot receipts** (`receipts`, `receipt_log`, `bracketing`): sequence numbers under concurrent writers, creation order,
  and what a row bracketed by two observations says.
- **Scan ranges** (`scan_range`): coverage of a commit graph by chains of pushes and by pull-request checkouts.
- **Handbook tool table** (`tool_table`, `tool_build`, `tool_build_laws`, `tool_merge`): a de-duplicating table built in
  place with two views, what the calls that fill it leave, and the merge of profile entries.

`wrappers`, `json`, `json_size`, `strings`, `decimal` and `ordering` hold what the others share.
`dafny verify dfyconfig.toml` checks the project.

Clocks, file contents, process fates, interleavings and what git, the JSON decoder, the YAML parser, hashing and URL
parsing answer are parameters of the model: each theorem holds whatever they are, under the conditions it names. JSON
arrives already decoded, with numbers kept exact; text arrives already split into lines or tokens.

## What the proofs found

Where a rule is false of the code, the code is kept as it is, a lemma gives the input, and another says exactly when the
rule holds.

- `load_state` and `load_sampler_state` refuse a file over 1 MiB, and `save_state` has no bound: a saved state is read back
  exactly when it is short enough, and one that is not ends every later run (`RunReadableExactlyWhen`,
  `OneLedgerEndsTheRun`, `Sampler.StateLoadsExactlyWhen`, `ManyAccountsEndTheRun`).
- An index that `build_index` writes is not always one that `validate_index` accepts: `identity` removes one `.git` of the
  name in a record's URL. Names such as `a/.git` are then refused and names such as `a/b.git` collide with `a/b`
  (`WrittenIndexValidatesExactlyWhen`, `WrittenIndexIsRefused`, `GitNameIsTaken`, `BareGitIsLost`).
- The comment in `collect` says an expired observation is not resurrected by replaying its capture. It is, when the
  capture itself gives no reset that has passed (`ReplayRevivesExactlyWhen`, `ReplayWithoutOwnResetRevives`).
- Reading the same capture twice can change a record, when an unscoped rejection leaves the verdict to a record that the
  first reading changed (`LineReplayChangesExactlyWhen`, `OneUndecidedChangesExactlyWhen`,
  `ReplayChangesExactlyWhen`, `FullReplayDiffers`, `PastResetReplayDiffers`).
- A recovery event older than the record erases a newer exhaustion (`StaleCaptureErasesExactlyWhen`,
  `StaleRecoveryErases`).
- Probe output within the sampler's 2 MiB can be stored as text over the 2 MiB that `collect` reads
  (`StoredCaptureCollects`, `ManyMarkersAreUnreadable`).
- A probe attempt stamped exactly zero is taken for no attempt (`ZeroClockProbesTwice`).
- A message whose line is over the limit by less than one read is returned or lost depending on where reads end
  (`CutsMatterExactlyBetween`).
- The pointer evaluator refuses the pointers of the whole document and of the single empty key, which RFC 6901 allows
  (`EmittedPointerResolves`).
- `load_state` lets an AttributeError out when `captures` is not an object; the model keeps it as its own outcome.
- A receipt number can repeat when a receipt is linked outside the lock (`OutsideTheLockNumbersRepeat`), and a name held by
  something that is no regular file defeats all sixteen attempts (`AloneWritesUnlessBlocked`).
- A file that appears only between the two observations gets an unmarked ok row without a fingerprint
  (`UnmarkedRowIsSoundExactlyWhen`, `AppearingFileIsMissed`).
- An empty fact in a later profile entry erases an earlier one without a conflict (`FactSurvivesExactlyWhen`,
  `EmptyFactErases`).

## Model

| member | source | states |
|---|---|---|
| `Capture.ParseCapture` | observability/claude_usage_metrics.py:59-149 | the nested loops over lines, windows and updates compute, per window, the fold of the one-line merge, plus the error and accepted-event counts, for every input text already split into lines |
| `Capture.MergeEvent` | observability/claude_usage_metrics.py:85-148 | one accepted event changes each window's record exactly as the per-window step does, whatever order the updates dictionary has |
| `Capture.ForceWindows` | observability/claude_usage_metrics.py:103-120 | an unscoped rejection forces exactly the windows nothing shows allowed, a scoped one exactly its own |
| `Capture.ApplyUpdate` | observability/claude_usage_metrics.py:121-148 | the field-by-field dictionary update leaves the record the specification gives, with its share of the error count |
| `CaptureLaws.FoldKeepsWellFormed` | observability/claude_usage_metrics.py:134-148 | utilization stays in [0,1], present exactly with `assumed` and only with `observed_at`; assumed means utilization one; a reset is present exactly with its time, through any capture |
| `CaptureLaws.TimesNeverDecrease` | observability/claude_usage_metrics.py:141-148 | observation and reset times never go back, move only to the capture's own stamp, and no record is dropped |
| `CaptureLaws.StaleCaptureWritesNothing` | observability/claude_usage_metrics.py:134-148 | a capture older than the record writes no measurement; at most it removes a utilization of exactly one |
| `CaptureLaws.StaleCaptureErasesExactlyWhen` | observability/claude_usage_metrics.py:121-140 | it removes that one exactly when some line names the window as allowed, gives it no measure, is no rejection scoped to it, and has an allowed event status or a child status, whatever the record and the stamps are |
| `CaptureLaws.StaleRecoveryErases` | observability/claude_usage_metrics.py:134-140 | that removal is real: a stale recovery erases a newer exhaustion (concrete capture) |
| `ReplayLaws.DecidedFold` | observability/claude_usage_metrics.py:59-149 | over captures in which no line leaves the verdict on the window to the record, two records with nothing newer agree on every part the capture sets, and keep their own on every part it does not |
| `ReplayLaws.AssumedExactlyWhen` | observability/claude_usage_metrics.py:98-143 | over any capture and any record with nothing newer, a window ends exhausted by assumption exactly when some line assumed it, or the record already held it so, and no later line measured it or showed it recovered |
| `ReplayLaws.ReplayIsIdempotent` | observability/claude_usage_metrics.py:59-149 | reading such a capture again changes nothing, unscoped rejections included |
| `ReplayLaws.LineReplayChangesExactlyWhen` | observability/claude_usage_metrics.py:98-148 | one line read twice over a record with nothing newer changes it exactly when it is an unscoped rejection that names the window without a status and without a utilization below one, the record is spare, and the child has a utilization or a reset that is not in the future |
| `ReplayLaws.ReplayChangesExactlyWhen` | observability/claude_usage_metrics.py:59-149 | any capture read twice changes the record exactly when its last undecided line meets a spare record on one reading only and nothing later hides it, or leaves another reset that no later line replaces |
| `ReplayLaws.OneUndecidedChangesExactlyWhen` | observability/claude_usage_metrics.py:59-149 | for captures with one line that leaves the verdict to the record, the same as a condition on the lines and the record before the first reading alone |
| `ReplayLaws.FullReplayDiffers` | observability/claude_usage_metrics.py:103-143 | a child measured full turns a measured window into an assumed one on replay (concrete line) |
| `ReplayLaws.PastResetReplayDiffers` | observability/claude_usage_metrics.py:103-148 | a child with only a past reset turns a half-used window into an assumed-exhausted one on replay (concrete line) |
| `Sanitizer.SanitizedEvents` | observability/claude_usage_sampler.py:79-116 | the loop stores exactly the cleaned lines, or refuses output over the size bound |
| `Sanitizer.SanitizingPreservesMeaning` | observability/claude_usage_sampler.py:79-116 | for every line sequence, stamp and prior record, the merge gives the same window records and the same accepted-event count on the stored text as on the raw text |
| `Sanitizer.AlikeEventsStepAlike` | observability/claude_usage_sampler.py:97-116 | the merge sees an event only through its status, scope and four facts per window, so any two events alike in those change a record alike |
| `Sanitizer.OnlyPublicDataIsStored` | observability/claude_usage_sampler.py:79-116 | whatever was printed, each stored line is the fixed marker or an event made of bounded statuses, numbers, known scopes and the two windows |
| `StoredCaptures.StoredCaptureCollects` | observability/claude_usage_metrics.py:308-332 | collecting a stored capture gives the windows the raw output gives when the stored text is within the 2 MiB that collect reads, and otherwise only expires them |
| `StoredCaptures.ManyMarkersAreUnreadable` | observability/claude_usage_sampler.py:79-94 | 209,716 blank or unparsable lines, each stored as a ten-byte line, are enough to make the stored text unreadable |
| `UsageStore.LoadState` | observability/claude_usage_metrics.py:215-252 | the size check, the shape checks and the loops over stamps and accounts accept exactly the files the specification accepts, with its value and its error, for every file content and length |
| `UsageStore.SaveState` | observability/claude_usage_metrics.py:255-266 | the saved text holds every window, index and stamp of the state and nothing else, and has the specified length |
| `UsageStore.SavedStateLoads` | observability/claude_usage_metrics.py:215-266 | load_state reads back exactly what save_state wrote when the file is at most 1 MiB, and refuses it otherwise, for every loadable state |
| `JsonSize.ObjectSizeIsTextLength` | observability/claude_usage_metrics.py:255-261 | the size counted for a saved object is the length of the text json.dump writes for it |
| `UsageStore.LoadedStateIsLoadable` | observability/claude_usage_metrics.py:215-252 | whatever load_state accepts satisfies the conditions under which a save loads again |
| `UsageCollector.CollectOne` | observability/claude_usage_metrics.py:308-335 | one account's merge, capture stamp and expiry loop give the specified state; other accounts are untouched |
| `UsageCollector.Register` | observability/claude_usage_metrics.py:365-371 | the loop that numbers new key hashes computes the specified registry |
| `UsageCollector.RegistrationLaws` | observability/claude_usage_metrics.py:365-371 | registration keeps every earlier index, stays injective, covers the new identities, and gives no index at or below any used before |
| `UsageCollector.MergeAll` | observability/claude_usage_metrics.py:303-371 | all accounts then all new keys are folded into the loaded state |
| `UsageCollector.Store.Collect` | observability/claude_usage_metrics.py:269-378 | a collection answers with its outcome and replaces the state file exactly when it is not refused |
| `UsageLaws.CollectionStaysReadable` | observability/claude_usage_metrics.py:215-378 | after one collection the file loads to what was saved, or to what it held before, or is refused, and that exactly when the saved state is over 1 MiB |
| `UsageLaws.RunReadableExactlyWhen` | observability/claude_usage_metrics.py:215-378 | the file after a run of collections from a readable one is readable exactly when no collection of the run saved a state over 1 MiB |
| `UsageLaws.RefusedForGood` | observability/claude_usage_metrics.py:215-378 | a file that is refused once is never replaced by any later collection |
| `UsageLaws.ManyKeysEndTheRun` | observability/claude_usage_metrics.py:219-266 | a collection whose ledger holds 13,618 keys or more is the last that is read, from any file, whatever its numbers print as and whatever follows |
| `UsageLaws.OneLedgerEndsTheRun` | observability/claude_usage_metrics.py:219-378 | with no file at all, one collection of such a ledger leaves a file every later collection refuses (concrete collection) |
| `UsageLaws.RegistryIsAppendOnly` | observability/claude_usage_metrics.py:365-371 | over any run, readable or not, the key registry in the file is injective, and no identity ever changes its index |
| `UsageLaws.AccountsAtWindow` | observability/claude_usage_metrics.py:308-332 | a window of an account that a collection does not name is unchanged; of a named one, its observation time does not go back |
| `UsageLaws.ObservationTimesNeverDecrease` | observability/claude_usage_metrics.py:141-143 | over any run, with any stamps, clocks and file lengths, observation times never go back and no window disappears |
| `UsageLaws.RunRecordsAreWellFormed` | observability/claude_usage_metrics.py:322-332 | from no file, or one with well-formed records, every record of every state any run saves keeps the record invariant, and right after a collection that saved no collected account stores a passed reset |
| `UsageLaws.PassedCaptureStaysDead` | observability/claude_usage_metrics.py:322-332 | a capture that carries its window's passed reset never revives a utilization on replay over a record with nothing newer |
| `UsageLaws.ReplayRevivesExactlyWhen` | observability/claude_usage_metrics.py:322-332 | for every capture, a replay over an expired record brings a utilization back exactly when the capture read alone measures the window and does not itself give it a reset that has passed |
| `UsageLaws.ReplayWithoutOwnResetRevives` | observability/claude_usage_metrics.py:322-332 | without a reset of its own a replayed capture does resurrect the utilization, against the comment at these lines (concrete run) |
| `Ledger.LedgerTotals` | observability/claude_usage_metrics.py:162-212 | totals are returned exactly when every row is valid, and then each key's column is its declarative spend, pending and uncertain: settlements go to the key of the latest earlier debit of the reference, else the row's own or the legacy key |
| `Ledger.AddRow` | observability/claude_usage_metrics.py:182-207 | one streamed row keeps the running columns, debit keys and open reservations equal to their definitions over the rows read so far |
| `Ledger.AddPending` | observability/claude_usage_metrics.py:208-209 | the closing loop gives every column the sum of its references' open reservations |
| `Ledger.PendingSnoc` | observability/claude_usage_metrics.py:193-207 | a row closes what its reference had open and a debit then opens its own amount |
| `LedgerLaws.TotalsAreConserved` | observability/claude_usage_metrics.py:162-212 | spend, uncertain and pending summed over all keys are the settled, unknown and open amounts of the rows: attribution loses nothing |
| `LedgerLaws.UncertainWithinSpend` | observability/claude_usage_metrics.py:203-206 | with non-negative settlements a key's uncertain part never exceeds its spend |
| `LedgerLaws.SwappingIndependentRows` | observability/claude_usage_metrics.py:182-209 | swapping two neighbouring rows with different references changes no validity and no total |
| `Sampler.SamplerState.Sample` | observability/claude_usage_sampler.py:158-214 | one locked pass changes the file and the launches as specified, for every clock and every point at which it may stop |
| `Sampler.SamplerState.Iterate` | observability/claude_usage_sampler.py:180-211 | one account: index, cadence test, save before launch, save after |
| `Sampler.SamplerState.Probe` | observability/claude_usage_sampler.py:192-211 | a due account: the attempt is saved before the launch and the result after it, with the length of each saved file |
| `Sampler.AtMostOneProbePerSlot` | observability/claude_usage_sampler.py:188-211 | over every run from no file or any accepted one, with crashes anywhere, repeated passes and clock rollback, an identity is launched at most once per 900-second slot and its slots strictly increase, counting the attempts the file recorded |
| `Sampler.ZeroClockProbesTwice` | observability/claude_usage_sampler.py:191-193 | the one exception is real: an attempt stamped exactly zero looks like no attempt |
| `Sampler.IndexesNeverMove` | observability/claude_usage_sampler.py:176-186 | over such a run the saved account registry only grows and no account's index changes, between any two points |
| `Sampler.IndexesIdentifyAccounts` | observability/claude_usage_sampler.py:176-187 | two launches use the same capture index exactly when they are for the same identity |
| `Sampler.StateLoadsExactlyWhen` | observability/claude_usage_sampler.py:132-155 | the file any such run leaves is accepted by load_sampler_state exactly when it is at most 1 MiB and no attempt in it is stamped below zero |
| `Sampler.StampsStayNonNegative` | observability/claude_usage_sampler.py:181-192 | no attempt ever is, while the clock does not read below zero |
| `Sampler.RefusedForGood` | observability/claude_usage_sampler.py:136-178 | once the file is refused, every later pass leaves it and launches nothing |
| `Sampler.ManyAccountsEndTheRun` | observability/claude_usage_sampler.py:136-186 | identities are never removed, so a run that has saved a file with 8,739 of them does nothing any more |
| `Interrupts.HeldInterrupts.InterruptProbe` | scripts/adoption_status.py:1721-1728 | the handler keeps the first signal during a hold and raises otherwise |
| `Interrupts.HeldInterrupts.EnterHold` | scripts/adoption_status.py:1731-1741 | entering a hold clears what an earlier one left; inside another hold nothing changes |
| `Interrupts.HeldInterrupts.LeaveHold` | scripts/adoption_status.py:1740-1746 | leaving the outer hold raises the kept signal and clears it |
| `Interrupts.HeldInterrupts.EnterRelease` | scripts/adoption_status.py:1750-1763 | a release raises what was held back, and the hold then resumes |
| `Interrupts.HeldInterrupts.LeaveRelease` | scripts/adoption_status.py:1763-1764 | the hold resumes however the released block ends |
| `Interrupts.RunKeepsInvariant` | scripts/adoption_status.py:1670-1764 | the protocol invariant holds in every state reached by signals arriving between any two statements |
| `Interrupts.NoExitLeavesTheGroup` | scripts/adoption_status.py:1684-1704 | the probe is left, by return or raise, only once the group of a process it created is killed and reaped |
| `Interrupts.CreatedMeansKillAhead` | scripts/adoption_status.py:1684-1704 | while a created group has not been killed no step leaves the probe |
| `Interrupts.NothingRaisedWhileHolding` | scripts/adoption_status.py:1721-1746 | an arrival inside an unreleased hold changes only what is held back |
| `Interrupts.OutermostHoldAnswersEverySignal` | scripts/adoption_status.py:1731-1746 | a probe in its own hold ends by raising exactly when a signal arrived for it |
| `Interrupts.NestedHoldPassesSignalsOn` | scripts/adoption_status.py:1735-1737 | a hold inside another leaves its signals to the outer one |
| `Interrupts.NoSignalIsLost` | scripts/adoption_status.py:1713-1764 | the first signal of the hold is either being raised or pending, at every step |
| `Interrupts.SignalsCannotDelayTheEnd` | scripts/adoption_status.py:1670-1706 | after ten of its own steps the probe is over, whatever arrives |
| `RegexSubset.SharedRegexSubset` | scripts/adoption_status.py:556-633 | the one-pass scan with index, depth, class count and previous kind answers as tokenising the pattern and checking the tokens, on every pattern |
| `RegexSubset.ScanToken` | scripts/adoption_status.py:568-632 | one turn of the loop reads exactly the next token and rejects exactly what the token check rejects |
| `RegexSubset.ReadClass` | scripts/adoption_status.py:581-611 | the inner loop finds the end of a bracketed class, its shared escapes, or why it is refused |
| `RegexSubset.SummaryDecides` | scripts/adoption_status.py:616-631 | the four-valued summary of what came before decides exactly whether one more token keeps all tokens acceptable |
| `RegexSubset.TokensPartition` | scripts/adoption_status.py:568-632 | the tokens of a complete scan, joined, are the pattern |
| `RegexSubset.AcceptedPatterns` | scripts/adoption_status.py:556-633 | an accepted complete pattern is made of well-shaped tokens only: no brace outside a class or escape, no group but ( and (?:, no repetition of an assertion or of a repetition, nesting and classes within bounds |
| `Drift.Walk.Visit` | scripts/adoption_status.py:1184-1233 | the recursive walk is known exactly when nothing at or below stops it and the entries fit, and then its counters have taken in every entry below |
| `Drift.Walk.VisitEntry` | scripts/adoption_status.py:1192-1232 | one entry updates the nonlocal counters as specified or raises Unknown |
| `DriftLaws.LoadedCountIsPaths` | scripts/adoption_status.py:1196-1230 | the count of unshipped definitions is the number of distinct paths that lead through folders to a loadable unshipped .md |
| `DriftLaws.TallyAtTop` | scripts/adoption_status.py:1192-1230 | the counters at the end are that count plus the stale copies, the copied names and the vendor data |
| `DriftLaws.DifferingCounts` | scripts/adoption_status.py:1217-1222 | stale copies plus missing ones are exactly the shipped definitions without a byte-identical regular copy at the top, each once |
| `DriftCount.VendorDriftIs` | scripts/adoption_status.py:1236-1242 | the vendor files that take a shipped name are counted, or nothing is known when the parser is unavailable or throws on a definition that matters |
| `DriftCount.AgentDriftBelow` | scripts/adoption_status.py:1177-1243 | the result is differing shipped definitions plus unshipped ones plus clashing vendor files, and unknown exactly when something stops the walk, there is too much, or a name cannot be told |
| `DriftCount.StackAgentsDrift` | scripts/adoption_status.py:1246-1298 | the same with the source folder read, absent folders counting every source file, and the remaining unknown cases |
| `DriftCount.ZeroExactlyWhenNothingDiffers` | scripts/adoption_status.py:1246-1265 | the count is zero exactly when every shipped definition is identical at the top, no path leads to an unshipped one, and no vendor file takes a shipped name |
| `AppServer.Server.Message` | scripts/codex_quota.py:172-199 | the framing loop returns what the stream specification reads, never holding more than one line and one read in the buffer |
| `AppServer.Server.Request` | scripts/codex_quota.py:201-224 | the reply loop gives the specified outcome and writes exactly what the specification writes |
| `AppServerLaws.ReadDependsOnBytes` | scripts/codex_quota.py:172-199 | within the limits a read returns the first message of the bytes and leaves the rest; chunk boundaries do not appear |
| `AppServerLaws.ReadIsAlwaysSound` | scripts/codex_quota.py:172-199 | without assuming the limits, a returned message is still the first of the bytes, and a limit is reported only when the bytes break one |
| `AppServerLaws.MessagesDependOnBytes` | scripts/codex_quota.py:172-199 | two streams with the same bytes, cut differently, give the same messages for ever |
| `AppServerCuts.RefusedExactlyWhen` | scripts/codex_quota.py:172-199 | in any stream within the total, the next message is refused exactly when some read ends inside its line with more than the line limit in the buffer; otherwise it is returned and only what follows it is left |
| `AppServerCuts.CutsMatterExactlyBetween` | scripts/codex_quota.py:184-199 | over all ways to cut the same bytes into reads: a line within the limit is always read, a line at least one read longer is always refused, and for every length in between one cut returns the message and another loses it |
| `AppServerLaws.RequestAnswersTheFirstMatch` | scripts/codex_quota.py:201-224 | a request ends on the first message that carries its id and is no request itself, after exactly one reply per earlier server request, in order |
| `AppServerLaws.ExchangeDependsOnBytes` | scripts/codex_quota.py:201-224 | the outcome of a request and everything it writes depend on the bytes alone |
| `WrapperCommand.NativeShortFlag` | scripts/active_model_currency.py:315-419 | the index-advancing automaton terminates on every token list and answers as its suffix specification, for any wrapper tables |
| `WrapperCommand.DeclaredShortFlag` | scripts/active_model_currency.py:315-419 | with the declared tables it answers true exactly when the tokens are the yield of a chain of wrappers ending with codex in executable position |
| `WrapperCommand.SkipOptions` | scripts/active_model_currency.py:352-386 | the option loop stops after the wrapper's options, or refuses an unknown one or a missing value |
| `WrapperCommand.HcomLaunch` | scripts/active_model_currency.py:387-407 | hcom runs codex exactly when an optional count, codex and launcher flags with all their values follow |
| `WrapperCommand.SkipOperand` | scripts/active_model_currency.py:408-418 | env assignments, timeout's duration, flock's operand and rtk proxy are consumed before the command |
| `WrapperCommand.AcceptsExactlyTheChains` | scripts/active_model_currency.py:315-419 | soundness and completeness of the automaton against an explicit grammar of wrapper invocations |
| `WrapperCommand.ExecutableIsCodex` | scripts/active_model_currency.py:342-351 | in every accepted chain the token at the executable position names codex and everything before it is an assignment, program, option, value, terminator or operand |
| `WrapperCommand.OperandsAreNotCommands` | scripts/active_model_currency.py:415-416 | a codex that is flock's operand is not a command |
| `Pointers.Pointer` | scripts/catalog_decisions.py:94-108 | the evaluator loop walks the document by the decoded tokens and refuses exactly the malformed or missing ones |
| `Pointers.DecodeEncode` | scripts/active_model_currency.py:477-479 | decoding an encoded key gives it back, whatever ~ and / it holds (section 4 of RFC 6901) |
| `Pointers.EncodeDecode` | scripts/catalog_decisions.py:100-101 | a well-escaped token is the encoding of what it decodes to, so encodings are unique |
| `Pointers.EmittedPointerResolves` | scripts/active_model_currency.py:464-479 | evaluating the pointer emitted for a located value returns that value, for every document and path, except exactly the empty path and the single empty key |
| `Pointers.AcceptedPointerIsEmitted` | scripts/catalog_decisions.py:94-108 | conversely every pointer the evaluator accepts is the emitted pointer of a path to the value it returns |
| `Pointers.CollectionEntryResolves` | scripts/catalog_decisions.py:196-211 | collection/number resolves to the number-th entry of the collection |
| `Aliases.Canonical` | scripts/catalog_decisions.py:145-151 | following aliases ends on every map: at the settled name, or with a cycle reported exactly when the name never settles |
| `Aliases.ReturningNeverSettles` | scripts/catalog_decisions.py:145-151 | coming back to a name already passed means no number of hops ever leaves the aliases |
| `Aliases.CanonicalIsFixpoint` | scripts/catalog_decisions.py:145-151 | a canonical name is no alias and is its own canonical name |
| `Aliases.AliasSharesCanonical` | scripts/catalog_decisions.py:145-151 | an alias and its target have the same canonical name or both run into a cycle |
| `Aliases.AliasesFor` | scripts/catalog_decisions.py:132-142 | the alias table is returned exactly when no origin repeats or names itself and no name is on a cycle |
| `Decisions.CheckedSources` | scripts/catalog_decisions.py:158-181 | the loop accepts exactly the descriptor lists that are well formed, distinct, contain the base sources unchanged and register an existing star catalogue, and sorts them |
| `Decisions.BuildIndex` | scripts/catalog_decisions.py:184-234 | the loops over sources, entries, records and aliases build the specified index or refuse |
| `Decisions.ReadSources` | scripts/catalog_decisions.py:191-214 | the outer loop's records dictionary holds exactly one draft per name with the references placed so far |
| `DecisionsLaws.IndexForgetsSourceOrder` | scripts/catalog_decisions.py:184-234 | the index, or its refusal, is the same for every ordering of the registered sources |
| `DecisionsLaws.EveryEntryExactlyOnce` | scripts/catalog_decisions.py:191-234 | every entry of every source appears exactly once, in the record of its canonical name and in no other; references are distinct, resolve to their entries, and their count is the sum of the collection lengths |
| `DecisionsLaws.ReferenceDetermines` | scripts/catalog_decisions.py:200-211 | path and pointer of a reference determine the source and the entry |
| `DecisionsLaws.RecordNamesAreCanonical` | scripts/catalog_decisions.py:201-204 | no record is filed under an alias |
| `DecisionsLaws.RebuildingIsStable` | scripts/catalog_decisions.py:237-255 | rebuilding from a built index's own sources gives the same index |
| `DecisionsLaws.WrittenIndexValidatesExactlyWhen` | scripts/catalog_decisions.py:237-255 | an index just built, with the manifest counts that go with it, passes validate_index exactly when every record name with one more .git removed is still a name and these are distinct |
| `DecisionsLaws.LostNameIsRefused` | scripts/catalog_decisions.py:184-255 | over any root, an index is refused as soon as one entry of its sources has a name whose URL identifies nothing |
| `RefusedIndex.BaseIsChecked` | scripts/catalog_decisions.py:45-57 | checked_sources accepts the program's nine base descriptors as they are |
| `RefusedIndex.WrittenIndexIsRefused` | scripts/catalog_decisions.py:45-255 | from the program's own nine sources, with no alias and every collection empty but for one entry that records owner/.git.git, an index is written that does not pass |
| `Identities.UrlOfNameIdentifies` | scripts/catalog_decisions.py:111-129 | for every recorded name, identity on the URL its record carries gives the name with one more .git removed, or nothing when that is no name |
| `Identities.GitNameIsTaken` | scripts/catalog_decisions.py:126-129 | every name with .git behind it can be recorded, and its URL identifies the name without |
| `Identities.CapitalGitIsKept` | scripts/catalog_decisions.py:126 | a suffix .GIT is lowered after the removal and so stays in the recorded name |
| `Identities.BareGitIsLost` | scripts/catalog_decisions.py:126-129 | a repository called .git can be recorded, and its URL identifies nothing |
| `DecisionsLaws.OnlyCurrentIndexesValidate` | scripts/catalog_decisions.py:237-255 | an index that validates is exactly what its own sources build now, in any order, with those manifest counts |
| `Receipts.SequenceOfReadsTheName` | scripts/credential_boot_receipt.py:219-221 | for every name: sequence_of gives a number exactly when the name is at least eight digits, a dash and a receipt stem, and the digits say that number |
| `Receipts.NumberRoundTrips` | scripts/credential_boot_receipt.py:219-263 | printing a sequence number into a name and parsing it back is the identity, past eight digits too |
| `Receipts.OrderIsUnique` | scripts/credential_boot_receipt.py:224-228 | creation order is total and strict: one arrangement of a set of names |
| `Receipts.AnyListing` | scripts/credential_boot_receipt.py:231-241 | the sorted receipt names do not depend on the order the directory is listed in |
| `Receipts.NextIsTheLeastAbove` | scripts/credential_boot_receipt.py:244-245 | the next number is the least above every receipt in the directory |
| `Receipts.NewestGoesLast` | scripts/credential_boot_receipt.py:224-241 | a receipt numbered above all others sorts last, whatever its stamp |
| `Receipts.Directory.WriteReceipt` | scripts/credential_boot_receipt.py:248-271 | the retry loop links the name of the first attempt that finds it free, with others linking in between, and is refused when all sixteen find it taken |
| `Receipts.Directory.Link` | scripts/credential_boot_receipt.py:264-267 | a link never replaces a name |
| `Receipts.WritingReplacesNothing` | scripts/credential_boot_receipt.py:248-274 | whatever others link meanwhile, no entry is replaced and a returned receipt is new, holds its text and is numbered above all that were there |
| `Receipts.AloneWritesUnlessBlocked` | scripts/credential_boot_receipt.py:248-271 | left alone a writer succeeds exactly when nothing but a regular file could hold its name; otherwise every retry meets the same obstacle and nothing changes |
| `ReceiptLog.NothingIsEverReplaced` | scripts/credential_boot_receipt.py:248-274 | in every interleaving of writers, kills and outside processes no file but a dot-file is replaced or removed |
| `ReceiptLog.RunIsSafe` | scripts/credential_boot_receipt.py:248-274 | at most one writer is inside the lock, linked names are distinct and hold their writers' texts |
| `ReceiptLog.CreationOrderIsLinkOrder` | scripts/credential_boot_receipt.py:224-274 | under every interleaving of locked writers the receipts in creation order are the old ones followed by the new ones in link order, each numbered above all earlier, and a writer is refused only when a non-regular file holds its name |
| `ReceiptLog.NumberStaysAboveExactlyWhen` | scripts/credential_boot_receipt.py:259-268 | a number chosen in one listing is above all receipts at link time exactly when no receipt that appeared in between reaches it |
| `ReceiptLog.OutsideTheLockNumbersRepeat` | scripts/credential_boot_receipt.py:248-254 | a writer outside the lock can cause a repeated number under two names (concrete interleaving) |
| `Bracketing.BuildReceipt` | scripts/credential_boot_receipt.py:145-178 | the row loop records each file's state, fingerprint and change mark, and the result is unsafe, changed or ok exactly by the scan and the marks |
| `Bracketing.SameIdentityIsStill` | scripts/credential_boot_receipt.py:119-162 | if every change gives the path an identity it never had before, equal identities at two moments mean nothing changed between them |
| `Bracketing.UnmarkedFingerprintIsOneVersion` | scripts/credential_boot_receipt.py:119-162 | then an unmarked row with a fingerprint describes one version that was in place from first to last observation |
| `Bracketing.UnmarkedRowIsSoundExactlyWhen` | scripts/credential_boot_receipt.py:146-162 | an unmarked row describes one version exactly when it has a fingerprint or its own state says the scan met no file |
| `Bracketing.AppearingFileIsMissed` | scripts/credential_boot_receipt.py:159-162 | a file absent, present, absent leaves an unmarked ok row without fingerprint (concrete history) |
| `Bracketing.OkFingerprintIsPrivate` | scripts/credential_status.py:286-292 | an ok row with a fingerprint of a private file records mode 0600: it is the fingerprint of the file the scan approved |
| `Bracketing.CompareReceipts` | scripts/credential_boot_receipt.py:385-422 | the loop over both receipts' rows lists the regressed ids in the older receipt's order |
| `Bracketing.RegressionsAreExact` | scripts/credential_boot_receipt.py:379-410 | an id regresses exactly when its gated file row was ok and now has no row or is not ok |
| `Bracketing.NoRegressionMeansInPlace` | scripts/credential_boot_receipt.py:379-410 | when nothing regressed, every gated ok file was met by the newer scan, and with a fingerprint it was unchanged throughout that record |
| `Bracketing.ChangedIsARegression` | scripts/credential_boot_receipt.py:159-161 | a file that changed while recorded, or is missing, is a regression of a gated row that was ok |
| `ScanRange.AcceptedScanVisitsHead` | scripts/ci_secret_scan_range.py:128-144 | every accepted scan ends at the checked-out commit and visits it; a range starts at another commit, an ancestor |
| `ScanRange.FullScanExactlyWhenAuthorized` | scripts/ci_secret_scan_range.py:117-121 | the whole ancestry of HEAD is scanned exactly for dispatched or scheduled runs with both authorizations, and then completely |
| `ScanRange.PushAcceptedExactlyWhen` | scripts/ci_secret_scan_range.py:91-116 | a push whose after is HEAD is scanned exactly when its before is a known, different, ancestor commit |
| `ScanRange.ChainCoverage` | scripts/ci_secret_scan_range.py:91-132 | over any chain of accepted pushes, with a growing repository, the scans together visit exactly the commits reachable from the last head and not from the first boundary |
| `ScanRange.ChainScansOnce` | scripts/ci_secret_scan_range.py:91-132 | no commit is scanned by two pushes of a chain |
| `ScanRange.HeadRangeCoversThePull` | scripts/ci_secret_scan_range.py:76-79 | a head checkout's range contains every commit reachable from the head and not from the base, and nothing reachable from the base exactly when the merge base taken is the only best common ancestor |
| `ScanRange.MergeRangeIsThePull` | scripts/ci_secret_scan_range.py:80-89 | a merge checkout's range is the merge commit plus the PR commits not reachable from its first parent |
| `ScanRange.MergeRangeMissesOnlyTheBaseLine` | scripts/ci_secret_scan_range.py:80-89 | a PR commit not reachable from the payload base escapes only when the merge was made on a newer base that already contains it |
| `ScanRange.AncestryIsStable` | scripts/ci_secret_scan_range.py:54-61 | fetching more objects changes no ancestry of known commits |
| `ToolTable.Table.AddTool` | scripts/build_new_wsl_handbook.py:834-888 | a refused call changes nothing and names the first requirement it breaks; any other leaves the specified table, and the table invariant is kept |
| `ToolTable.Table.constructor` | scripts/build_new_wsl_handbook.py:830-832 | the table starts empty with a list for every reference layer |
| `ToolTable.Table.Touch` | scripts/build_new_wsl_handbook.py:862-888 | the in-place part of add_tool keeps the two views, the id lists and the tool order in step |
| `ToolTable.ViewsStayAgreed` | scripts/build_new_wsl_handbook.py:876-879 | with injective ids, a tool id stays in a layer's list exactly when that layer is in the tool's used_by |
| `ToolTable.ListedIdNamesOneTool` | scripts/build_new_wsl_handbook.py:859-879 | an id listed for a layer belongs to exactly one tool, which that layer uses |
| `ToolTable.AddedGains` | scripts/build_new_wsl_handbook.py:862-888 | one call adds exactly its selection source and its profile entry to what all tools hold together |
| `ToolBuild.BuildTools` | scripts/build_new_wsl_handbook.py:815-920 | the build is refused with the first requirement that fails, in the order entries, rows with their choices, remaining entries; otherwise the table is what the calls of the rows and of the entries no choice consumed, in order, make of the empty one |
| `ToolBuild.GatherPackages` | scripts/build_new_wsl_handbook.py:824-829 | packages by owner and repository are collected once each |
| `ToolBuildLaws.SourcesAreExact` | scripts/build_new_wsl_handbook.py:906-920 | each choice that stands leaves exactly one source, each profile entry no standing choice names leaves one of its own, and there are no others |
| `ToolBuildLaws.EntriesAreKept` | scripts/build_new_wsl_handbook.py:815-920 | the tools together hold the profile's entries, each as often as the profile does, and nothing else |
| `ToolBuildLaws.EveryEntryReachesOneTool` | scripts/build_new_wsl_handbook.py:815-933 | every profile entry ends in exactly one tool, once, and every blocking gap it supplies is published there |
| `ToolMerge.MergeTools` | scripts/build_new_wsl_handbook.py:921-942 | tools are published exactly when no facts conflict and no value raises, each with its merged facts and gaps |
| `ToolMerge.SuppliedGapsSurvive` | scripts/build_new_wsl_handbook.py:927-933 | every blocking gap any matched entry supplies is published: no user of a shared tool clears another's |
| `ToolMerge.UnblockedExactlyWhen` | scripts/build_new_wsl_handbook.py:284-314 | a tool is published without a gap exactly when no entry supplies one, all merged facts are complete, its package is bound or none is known, and it has a repository |
| `ToolMerge.FactSurvivesExactlyWhen` | scripts/build_new_wsl_handbook.py:924-927 | a supplied fact is published, whatever the order of non-conflicting entries, exactly when no empty value follows the last supplied one |
| `ToolMerge.EmptyFactErases` | scripts/build_new_wsl_handbook.py:924-927 | an empty pin in a later entry erases an earlier one without a conflict (concrete entries) |

## Left out

- Metric exposition, gauges and the per-account success and failure reports of `collect`: they read the modelled state and
  write text.
- Binary floating point: money, utilizations and times are exact reals, so rounding and overflow of sums are not modelled;
  a JSON number without a finite value is kept as its own case.
- Ledger.LedgerTotals: does not refuse totals that are no finite float, because amounts are exact reals.
- How a number prints: a saved file's length counts every character but the digits of its numbers, whose total is a
  parameter of each save. A capture file or ledger over its read bound is an input that could not be read.
- Decoding of JSON, UTF-8, YAML and shell words, and hashing: inputs are decoded values, lines or tokens, and digests are
  a function parameter, assumed injective only where a lemma says so.
- `urlsplit`, `str.lower` and `str.isspace` in `identity`: function parameters, assumed to treat printable ASCII and plain
  paths of github.com as Python does where a lemma says so. The union laws take `identity` itself as a parameter.
- `safe_file` and the type checks of source descriptors: descriptors arrive as records of text naming existing files.
- `accounts_from_file`, `check_fence` and `publish_capture` of the sampler, and the collection that ends a pass.
- The checks of a single record inside `load_state` and of a single descriptor inside `checked_sources` are predicates; the
  loops around them are loops.
- Digits, spaces and word characters beyond ASCII: the recogniser takes Python's character classes as parameters; receipt
  names, account indexes, version-print commands and the lower-casing of pins and commit names are ASCII.
- A checksum value that is a 64-digit JSON number, which the source turns to text first, counts as no digest.
- The thread test of `held_interrupts` and `interrupts_released`: the model is the main thread. Entering and leaving a
  context manager is one step; two signals inside one entry or exit are outside the model.
- What happens between an entry's listing and its opening in the drift walk beyond its vanishing: the tree is fixed for
  one walk. The decision whether a definition has front matter, and the name it declares, are parameters.
- The rest of `command_identifiers` (finding the command inside a text) and the lexical positions of `selectors`.
- Printed lines of `compare`, receipt fields other than rows and result, `private_directory` and removal of receipts: the
  step system removes only dot-files.
- `inspect_entry`'s directory and git findings are a parameter of a row; its store-line check is off in boot receipts.
- The computation of superseded picks, `profile_package`'s URL syntax, the reuse table and the provisioning fields of the
  handbook: parameters or not carried by the merge. Verdicts, layers and finality are not modelled.
- Dashboards, rendering, argument parsing, installers and schema validators: they would add only easy members.
