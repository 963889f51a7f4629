# Antitimely: a verified model of attribution, ticking and billing

Antitimely is a time tracker. A daemon polls the machine every few seconds, turns what it sees
into *ticks* credited to projects, and later prices those ticks on numbered invoices. This
project models, in Dafny, the code that decides **which seconds are credited to which project,
and what a client is charged**, and proves what that code keeps over every input, every run and
every interleaving.

Four cores, in the order in which a second travels through them:

1. **Attribution.** `Paths`, `Globs`, `CwdPattern` and `Rules` model rule matching twice: the live
   matcher (a sort, `path.Match`, a walk over ancestor directories) and the retroactive SQL sweep (one
   `CASE`/`GLOB` expression), the two glob languages in full, classes included. Both get a closed form on every input, from which follows where they
   agree and exactly where they do not; `Retagging` sets the sweep against what the daemon would
   have credited. `Herdr` is the resolver that maps panes and sessions to workspaces.
2. **The tick.** `Pipeline` is one poll of the daemon: pausing, arming, auto-disarm,
   suppression, and a start-of-tick snapshot that goes stale during the tick. `PipelineRuns`
   proves what one poll can do to one project, `TickRecords` what it leaves in the tables, with a
   project or without, `TickInterference` what handlers can do to a poll
   under way, and `DaemonRuns` what whole runs of polls, with reloads and handlers in between, can
   and cannot do. `SnapshotCache` is the lock-free cache, one operation at a time and then as load /
   build / compare-and-swap steps of any number of threads; `CacheRuns` adds the database column
   and the counters beside it. `Agents` and `AgentRuns` are the CPU-hysteresis classifier and the
   per-process classification cache, for PIDs that pass from process to process.
3. **Log ingestion.** `Codex` proves that tailing a growing file in arbitrary pieces equals
   parsing it whole, also when the file was stale or has shrunk in between. `TranscriptImport` lays a tick grid over old transcripts next to the grid
   that is already there.
4. **The ledger.** `LineItem`, `InvoiceFormat` and `Credit` are the arithmetic and the printing;
   `Ledger` is the issuing service with failures and crashes at every stage; `LedgerRuns`,
   `LedgerRows`, `LedgerReference` and `LedgerPeriods` prove gapless numbers, solvent balances, what
   every row charges and for which request, the advance named on a document and an account of every
   billed second, over every interleaving of requests.

Code that updates fields in place (the cache, the pipeline, the collectors, the resolver, the
importer, the invoice service) is a class whose methods are proved equal to a step function on
its abstract state; the theorems are about runs of those step functions. Database tables are
maps, sets and sequences keyed as in `schema.sql`; a transaction is a private copy that is
dropped unless it commits; which statements fail, and where a request stops or the daemon
crashes, are parameters, so each theorem holds for every combination of failures.

`dafny verify dfyconfig.toml` checks the project.

## Where the code and its comments differ

The model follows the code.

- `internal/domain/match.go:99-102` says that with the star final the two matchers agree. Their
  closed forms differ in four ways (`CwdPattern.CwdParity`). A `?` stands for a slash in SQL only
  (`CwdPattern.ParityOnPlainParents`). A backslash quotes in the live matcher only, and every glob
  with one and no class splits the two (`CwdPattern.BackslashDiverges`). Classes are read
  differently (`CwdPattern.ClassesDiverge`). And the live walk cleans parents: an absolute directory is safe for all other patterns iff what precedes its last slash is already
  clean (`CwdPattern.DirectoryIsSafeIff`), which `decodeProjectDir`
  (`internal/daemon/transcript.go:21`) does not ensure.
- `internal/domain/match.go:18` calls the live matcher the equivalent of the sweep. The sweep
  reaches titles in another case or by a wildcard (`Rules.LikeIsOccurrence`), and it looks at
  neither the other rules, nor the ignored observations, nor pauses (`Retagging.SweepIsLiveCreditIff`).
- `internal/daemon/codex.go:175-176` consumes whole lines so that nothing is lost. When the last
  command's directory decodes to the empty string, one parse of the whole file forgets the
  command before it and tailing remembers it; that is the only difference
  (`Codex.AgreementIffNotForgotten`).
- `internal/daemon/transcript_import.go:65-72` is meant to make an import re-runnable. It is,
  unless a row of the observation is held by another project; such a slot may be counted as
  inserted on every run (`TranscriptImport.SecondRunSilent`, `TranscriptImport.TakenRowIsCountedAgain`).
- `internal/daemon/cache.go:125-126` starts a fresh arming episode from zero. The suppressed
  counters are zeroed, the auto-disarm streak is not, so the episode gets its N counted polls iff the
  streak was zero (`DaemonRuns.ResumeAllKeepsStreak`, `DaemonRuns.StreakSurvivesResume`).
- `internal/daemon/cache.go:125-131` and `148-151` start the suppressed counters of a new arming from
  zero. Handlers arm beside the polling goroutine (`internal/daemon/rpc.go:468`, `566` and `622`), and
  the clearing comes after the swap: a tick suppressed in between is not counted
  (`CacheRuns.CounterShowsAllIff`, `CacheRuns.ArmDropsCount`).
- `internal/daemon/rpc_invoice.go:274-289` serialises the credit with the insert. The anchor and the
  tick count are read before the transaction, so of two overlapping generates of one company the later
  bills again what it worked before the earlier one's anchor (`LedgerPeriods.TicksAccountedFor`,
  `LedgerPeriods.OverlapBillsTwice`).
- `internal/invoice/invoice.go:32-34` names a missing bank account as the only error. The code
  also rejects negative or excessive discounts and credits, and so does `Credit.BuildDoc`.

## Model

| member | source | states |
|---|---|---|
| `Paths.DirDescends` | internal/domain/match.go:71-80 | going to the parent directory reaches a fixed point or strictly decreases a rank, for every string, so the ancestor walk ends |
| `Paths.DirOfTidy` | internal/domain/match.go:75 | every clean path, relative ones with leading `..` included, has as parent the plain prefix before its last slash; the parent of any string is clean |
| `Paths.CleanKeepsMeaning` | internal/domain/match.go:75 | cleaning keeps the path: leaving out a segment with the `..` after it, a `.` or a doubled slash anywhere changes nothing, nor does a `..` at the root |
| `CwdPattern.MatchesCwd` | internal/domain/match.go:63-81 | the loop terminates and decides: literal pattern equal or a true subdirectory, glob matching the directory or one of its ancestors |
| `CwdPattern.LiteralIsAncestor` | internal/domain/match.go:68-70 | a literal pattern accepts a clean path, live and in SQL, iff it is that path or one of the directories above it |
| `CwdPattern.EmptyPatternAcceptsNothing` | internal/domain/match.go:64-67 | a pattern of nothing but slashes accepts no directory, live or in SQL |
| `CwdPattern.ValidateCwdPattern` | internal/domain/match.go:103-115 | accepts iff the trimmed pattern holds a slash and has no star but possibly its last character |
| `Globs.LiveStarFinal` | internal/domain/match.go:71-74 | what a pattern whose star is last means to path.Match: a token a character, quotes and classes read its way, `?` no slash, then nothing, or after an open star nothing with a slash; nothing at all when it is malformed |
| `Globs.SqlStarFinal` | queries.sql:129-130 | what it means to GLOB: a token a character, backslashes as they stand, classes read its way, then anything after the star |
| `Globs.GlobMore` | queries.sql:129-130 | the second alternative of the sweep, the pattern with `/*` after it, accepts nothing more |
| `CwdPattern.WalkOnTidy` | internal/domain/match.go:71-80 | on a clean path the walk finds a match iff the live reading of the pattern fits the start of the path: the walk reproduces GLOB's reach across slashes |
| `CwdPattern.WalkAnywhere` | internal/domain/match.go:71-80 | on any string it finds one iff the pattern accepts the string itself or reaches into the cleaned parent |
| `CwdPattern.CwdParity` | queries.sql:127-132 | both matchers in closed form for every pattern a rule may hold and every string; literal patterns agree |
| `CwdPattern.ParityOnPlainParents` | internal/domain/match.go:97-102 | where everything before the last slash is clean, a glob without backslashes and classes is accepted live iff the SQL accepts it and no `?` stands over a slash |
| `CwdPattern.CwdParityPlain` | internal/domain/match.go:99-102 | with no `?` either, the two are equivalent |
| `CwdPattern.QuestionMarkDiverges` | internal/domain/match.go:111-113 | a validated pattern with `?` and a clean directory which the SQL accepts and the live matcher does not |
| `CwdPattern.BackslashDiverges` | internal/domain/match.go:111-113 | every validated glob with a backslash and no class accepts live the path it spells with its quotes off, which the SQL rejects |
| `CwdPattern.ClassesDiverge` | internal/domain/match.go:111-113 | a validated glob whose class opens with a closing bracket: the SQL reads it as a member and accepts, the live matcher accepts no directory at all |
| `CwdPattern.DirectoryIsSafeIff` | internal/domain/match.go:75 | an absolute directory without special characters gets the same answers for all such patterns iff everything before its last slash is clean |
| `Rules.SortRules` | internal/domain/match.go:20-27 | a permutation of the rules in which none comes after a rule it precedes in (priority, id) |
| `Rules.MatchRules` | internal/domain/match.go:19-36 | returns the project of the first matching rule of the sorted copy, or nothing |
| `Rules.WinnerIsLeast` | internal/domain/match.go:10-12 | there is a winner iff some rule matches; it matches, and no matching rule has a smaller priority, nor the same and a smaller id |
| `Rules.OrderIrrelevant` | internal/domain/match.go:20-27 | with distinct ids the winner does not depend on the order in which the rules are listed |
| `Rules.DerivePrefilter` | internal/daemon/rpc.go:373-399 | the derived patterns and spaces are exactly the non-empty ones of the rules, patterns without duplicates |
| `Rules.PrefilterMissesNothing` | internal/daemon/pipeline.go:789-797 | every signal matched by a rule with a cwd or space clause passes the collectors' prefilter built from the same rules |
| `Rules.EmptySpaceRuleSlipsPast` | internal/daemon/rpc.go:394-397 | the hypothesis is needed: a rule with an empty space, which the handlers never store, would be filtered out upstream |
| `Rules.ContainsImpliesLike` | queries.sql:124 | a title that contains the substring is selected by the LIKE clause, wildcards and all |
| `Rules.LikeIsOccurrence` | queries.sql:124 | for every title text the clause selects exactly the titles in which the pieces between its `%` occur in order, `_` for any character, ASCII case ignored |
| `Rules.LikeFoldsCase` | queries.sql:124 | without wildcards that is containment with ASCII case ignored |
| `Rules.TitleSweepReachesFurther` | queries.sql:124 | such a title clause reaches beyond the live one iff the text is there in another case only |
| `Rules.SweepAgreesWithLive` | queries.sql:117-133 | for every rule and row: what the rule matches live in the tagged space the sweep selects unless the SQL misses the directory; what it selects besides are exactly the rows that match but for a title or directory it overreaches to |
| `Rules.PlainClausesAgree` | queries.sql:127-132 | a validated clause without backslash and class misses no directory with a clean parent, and overreaches to one iff a `?` stands over a slash |
| `Rules.SweepConserves` | queries.sql:117-133 | for every rule the sweep moves no row, takes none from a project, and changes nothing when repeated |
| `Rules.SweepCredits` | queries.sql:117-133 | for every rule an unassigned row is credited iff the rule matches it live in the tagged space or overreaches to it, and does not miss its directory |
| `Retagging.AttributedIff` | internal/domain/match.go:19-36 | a signal goes to a project iff some rule of it matches before every matching rule of another project |
| `Retagging.SweepIsLiveCreditIff` | internal/daemon/rpc.go:690-743 | a swept row gets the project the daemon would have given it iff its observation is not ignored, a rule of that project comes first, and the project's gate is open: pauses, arming and the tick's own maps included |
| `Retagging.SweepIgnoresPriority` | queries.sql:117-133 | two rules on one bundle: the later one sweeps rows the earlier one wins live |
| `SnapshotCache.Cache.AddSuppressed` | internal/daemon/cache.go:64-69 | adds one to one project's counter and returns the sum |
| `SnapshotCache.Cache.MarkProjectActive` | internal/daemon/cache.go:89-106 | removes the project from the paused set and changes nothing else, also on the early return |
| `SnapshotCache.Cache.ArmAllProjects` | internal/daemon/cache.go:113-133 | arms exactly the given projects and zeroes all counters; an empty list changes nothing |
| `SnapshotCache.Cache.ArmProject` | internal/daemon/cache.go:136-154 | adds the project to the armed set; a project newly armed starts counting from zero |
| `SnapshotCache.Cache.DisarmProject` | internal/daemon/cache.go:157-177 | removes the project from the armed set, with its counter if it was armed |
| `SnapshotCache.Cache.StorePreservingRuntime` | internal/daemon/cache.go:185-196 | takes everything from the new snapshot but the armed set, which stays |
| `SnapshotCache.EarlyReturnChangesNothing` | internal/daemon/cache.go:92-94 | where an operation returns without a swap, its whole effect would have been nothing |
| `SnapshotCache.CounterIsClearedIff` | internal/daemon/cache.go:113-177 | a suppressed counter is cleared iff its project is newly armed, was armed and is disarmed, or all are armed anew |
| `SnapshotCache.StepKeepsInv` | internal/daemon/cache.go:89-196 | each atomic step of each thread keeps: the pointer's cell is the log replayed, a built cell is the effect on the cell that was loaded, private cells are unpublished and unshared |
| `SnapshotCache.EveryInterleavingIsSequential` | internal/daemon/cache.go:89-196 | under every interleaving readers see the operations run one after another in swap order; each thread's operations are all there once and in its order; published snapshots are never written again |
| `SnapshotCache.LastWordDecidesArmed` | internal/daemon/cache.go:179-196 | no arm or disarm is lost and reloads have no say: a project is armed iff the last logged operation about it armed it, or it was armed before and none disarmed it |
| `CacheRuns.LastWordDecidesPaused` | internal/daemon/cache.go:89-106 | a project is paused in the cache iff the last logged word about it is a reload that read it as paused, or it was at the start and there is none |
| `CacheRuns.AgreementLastsIffSettled` | internal/daemon/rpc.go:365-400 | cache and table agree about a project in every continuation without a new pause or resume iff they agree now and no thread under way holds another answer |
| `CacheRuns.ReloadRestoresStalePause` | internal/daemon/rpc.go:365-400 | a run of two threads in which a reload reads the table, a resume writes it and is swapped in, and the reload puts the pause back |
| `CacheRuns.AloneIsAtomic` | internal/daemon/cache.go:113-196 | run by one thread alone, load, build, swap and clear are the whole operation on snapshot and counters |
| `CacheRuns.CounterShowsAllIff` | internal/daemon/cache.go:123-151 | whatever is added between swap and clearing is lost, so with nothing cleared later the counter shows all that was suppressed since the swap iff nothing was added in that window |
| `CacheRuns.ArmDropsCount` | internal/daemon/rpc.go:566 | a run in which a handler's arm-all and a tick leave the project armed, one tick suppressed and the counter at zero |
| `Pipeline.Pipeline.RunTick` | internal/daemon/pipeline.go:289-513 | the loop over the signals, with its three per-tick maps, cache calls, table writes and every failing statement, is the fold of the gate over the poll's signals |
| `Pipeline.Pipeline.GateSignal` | internal/daemon/pipeline.go:398-509 | for a signal attributed to a project: the new cache, streaks, tables and per-tick maps, in every branch |
| `PipelineRuns.GateView` | internal/daemon/pipeline.go:369-510 | a signal of another project leaves a project's flags, counters and rows alone; its own moves them as a small step function on eight fields says, and adds exactly its row when credited |
| `PipelineRuns.TickSeenBy` | internal/daemon/pipeline.go:356-510 | what a whole tick does to one project: flags, counters, and exactly the rows of its credited signals |
| `PipelineRuns.GateOpensForAReason` | internal/daemon/pipeline.go:445-485 | an armed project's gate opens within a tick only after a focus or transcript signal or on the N-th counted tick, and then it is disarmed |
| `PipelineRuns.CreditIsJustified` | internal/daemon/pipeline.go:404-485 | every new row is this poll's, unignored and attributed to the project; for a paused project it comes from a transcript and the project ends unpaused; for an armed one it ends disarmed, and an agent row needs an earlier focus signal in the same tick or the N-th counted tick |
| `PipelineRuns.FiringCredits` | internal/daemon/pipeline.go:461-467 | on the firing tick every agent signal that reaches the project is credited |
| `PipelineRuns.PresentAgentResumesAndArms` | internal/daemon/pipeline.go:430-439 | agent work with the user present resumes a paused project, in cache and table, arms it, clears its streak, and earns no row |
| `PipelineRuns.TranscriptResumesAndCounts` | internal/daemon/pipeline.go:419-429 | a transcript signal resumes a paused project, in cache and table, and the second is credited, unless the table has a row for it |
| `PipelineRuns.FocusOpensGate` | internal/daemon/pipeline.go:398-402 | a focus signal for an armed project has its row after the tick, and so has every agent signal of the project after it, stale snapshot or not; the project ends disarmed |
| `TickRecords.SignalsAre` | internal/daemon/pipeline.go:300-355 | a poll's signals are the focused window while the user is present or idleness is unknown, then all agent signals, then all transcript signals |
| `TickRecords.TickTable` | internal/daemon/pipeline.go:369-510 | a poll leaves old rows as they were, one new row for every signal that is untagged or credited and no other, with the project the signal is attributed to or none, and every stored observation |
| `TickRecords.UntaggedWorkIsKept` | internal/daemon/pipeline.go:494-503 | a stored, unignored signal that no rule matches has a row without a project and its observation |
| `TickRecords.UntaggedWorkIsSwept` | internal/daemon/rpc.go:690-743 | so a rule made later that selects it sweeps it into its project |
| `TickRecords.OpenProjectIsCredited` | internal/daemon/pipeline.go:485-510 | a project neither paused nor armed is credited every focus and agent signal that reaches it, and a transcript signal iff nothing was credited before |
| `TickInterference.HandlersChangeNoCredit` | internal/daemon/pipeline.go:289-510 | whatever handlers do to the cache and the paused column between the signals of a tick, it credits the same rows, counts the same streaks and keeps the same per-tick maps |
| `TickInterference.SignalSays` | internal/daemon/pipeline.go:398-485 | each signal moves a project's paused and armed flags by words read off the undisturbed tick, whatever handlers left there |
| `TickInterference.LandedBefore` | internal/daemon/pipeline.go:404-485 | a pause that lands during a tick is there at its end iff the project was unpaused when it began or no later signal resumes it; the project is armed as the last later signal says, else as the handlers left it |
| `TickInterference.PauseWaitsForNextTick` | internal/daemon/pipeline.go:356-359 | a pause landing on an unpaused project is there when the tick ends, and this tick's rows are those it would have had |
| `DaemonRuns.PausedSurvivesIdleRuns` | internal/daemon/pipeline.go:409-442 | over any run of idle polls, reloads and handlers a paused project with agent signals alone stays paused, in cache and table, and gains no row |
| `DaemonRuns.ArmedRunSuppresses` | internal/daemon/pipeline.go:453-485 | over any run with agent signals alone and fewer than N counted polls: armed throughout, no row, and suppressed count and streak rise by exactly the polls that reached the project |
| `DaemonRuns.IdleRunsNeverCount` | internal/daemon/pipeline.go:475-484 | with the user idle no poll counts towards auto-disarm |
| `DaemonRuns.ArmedSurvivesIdleRuns` | internal/daemon/pipeline.go:475-484 | so an unattended armed project stays armed for ever, gains no row, and every suppressed tick is counted |
| `DaemonRuns.NthAgentTickDisarms` | internal/daemon/pipeline.go:459-467 | after any such run the N-th counted poll disarms, zeroes both counters and leaves a row for each of its signals |
| `DaemonRuns.ArmedIffBelowN` | internal/daemon/pipeline.go:453-485 | over any run with agent signals alone an armed project is armed at the end iff its streak and the counted polls together stay below N |
| `DaemonRuns.ResumeAllKeepsStreak` | internal/daemon/rpc.go:547-568 | resuming all projects zeroes the suppressed count and keeps the streak: over every run after it the project is armed iff streak and counted polls stay below N, so it outlasts N-1 counted polls iff the streak was zero |
| `DaemonRuns.StreakSurvivesResume` | internal/daemon/rpc.go:547-568 | a run from a streak of zero: with N = 2, a counted poll, a resume of all projects and one more counted poll disarm |
| `DaemonRuns.StreaksStayBelow` | internal/daemon/pipeline.go:459-464 | in every run, whatever the signals, no project's streak reaches N |
| `Agents.WorkingMeansLastRunWasRise` | internal/daemon/pipeline.go:712-732 | for every above/below history a process counts as working iff the most recent completed run was a rise run |
| `Agents.WorkingTicksBounded` | internal/daemon/pipeline.go:712-732 | working ticks are at most `fall` times the above-bar ticks, and there are none if the bar was never held `rise` ticks in a row |
| `Agents.WorkspaceIsBeforeColon` | internal/herdr/herdr.go:75 | a pane id names the workspace before its first colon, or all of it |
| `Agents.Collector.Observe` | internal/daemon/pipeline.go:685-808 | one listed process takes its step through the four side maps, PID-reuse checks included; no other PID's entries move |
| `Agents.Collector.AttributePid` | internal/daemon/pipeline.go:747-808 | the cached pane probe, the classification and the emitted signal, in every combination of failed probes |
| `Agents.Collector.Prune` | internal/daemon/pipeline.go:645-667 | keeps the entries of live PIDs and nothing else, in all four maps |
| `Agents.Collector.ObserveAll` | internal/daemon/pipeline.go:682-809 | each PID takes a step for every time it is listed and no other, and the signals come out in listing order |
| `Agents.Collector.CollectAgentSignals` | internal/daemon/pipeline.go:644-812 | the same for a whole pass, after which no unlisted PID has any state; a failed listing forgets everything |
| `AgentRuns.SoundIffHandoversAgree` | internal/daemon/pipeline.go:688-808 | over every run, with failed probes, outages and a PID that passes from process to process: the cached state is true of the current owner throughout iff at each handover what is still remembered is true of the new one |
| `AgentRuns.SafeForAnyoneIff` | internal/daemon/pipeline.go:688-710 | a step is sound for whatever process it may see iff the PID was not known, its counter fell, its name changed, or neither class nor pane is held |
| `AgentRuns.CacheRefinesVerdict` | internal/daemon/pipeline.go:734-808 | over every run whose handovers are noticed in that sense: the cached verdict is true only if the fully informed verdict on the owner is, equals it once final, and every signal is the owner's own in each field, its space included as soon as its pane is known |
| `AgentRuns.EmissionMatchesIff` | internal/daemon/pipeline.go:802-807 | an emitted signal matches exactly the rules for the owner's program, directory and listed workspace |
| `AgentRuns.FinalNeverReverts` | internal/daemon/pipeline.go:694-710 | between snapshot swaps a final verdict is kept iff the PID is listed under the same name with a counter that does not fall |
| `AgentRuns.CompleteInputsSettle` | internal/daemon/pipeline.go:769-797 | one working tick with answering probes and a known pane makes the verdict final, and the owner's full signal is emitted iff the verdict is true |
| `AgentRuns.PlainTrackNeedsNoPane` | internal/daemon/pipeline.go:747-800 | a process tracked by program or directory emits on every working tick, whatever becomes of the pane probe and of herdr |
| `AgentRuns.RuleMatchedWorkIsEmitted` | internal/daemon/pipeline.go:789-807 | with patterns and spaces derived from the rules, a working process that some rule would place by directory or space emits the signal that rule matches |
| `AgentRuns.PaneIsRemembered` | internal/daemon/pipeline.go:747-765 | one answered pane probe is remembered until the PID is gone or found reused |
| `AgentRuns.ActivityFollowsHistory` | internal/daemon/pipeline.go:688-729 | in every run the stored activity is the classifier run over the history since the PID was last started or found reused |
| `AgentRuns.EmissionMeansSustainedWork` | internal/daemon/pipeline.go:730-732 | an emission implies that the last completed run of that history was a rise run |
| `AgentRuns.DetectedReuseStartsAfresh` | internal/daemon/pipeline.go:694-710 | after a detected PID reuse nothing of the old process has any influence |
| `AgentRuns.ReuseAfterSwapGoesUnseen` | internal/daemon/pipeline.go:696-700 | a run with honest probes in which a reuse right after a snapshot swap is missed and the new process emits with the old one's space |
| `Herdr.Resolver.FailClosed` | internal/herdr/herdr.go:217-225 | empties both maps and resets the stamp |
| `Herdr.Resolver.Reload` | internal/herdr/herdr.go:148-212 | unchanged stamp: nothing moves; failure: fail closed; success: spaces replaced, session bindings added to |
| `Herdr.Resolver.SpaceForPane` | internal/herdr/herdr.go:71-84 | reloads, then answers with the pane's workspace if the current file lists it; malformed panes touch nothing |
| `Herdr.Resolver.SpaceForSession` | internal/herdr/herdr.go:90-103 | reloads, then answers with the learned workspace if the current file lists it |
| `Herdr.SpacesAreListed` | internal/herdr/herdr.go:166-215 | a workspace is known iff it is listed under a non-empty id, by the name it was last listed with |
| `Herdr.StateTracks` | internal/herdr/herdr.go:138-147 | after every sequence of file states: spaces are those of the current version, bindings those of the valid versions since the last failure, where a file under the stamp of the version in force counts as that version |
| `Herdr.AnswersAreAFold` | internal/herdr/herdr.go:86-103 | a session resolves to w iff the latest such version naming it says w and w is in the current one, a pane likewise; after a failure nothing resolves |
| `Herdr.RotationKeepsBinding` | internal/herdr/herdr.go:171-181 | a session that rotated out of the file keeps its workspace while that is listed |
| `Herdr.SameStampServesOldFile` | internal/herdr/herdr.go:157-159 | in every history a file under the stamp of the version in force changes nothing |
| `Herdr.MovedSessionAnsweredWrongly` | internal/herdr/herdr.go:157-159 | so a session moved to another workspace under an unmoved stamp is answered with the old one |
| `Codex.ParseCodexTail` | internal/daemon/codex.go:54-99 | the loop over the lines, with its evolving root, is the fold of the line step |
| `Codex.Tracker.Read` | internal/daemon/codex.go:172-191 | consumes the new whole lines only and absorbs what they say |
| `Codex.Tracker.Visit` | internal/daemon/codex.go:157-204 | truncation, stale file, failed read and growth; then the grace gate, the directory to credit and the prefilter |
| `Codex.Tracker.DropVanished` | internal/daemon/codex.go:213-217 | forgets exactly the files that were not there |
| `Codex.ScanSplit` | internal/daemon/codex.go:54-99 | parsing a file is parsing any line-aligned prefix and going on from there |
| `Codex.ParseFinds` | internal/daemon/codex.go:54-99 | a parse finds the newest timestamp, the last root, and the directory of the last command that did not run in the root in force |
| `Codex.TailingEqualsBatch` | internal/daemon/codex.go:170-191 | however the growth of a text is cut into reads, mid-line or not, and whichever reads fail: offset, last activity and root are those of one parse of its complete lines on top of the session before, and so is the command directory unless that parse forgets it |
| `Codex.FileInUseIsTailed` | internal/daemon/codex.go:162-192 | over any run of ticks that find the file growing and younger than the grace, the session is what one parse of the complete lines after its offset gives |
| `Codex.StaleFileIsPassedOver` | internal/daemon/codex.go:167-171 | a file found stale is passed over to its end; only what is appended later counts |
| `Codex.ShrunkFileIsReadAgain` | internal/daemon/codex.go:164-166 | a file that has shrunk below the offset is read again from its start |
| `Codex.FileInUseIsCredited` | internal/daemon/codex.go:195-204 | a rollout in use from its start is credited until the grace after its newest entry, to its last command's directory or else its root, iff some pattern covers that |
| `Codex.AgreementIffNotForgotten` | internal/daemon/codex.go:92-96 | for complete content, all ways of reading it agree with the batch parse iff that parse does not forget the command directory |
| `Codex.NonEmptyCommandsAreKept` | internal/daemon/codex.go:101-112 | it forgets nothing where no command decodes to the empty string |
| `TranscriptImport.SplitBlocks` | internal/daemon/transcript_import.go:127-142 | the loop with its running start and end computes the stamp-by-stamp stitching |
| `TranscriptImport.BlocksShape` | internal/daemon/transcript_import.go:125-126 | blocks start and end at stamps, are non-empty, and lie more than the grace apart |
| `TranscriptImport.BlocksAreMaximalRuns` | internal/daemon/transcript_import.go:125-126 | every stamp lies in a block, and neighbouring stamps share one iff their gap is at most the grace |
| `TranscriptImport.BlocksAreTheGate` | internal/daemon/transcript.go:135-139 | the live grace gate is open at an instant iff it lies in a block or less than the grace after its end |
| `TranscriptImport.AttributeFile` | internal/daemon/transcript_import.go:42-61 | a file is passed over without turns, project or stored observation; else its directory alone decides the project |
| `TranscriptImport.Importer.Offer` | internal/daemon/transcript_import.go:65-85 | a slot near a tick of its project is skipped; otherwise it is inserted unless its row is taken, and counted either way; an insert error ends the import |
| `TranscriptImport.Importer.FillBlock` | internal/daemon/transcript_import.go:62-87 | the grid loop over one block tries exactly the block's slots in order |
| `TranscriptImport.Importer.ImportTranscripts` | internal/daemon/transcript_import.go:24-90 | the nested loops attribute every file and place all its slots in order, up to a failing insert |
| `TranscriptImport.GridIff` | internal/daemon/transcript_import.go:64 | the grid over a block is every whole number of intervals from its start that is not past its end |
| `TranscriptImport.ImportSlotsIff` | internal/daemon/transcript_import.go:36-64 | the slots of an import are those of the grids over the blocks of its attributed files, each for the file's own session, directory and project, and only those |
| `TranscriptImport.SlotsCoverBlocks` | internal/daemon/transcript_import.go:62-64 | every instant of every block of every attributed file has a slot less than an interval before it |
| `TranscriptImport.FailedImportIsPrefix` | internal/daemon/transcript_import.go:78-84 | an import that fails has done exactly a prefix of the slots |
| `TranscriptImport.ImportKeepsDistance` | internal/daemon/transcript_import.go:65-72 | an import only adds rows, and every added row is at least one interval from every other row of its project |
| `TranscriptImport.SeparationSurvives` | internal/daemon/transcript_import.go:65-72 | a project whose rows were an interval apart still is after an import |
| `TranscriptImport.ImportCovers` | internal/daemon/transcript_import.go:64-85 | after an import every slot has a tick of its project within interval - 1, unless its row was taken from the start |
| `TranscriptImport.WorkedInstantIsTicked` | internal/daemon/transcript_import.go:62-85 | so after an import every instant of every block has a tick of the file's project less than two intervals before or one after it, unless its slot's row was taken |
| `TranscriptImport.SecondRunSilent` | internal/daemon/transcript_import.go:73-85 | a second run inserts nothing iff every slot with a taken row is near some other tick of its project |
| `TranscriptImport.ImportIsRerunnable` | internal/daemon/transcript_import.go:73-85 | with no taken rows the second run inserts nothing and changes nothing |
| `TranscriptImport.TakenRowIsCountedAgain` | queries.sql:15-16 | a slot whose row another project holds is ignored by the table and counted by the import |
| `TranscriptImport.RulesGiveOneProject` | internal/daemon/transcript_import.go:49-58 | an import gives no observation two projects |
| `TranscriptImport.ImportNeverOverbills` | internal/daemon/transcript_import.go:65-72 | after an import, ticks times interval never exceed a stretch of time by more than one interval |
| `LineItem.RoundHalfEvenIsNearest` | internal/invoice/lineitem.go:21-22 | the rounding is the nearest integer with ties to even, and only that |
| `LineItem.LineAddsUp` | internal/invoice/lineitem.go:14-42 | hours are the ticks' to half a hundredth, the unit is the rate, and the total is the displayed hours times the unit to half a cent |
| `LineItem.TotalIsClose` | internal/invoice/lineitem.go:32-35 | the two roundings together err by at most 18 r + 1800 in units of a cent-second per hour |
| `LineItem.TotalIsMonotone` | internal/invoice/lineitem.go:32-35 | more ticks or a higher rate never lower the total |
| `InvoiceFormat.NumberReadsBack` | internal/invoice/format.go:66-72 | prefix, then digits that spell the number, padded or not |
| `InvoiceFormat.NumberFillsPad` | internal/invoice/format.go:66-72 | the number fills a configured pad with leading zeros and is never cut |
| `InvoiceFormat.NumbersPrintApart` | internal/invoice/format.go:66-72 | under one prefix and pad, equal prints mean equal numbers |
| `InvoiceFormat.PrefixesCanCollide` | internal/invoice/format.go:66-72 | under two prefixes they need not |
| `InvoiceFormat.WithThousandsSeparator` | internal/invoice/format.go:25-45 | the loop groups the digits in threes from the right |
| `InvoiceFormat.CommasEveryThree` | internal/invoice/format.go:38-43 | commas stand exactly at every fourth place from the right |
| `InvoiceFormat.MoneyReadsBack` | internal/invoice/format.go:9-23 | the printed amount reads back to the cent |
| `InvoiceFormat.MoneyPrintsApart` | internal/invoice/format.go:9-23 | in one currency no two amounts, of either sign, print alike |
| `Credit.AutomaticCreditFits` | internal/invoice/credit.go:3-25 | automatic credit never changes whether a document is accepted, never exceeds a positive balance, and is all that fits |
| `Credit.OldestUnexhaustedAdvance` | internal/daemon/rpc_invoice.go:171-188 | the two passes find the first numbered advance left when everything drawn is spent from the oldest on |
| `Credit.ReplayIsDrain` | internal/daemon/rpc_invoice.go:157-167 | that queue equals the one left by replaying the ledger in issue order, each drawdown spending first in, first out |
| `Credit.ReferenceIsQueueHead` | internal/daemon/rpc_invoice.go:157-170 | the advance named is the head of the queue left when everything drawn is spent from the oldest on, and there is one whenever more was advanced than drawn |
| `Ledger.InvoiceService.ReadDraft` | internal/daemon/rpc_invoice.go:195-251 | the reads before the transaction: every rejection, the period and its tick count |
| `Ledger.InvoiceService.GenerateInTransaction` | internal/daemon/rpc_invoice.go:262-390 | number, credit and document from the tables as the transaction finds them, and the outcome of a stop or crash at each stage |
| `Ledger.InvoiceService.InvoiceGenerate` | internal/daemon/rpc_invoice.go:191-407 | reads, seed and transaction in one, dry run included |
| `Ledger.InvoiceService.InvoiceAdvance` | internal/daemon/rpc_invoice.go:417-577 | every rejection, the dry run, the seed, and the transaction of a prepayment, which draws no credit |
| `Ledger.InvoiceService.RenderAndCommit` | internal/daemon/rpc_invoice.go:349-390 | temporary file, row and number in one commit, then the rename; what is left on disk and in the tables after a stop anywhere |
| `Ledger.InvoiceService.InvoiceSend` | internal/daemon/rpc.go:1073-1096 | records an unnumbered, unpriced cutoff row |
| `Ledger.InvoiceService.InvoiceDelete` | internal/daemon/rpc.go:1139-1158 | refuses, unless forced, a row that carries advance credit |
| `LedgerRuns.AloneIsWhole` | internal/daemon/rpc_invoice.go:191-407 | a connection that takes its three steps alone has done the whole request |
| `LedgerRuns.NumbersAndFiles` | internal/daemon/rpc_invoice.go:110-155 | after every interleaving of requests, failures and crashes: each sender's committed numbers are exactly seed..next-1 in commit order, increasing; a file at a final path and every numbered row have their number committed |
| `LedgerRuns.PrintedNumbersDistinct` | internal/daemon/rpc_invoice.go:308-313 | under one prefix a sender's committed numbers print as distinct strings, whatever the padding |
| `LedgerRuns.NoCommitNoTrace` | internal/daemon/rpc_invoice.go:54-59 | a dry run, the steps before a transaction, and one stopped before its commit consume no number, row, credit or final file |
| `LedgerRuns.BalancesStaySolvent` | internal/daemon/rpc_invoice.go:274-318 | after every interleaving without forced deletes each balance is and always was non-negative, and due, credit and discount of each invoice are non-negative and add up to its line total |
| `LedgerRuns.UnforcedDeleteKeepsBalance` | internal/daemon/rpc.go:1134-1138 | an unforced delete moves no balance |
| `LedgerRuns.ForcedDeleteOverdraws` | internal/invoice/credit.go:8-11 | a forced delete leaves a balance non-negative iff the rows it removes brought no more than there is; below zero no invoice draws credit |
| `LedgerRuns.ForcedDeleteOfSpentAdvance` | internal/daemon/rpc.go:1134-1142 | a run that advances 100, spends 60 and deletes the advance by force ends at -60 |
| `LedgerRows.EveryInvoiceChargesItsWork` | internal/daemon/rpc_invoice.go:191-390 | in every reachable ledger each numbered billing row answers a generate of the run: addressed, dated and added up as asked, charging hourly the seconds that request found in its period at the rate and tick length it found, to within the two roundings, or monthly the rate |
| `LedgerRows.OtherRowsAreAsked` | internal/daemon/rpc_invoice.go:417-577 | each advance row is for the amount a request asked, each unnumbered row a cutoff sent |
| `LedgerRows.SeedsAreConfigured` | internal/daemon/rpc_invoice.go:253-260 | a sender's first number is the one configured where a request of the run billed from it |
| `LedgerRows.RowDrawsAllThatFits` | internal/daemon/rpc_invoice.go:313-317 | a row draws its company's credit in its currency until that or the charge is used up, and nothing from a balance that is not positive |
| `LedgerRows.LoneGenerateIssuesIff` | internal/daemon/rpc_invoice.go:191-407 | with nobody else at work and nothing failing, one row under the next number and its PDF are issued iff the company can be billed, there is work to bill or leave not to, and the discount fits; otherwise no row and no file |
| `LedgerRows.LoneAdvanceIssuesIff` | internal/daemon/rpc_invoice.go:417-577 | the same for an advance, iff it asks for money and the company has a rate and can be billed |
| `LedgerRows.PdfsAreKept` | internal/daemon/rpc_invoice.go:349-390 | no run loses the PDF of a committed number; unless a crash or error falls between commit and rename it is at its final path |
| `LedgerRows.LastSentIsLatest` | queries.sql:273-279 | the anchor is the latest time at which the company was billed or cut off, 0 if never |
| `LedgerRows.CutoffStartsNextPeriod` | internal/daemon/rpc.go:1073-1096 | after a cutoff the company's default hourly period starts at it unless a later row stands; other companies, balances, numbers and files are untouched |
| `LedgerRows.DeleteTakesTheRow` | internal/daemon/rpc.go:1139-1158 | a delete goes through iff it is forced or no row of the id carries credit, and then exactly the rows of that id are gone |
| `LedgerReference.CreditRowsFit` | queries.sql:281-296 | the credit rows, ordered by issue time and id, add up to the balance whatever the issue times |
| `LedgerReference.ReachableReference` | internal/daemon/rpc_invoice.go:292-322 | in every reachable ledger, issue dates set back or not, the advance named heads the queue left when everything drawn is spent from the earliest-dated advance on, and one is named whenever credit is applied |
| `LedgerReference.ChronologicalReference` | internal/daemon/rpc_invoice.go:163-167 | where issue dates never go back, that queue is the one step-by-step spending leaves |
| `LedgerPeriods.TicksAccountedFor` | internal/daemon/rpc_invoice.go:218-266 | in every orderly interleaving the ticks billed, with the seconds counts passed over, equal the distinct seconds worked up to the anchor, with the worked seconds that committing invoices reached back over |
| `LedgerPeriods.BillsOnceIff` | internal/daemon/rpc_invoice.go:218-266 | so when no count passes over a second the bill is right iff no committing invoice reaches back over a worked second, an overlap over an idle stretch included, and too high otherwise |
| `LedgerPeriods.EachSecondAccountedFor` | internal/daemon/rpc_invoice.go:236-246 | second by second: one before the anchor is billed once, once more for every invoice that reaches back over it, once less for every one that passes over it; any other is never billed |
| `LedgerPeriods.LoneGeneratesTile` | internal/daemon/rpc_invoice.go:218-266 | while no other generate of the company commits between a request's reads and its commit, the periods tile the time from its creation to the anchor and none reaches back |
| `LedgerPeriods.OverlapBillsTwice` | internal/daemon/rpc_invoice.go:218-266 | an orderly run of two overlapping generates that bills one second twice |
| `LedgerPeriods.AdvanceKeepsAnchor` | queries.sql:273-279 | an advance moves neither the anchor nor what has been billed |
| `LedgerPeriods.PausedSecondsAreSkipped` | queries.sql:298-304 | a count takes the company's distinct seconds in the period but those that stand on paused projects only |
| `LedgerPeriods.PausedRunLosesSecond` | queries.sql:298-304 | a run in which the only invoice is generated while the project is paused: the anchor passes its second unbilled |

## Left out

Contracts weaker than the source, and hypotheses:

- CwdPattern.MatchesCwd: characters are code points; strings that are not valid UTF-8 are outside.
- CwdPattern.DirectoryIsSafeIff: for directories that hold none of `*`, `?`, `[` and backslash, so that a plain glob can spell their start; the closed forms of CwdPattern.CwdParity cover the others.
- Retagging.SweepIsLiveCreditIff: for statements that succeed.
- Rules.MatchRules: the standard library's stable sort is taken by its contract (a permutation ordered by priority and id), not re-implemented.
- SnapshotCache.EveryInterleavingIsSequential: memory reclamation is not modelled, so a pointer value is never reused for another snapshot, as under a garbage collector.
- Pipeline.Pipeline.RunTick: runs alone; TickInterference.HandlersChangeNoCredit lets handlers act between the signals of a tick, not between the cache calls for one signal, and not on the ignored observations.
- PipelineRuns.CreditIsJustified: assumes that each collector labels its signals with its own source.
- AgentRuns.CacheRefinesVerdict: probes may fail but not lie, and rules change only with a snapshot swap; handovers that go unnoticed are covered by AgentRuns.SoundIffHandoversAgree.
- Herdr.Resolver.Reload: the inert resolver without a path is not modelled.
- Codex.FileInUseIsTailed: between a stale view or a shrinking and the next the file only grows; a skip that lands mid-line makes the rest of that line the first line parsed, as in the code.
- Codex.Tracker.Visit: one file at a time; the listing of day directories is left out.
- TranscriptImport.Importer.ImportTranscripts: takes files already read, with their directory and sorted stamps; the interval is at least one second.
- LedgerRows.EveryInvoiceChargesItsWork: the bound on the charge is stated for rates that are not negative; the start of a default hourly period is the subject of LedgerPeriods.
- LineItem.TotalIsClose: exact integers and half-even rounding (section 4.3.1 of IEEE 754-2008) stand in for float64.
- InvoiceFormat.NumberReadsBack: numbers are non-negative.
- Ledger.InvoiceService.InvoiceGenerate: the bounds of the calendar month that monthly billing covers are a parameter; the rename after a commit is one step with it.
- LedgerRuns.PrintedNumbersDistinct: one prefix per sender throughout; InvoiceFormat.PrefixesCanCollide shows why.
- LedgerRuns.BalancesStaySolvent: forced deletes are excluded; LedgerRuns.ForcedDeleteOverdraws says exactly what they do.
- LedgerReference.ReachableReference: the reference is the number before it is printed with its prefix.
- LedgerPeriods.TicksAccountedFor: generates with default periods, whose reads come at non-decreasing times, and advances; no manual cutoffs or deletes, and no later change to seconds already past.

Parts of the repository that are not modelled:

- The command line, menus, macOS bridge, launchd, sockets and the net/rpc transport: input, output and user interface.
- PDF layout, YAML loading, the SQLite engine, migrations and write-ahead-log checkpoints.
- Decoding of JSON, percent-escapes and timestamps: a log line is an opaque value with a decoding function as parameter; newline splitting and offsets are concrete.
- The Claude transcript collector apart from its grace gate, and the opencode collector: the first repeats the Codex collector's offsets with simpler state, the second is one query.
- The session-to-pane fallback of the transcript collector, which probes the process table.
- Title back-off, slow-tick reporting and permission status: they decide what a poll observes, which is a parameter here.
- 64-bit overflow, time zones and calendar arithmetic.
- Reports, status and summary queries, company and project maintenance handlers.
