# Verified models of the desktop services

This project states, in Dafny, what seven parts of the repository do and proves
what they are meant to guarantee. Each part has a specification on values (a
table, a graph, a tree, a text), imperative code in the shape of the original
that is proved to compute exactly that specification, and theorems about the
specification over every input or every run.

**Inference broker** (`projects/broker/src/lifecycle.rs`). `BrokerTable` gives every
lock-held block as a function of the job table, `Broker` the same blocks as methods
that update the table in place, `BrokerSystem` the whole program as an interleaving:
worker loops, callers, runner results, notifications and the clock, one atomic step
at a time. `BrokerInvariants`, `BrokerSafety`, `BrokerHistory` and `BrokerWakeups`
prove what holds in every reachable state, over whole runs, and about wake-ups,
`BrokerEffects` says over the fields of the jobs what is taken, counted, replied and
changed, `BrokerProgress` that nobody is stuck, and `BrokerExamples` has concrete
runs. A job in flight is carried by an explicit record in its worker, so completions
that come too late are part of the model.

**Lock-graph inspector** (`projects/config-tools/src/inputs.rs`). `LockGraph` gives
a `follows` path its meaning by depth-bounded walks. `LockResolver` is the iterative
resolver with frame stack, active set and memo, `LockWork` the work it can do,
`LockCycles` the colouring search. `LockRows` says what the rows of a report are,
`LockBudgets` what a refusal means and which locks are never refused, and
`LockReport` is the breadth-first report.

**Markdown engine** (`projects/markdown-core/src/lib.rs`). `MarkdownText` is the
text in UTF-16 and UTF-8 and the offset table, `MarkdownRuns` the backtick runs, the
plain rule for code spans and the index by run length, `Markdown` the parser with
claims and inline spans, `MarkdownBlocks` the block structure and the state between
blocks; `MarkdownEffects` says of the characters of a line what it is, and what
spans and state come of it.

**Launch templates** (`projects/config-tools/src/launch.rs`). `LaunchSyntax` is the
meaning of a template byte by byte, `Launch` the cursor-driven expander,
`LaunchTemplates` template trees, their printed form and their value, and
`LaunchEffects` what a template means where no printed tree shows it.

**Maintenance inbox and service** (`projects/maintenance/src/model.rs`,
`projects/maintenance/src/service.rs`). `Encoding` and `Findings` are the canonical
text behind a fingerprint and its decoder, `FindingsEffects` that text sign by sign;
`InboxTable` the inbox as a value, loading from disk included; `InboxInvariants`,
`InboxTransactions`, `InboxLoading` and `InboxRuns` its invariants, the transaction
of a check, what a start makes of a file, and runs in which the file stands beside
the inbox: it can lag behind, and a save that reports a failure can leave it one
step ahead; `InboxEffects` says over the fields of rows and findings who is notified
and what each operation changes, `InboxExamples` has concrete runs, `Inbox` the
classes that change in place. A fingerprint is represented by the text it is the
digest of.

**Owned-link refresh** (`projects/config-tools/src/materialize.rs`).
`MaterializeTree` is the destination as a map from paths to entries,
`MaterializeManifest` the manifest and the older generation file, which stand in the
same tree, and a whole refresh as a function, `MaterializeEffects` what it makes of
each path; `Materialize` is the refresh, which records every state of the tree it
passes through.

**JPEG walker** (`projects/config-tools/src/picture.rs`). `Jpeg` is the walk,
`JpegLayout` the layout of a file as a list of items that can be printed,
`JpegEffects` the verdict on any such list.

`Prelude`, `Unicode` and `Slices` hold what several of these share.

Six promises turned out to have a condition, and are stated with it:

- `clear` removes jobs without notifying. A waiting caller can miss that, exactly
  when the broker is open, nobody owes a notification and somebody sleeps. The
  program clears only a broker it has closed, and then no wake-up is lost.
- The clean-up after an analysis leaves its job behind exactly when the broker was
  closed before the release, since a closed broker refuses every call.
- A revision identifies content while its row stays and the service runs, if the row
  was known: its fingerprint is that of what it says. A row that was loaded at a
  start is not, because diagnostics are not written. The next report of the same
  finding brings the diagnostic back without a new revision, though it counts as no
  change. And a row resolved for more than a week is dropped, so that revisions of
  that id begin again at one.
- Over restarts a revision identifies the fields of a row only if another cleaning
  leaves them as they are. A start cleans every text again, and cleaning masks first
  and drops what cannot be seen afterwards, so a text that it has cleaned can come
  out different: "to", a zero-width space, "ken=x" is stored as "token=x" and loaded
  as a masked text, at one revision. A written row says the same after a start
  exactly when its texts are fixed by another cleaning.
- A refresh that is interrupted can be run again exactly when a manifest was there
  before, or the source has nothing at the manifest's name, and nothing at the name of
  the older generation file unless that is there. The first refresh from a source with
  a file of the manifest's name cannot: the link it has installed is never read.
- The manifest lists exactly the wanted links that stand, exactly when there was a
  manifest before or none of them has its name; publication replaces that link.

## Model

| member | source | states |
|---|---|---|
| Broker.Broker.Finish | projects/broker/src/lifecycle.rs:86-94 | ending a job sets its state, error and flag, and drops the result unless it succeeded |
| Broker.Broker.Close | projects/broker/src/lifecycle.rs:149-158 | closing cancels every unfinished job, raises its flag, and leaves finished ones alone |
| Broker.Broker.Clear | projects/broker/src/lifecycle.rs:159-164 | jobs, retired entries and revisions are emptied, all else stays |
| Broker.Broker.SortDue | projects/broker/src/lifecycle.rs:175-182 | the due retries, each once, by ready time, sequence and id, and none that is not due |
| Broker.Broker.RequeueEach | projects/broker/src/lifecycle.rs:183-189 | the due retries are queued again with fresh sequence numbers in that order |
| Broker.Broker.NextRetry | projects/broker/src/lifecycle.rs:190-196 | the worker's timer is the time to the earliest remaining retry, and 300 seconds when there is none |
| Broker.Broker.QueueFront | projects/broker/src/lifecycle.rs:128-136 | the choice is the queued job that comes before all others by promotion, class and sequence, and there is none exactly when nothing is queued; what that order is: BrokerEffects.VisitTakesNext |
| Broker.Broker.Pick | projects/broker/src/lifecycle.rs:171-211 | a visit requeues due retries, takes the front of the queue into flight, and does nothing on a closed broker; which job that is over the fields: BrokerEffects.VisitTakesNext |
| Broker.Broker.Select | projects/broker/src/lifecycle.rs:223-233 | a selection is stored only for a job that is there, unfinished and not cancelled |
| Broker.Broker.Complete | projects/broker/src/lifecycle.rs:250-300 | an outcome ends or retries its job by the two budgets, and is dropped when the job is gone or over; over the fields: BrokerEffects.OutcomeCounts and ResultIsReplied |
| Broker.Broker.Submit | projects/broker/src/lifecycle.rs:336-384 | the reply and the whole new table of a submission, in the order of the original's refusals |
| Broker.Broker.List | projects/broker/src/lifecycle.rs:385-409 | a listing forgets retired entries older than five seconds and changes nothing else; it names every job once, those at work, the queue and the finished ones, each in its order, and then the retired entries; what that order is: BrokerEffects.ListingEffect |
| Broker.Broker.Manage | projects/broker/src/lifecycle.rs:410-464 | status, wait, cancel, retry, next and release: reply, refusal and whole new table; over the fields: BrokerEffects.ManageRefuses and the lemmas of each operation |
| BrokerInvariants.FrontUnique | projects/broker/src/lifecycle.rs:134 | sequence numbers are distinct, so there is one next job whatever the order of the map |
| BrokerInvariants.DueOrderUnique | projects/broker/src/lifecycle.rs:176-182 | the sorted list of due retries does not depend on the order of the map |
| BrokerInvariants.ListingUnique | projects/broker/src/lifecycle.rs:389-403 | the order of a listing does not depend on the order of the map |
| BrokerSafety.OneWorkerPerRunningJob | projects/broker/src/lifecycle.rs:197-258 | in every reachable state a job runs exactly when a worker carries it and nobody stopped it; no two workers carry one job |
| BrokerSafety.StaleCompletionIsSilent | projects/broker/src/lifecycle.rs:225-258 | a selection or completion for a job no longer running changes no job, flag or revision |
| BrokerSafety.RunningCompletionCounts | projects/broker/src/lifecycle.rs:275-301 | a running job's completion always takes effect |
| BrokerSafety.PicksAccountedFor | projects/broker/src/lifecycle.rs:197-209 | since submission or manual retry, picks equal recorded failures plus one if running, and stay within schema_attempts + 2 (one pick when no schema attempt is allowed) |
| BrokerSafety.TableInOrder | projects/broker/src/lifecycle.rs:341-463 | in every reachable state: result exactly for success, flag exactly for finished, at most one promoted, at most one unsuperseded job per item, and revisions match the record |
| BrokerHistory.StepEvolves | projects/broker/src/lifecycle.rs:165-473 | what one step of any worker or caller may do to a job, its picks and the records |
| BrokerHistory.RetriesEnd | projects/broker/src/lifecycle.rs:275-298 | a measure on the two budgets never rises without a manual retry and falls with each pick and completion |
| BrokerHistory.NoReturn | projects/broker/src/lifecycle.rs:362-383 | a job that is in the table at two moments was there in between |
| BrokerHistory.RevisionsNeverDecrease | projects/broker/src/lifecycle.rs:345-353 | recorded revisions never fall until the broker is cleared |
| BrokerHistory.SupersededForGood | projects/broker/src/lifecycle.rs:354-359 | a superseded job never becomes anything else |
| BrokerHistory.RefusedSubmitIsSilent | projects/broker/src/lifecycle.rs:338-352 | a submit is refused exactly for the listed reasons and then changes neither jobs nor revisions |
| BrokerHistory.AcceptedSubmitSupersedes | projects/broker/src/lifecycle.rs:353-383 | an accepted submit supersedes all other jobs of its item and no job of another |
| BrokerHistory.OverStaysOver | projects/broker/src/lifecycle.rs:419-452 | a finished job stays finished or goes, unless somebody retries it |
| BrokerHistory.CleanUpLeavesNothing | projects/maintenance/src/service.rs:505-522 | in every interleaving, after status, cancel and release the job is gone exactly unless the broker was closed |
| BrokerWakeups.StepWakes | projects/broker/src/lifecycle.rs:167-216 | every step but clearing an open broker keeps the wake-up invariant |
| BrokerWakeups.NoWakeupIsLost | projects/broker/src/lifecycle.rs:332-334 | over every run that clears only closed brokers: whoever sleeps unwoken with something to do is owed a notification |
| BrokerWakeups.ClearWakes | projects/broker/src/lifecycle.rs:159-164 | clearing keeps the invariant exactly when the broker is closed, a notification is owed, or no wait call sleeps |
| BrokerProgress.NoWorkerIsStuck | projects/broker/src/lifecycle.rs:165-303 | in every reachable state a worker can go on, whatever the runner hands it, unless it has stopped or sleeps unwoken before its time |
| BrokerProgress.NoCallerIsStuck | projects/broker/src/lifecycle.rs:331-473 | a caller can go on unless it has left or waits unwoken for a job; an open broker lists |
| BrokerProgress.ChoosingMayFail | projects/broker/src/lifecycle.rs:221-249 | a runner that fails while it selects hands in a runtime failure |
| BrokerExamples.ClearLosesAWakeup | projects/broker/src/lifecycle.rs:159-164 | a concrete run in which clearing an open broker loses a wake-up |
| BrokerExamples.CleanUpLeavesAJob | projects/maintenance/src/service.rs:505-522 | a concrete run in which the broker is closed during a clean-up and the job stays |
| BrokerEffects.VisitTakesNext | projects/broker/src/lifecycle.rs:171-211 | in every reachable state a visit takes, of all that are queued or due: a promoted job before all others, then an interactive one, then what is queued already by least sequence, then the due retries by ready time; and none exactly when nothing waits |
| BrokerEffects.VisitMoves | projects/broker/src/lifecycle.rs:183-209 | what a visit makes of each job: the one taken runs with one attempt more and neither selection nor promotion, due retries are queued behind all others, nothing else changes |
| BrokerEffects.VisitSleeps | projects/broker/src/lifecycle.rs:190-215 | a worker that finds nothing sleeps until the first retry is due, or 300 seconds |
| BrokerEffects.OutcomeCounts | projects/broker/src/lifecycle.rs:250-300 | the outcome of a running job: its result as it is, or one more failure, final or with the backoff up to 30 seconds; usage is added up, and no other job changes |
| BrokerEffects.ResultIsReplied | projects/broker/src/lifecycle.rs:250-463 | over runs: the value the runner returned for a running job is what every later status or wait replies that finds the broker open and the job there and not superseded |
| BrokerEffects.AskedIsShown | projects/broker/src/lifecycle.rs:416-463 | status and wait show the state, and a result when there is one; a wait sleeps exactly while the job is not over |
| BrokerEffects.ChooseEffect | projects/broker/src/lifecycle.rs:222-233 | in every reachable state a selection is stored exactly when the worker's own job still runs |
| BrokerEffects.ManageRefuses | projects/broker/src/lifecycle.rs:336-425 | which refusal each operation meets, in the order they are looked at; what is refused changes nothing |
| BrokerEffects.CancelEffect | projects/broker/src/lifecycle.rs:443 | cancelling ends the job without a result and raises its flag |
| BrokerEffects.RetryEffect | projects/broker/src/lifecycle.rs:444-452 | a retry queues a failed job with both budgets renewed and a flag of its own |
| BrokerEffects.NextEffect | projects/broker/src/lifecycle.rs:436-456 | one job is promoted and no other stays so |
| BrokerEffects.ReleaseEffect | projects/broker/src/lifecycle.rs:426-434 | a released job goes, and unless it failed it is kept for listings, 128 at most |
| BrokerEffects.SubmitRefuses | projects/broker/src/lifecycle.rs:338-352 | which refusal a submission meets, in the order they are looked at |
| BrokerEffects.SubmitEffect | projects/broker/src/lifecycle.rs:353-384 | the new job, field by field, and the recorded revision |
| BrokerEffects.SubmitReplaces | projects/broker/src/lifecycle.rs:353-383 | the other jobs of its item are superseded with their flags raised, all others stay |
| BrokerEffects.ListingEffect | projects/broker/src/lifecycle.rs:389-407 | a listing names the jobs at work by sequence, then the queue by promotion, class and sequence, then the ended ones, the latest first |
| BrokerEffects.RecentEffect | projects/broker/src/lifecycle.rs:386-388 | of the released jobs a listing keeps those of the last five seconds, in their order |
| BrokerEffects.ListEffect | projects/broker/src/lifecycle.rs:336-388 | a listing is refused exactly by a closed broker, and changes nothing but the released jobs it forgets |
| BrokerEffects.ClearEffect | projects/broker/src/lifecycle.rs:159-164 | clearing leaves no job, no released one and no revision |
| BrokerEffects.CloseEffect | projects/broker/src/lifecycle.rs:149-158 | closing cancels exactly the jobs that are not over, and raises exactly their flags |
| BrokerEffects.WorkersEffect | projects/broker/src/lifecycle.rs:137-144 | the configured number of workers, one at least and eight at most |
| LockGraph.WalkMonotone | projects/config-tools/src/inputs.rs:208-252 | what a walk finds at some alias depth it finds at every greater one |
| LockGraph.VerdictsExclusive | projects/config-tools/src/inputs.rs:196-254 | a path reaches one node at most, and reaching, missing and endless exclude one another |
| LockResolver.CycleEndless | projects/config-tools/src/inputs.rs:241-244 | meeting an alias that is already active means that no finite derivation exists at any depth |
| LockResolver.Graph.Pop | projects/config-tools/src/inputs.rs:213-222 | a finished frame puts a true resolution into the memo and hands its node down |
| LockResolver.Graph.Resolve | projects/config-tools/src/inputs.rs:196-254 | below the work limit: a node exactly when it is derivable, missing exactly when the walk ends, cyclic exactly when nothing is derivable; the memo stays true, and the work is at most one step an input and one walk of each alias not met before |
| LockCycles.Search | projects/config-tools/src/inputs.rs:341-362 | one white-grey-black visit keeps the colours, the flags and the finishing order sound |
| LockCycles.MarkCycles | projects/config-tools/src/inputs.rs:335-363 | every flagged edge closes a cycle, and without the flagged edges there is none |
| LockReport.Look | projects/config-tools/src/inputs.rs:288-316 | the row of one queued path; a refusal means that the path has no node, or that the traversal limit is passed |
| LockReport.Enqueue | projects/config-tools/src/inputs.rs:325-333 | all children of a row are queued with their ancestors exactly when the queued paths fit, or there are none |
| LockRows.EverythingExpanded | projects/config-tools/src/inputs.rs:283-334 | when the queue is empty every node the root reaches has been expanded |
| LockRows.ClearExpanded | projects/config-tools/src/inputs.rs:256-334 | and from a selected path on, every node that is reached from its node past the root |
| LockRows.AllComplete | projects/config-tools/src/inputs.rs:256-334 | the rows are the selected path, if there is one, and one row per input edge of every node that is met; shared_with is the path that expanded the node first |
| LockBudgets.RefusedWithin | projects/config-tools/src/inputs.rs:285-330 | a report of everything, from the root or from a selected path on, that stays within its limits is refused only if some input it meets has no node |
| LockBudgets.CompleteResolves | projects/config-tools/src/inputs.rs:256-334 | a complete report shows that every input it meets has a node |
| LockBudgets.SmallIsRoomy | projects/config-tools/src/inputs.rs:279-330 | a lock is within all limits when its numbers of inputs and nodes, its longest input name, the selected path and its largest row are small enough |
| LockReport.Expand | projects/config-tools/src/inputs.rs:269-334 | every row resolves its path; with all options the listed paths are those of the search, each once; a refusal means what it says of the paths listed so far |
| LockReport.FlagRows | projects/config-tools/src/inputs.rs:364-366 | flags are only added, each lies on a cycle, and the unflagged rows are acyclic |
| LockReport.Report | projects/config-tools/src/inputs.rs:255-369 | the whole report: rows resolved, cycle flags sound, rest acyclic, complete with all options, with a selection or without; refused only for a limit passed or a listed path without a node; within the limits a report of everything is given exactly when every input it meets has a node |
| MarkdownText.DecodeKeepsUnits | projects/markdown-core/src/lib.rs:60-63 | lossy decoding keeps the number of UTF-16 units and gives back all of them exactly when they are well paired |
| MarkdownEffects.DecodeEffect | projects/markdown-core/src/lib.rs:60-63 | what each unit or pair of units is decoded to |
| MarkdownText.NewSource | projects/markdown-core/src/lib.rs:59-82 | validity, unit count and offset table of a block |
| MarkdownText.OffsetTable | projects/markdown-core/src/lib.rs:65-74 | the table maps each character boundary to the units before it |
| MarkdownText.Source.Offset | projects/markdown-core/src/lib.rs:84-95 | by table, by ASCII or by counting, the offset is the unit count of the prefix |
| MarkdownText.UnitsBeforeMonotone | projects/markdown-core/src/lib.rs:84-95 | offsets grow with the byte position and never pass the end of the block |
| MarkdownText.BacktickBoundary | projects/markdown-core/src/lib.rs:143-157 | a backtick byte is a whole character |
| MarkdownRuns.RuleUnique | projects/markdown-core/src/lib.rs:133-139 | the rule for code spans determines the pairs |
| MarkdownEffects.RuleEffect | projects/markdown-core/src/lib.rs:133-190 | the rule without its order of looking: a pair opens with a run and closes with the first of the longest later runs that are not longer, pairs follow one another, and a run in no pair has no later run as short |
| MarkdownRuns.RunsUnique | projects/markdown-core/src/lib.rs:140-157 | the bytes determine the runs |
| MarkdownRuns.Scan | projects/markdown-core/src/lib.rs:140-157 | one pass finds all maximal runs and indexes them by length in order |
| MarkdownRuns.Drop | projects/markdown-core/src/lib.rs:162-166 | the run is in front of its queue and leaves the index of the later runs |
| MarkdownRuns.Take | projects/markdown-core/src/lib.rs:160-171 | the lookup yields the longest suffix with a later equal run, the earliest such run, or nothing exactly when there is none |
| MarkdownRuns.DropThrough | projects/markdown-core/src/lib.rs:177-187 | the runs up to the closing one leave the index |
| Markdown.OneNeighbour | projects/markdown-core/src/lib.rs:120-131 | the claim that starts last before the end decides overlap with all of them |
| Markdown.Parser.Emit | projects/markdown-core/src/lib.rs:106-118 | exactly the piece in UTF-16 units, within the block |
| Markdown.Parser.Claim | projects/markdown-core/src/lib.rs:120-131 | accepted exactly when it overlaps no earlier claim; claims stay disjoint |
| Markdown.Parser.Code | projects/markdown-core/src/lib.rs:133-190 | the spans and claims are those of the pairs of the rule, in order |
| Markdown.Parser.Format | projects/markdown-core/src/lib.rs:211-244 | a kept match is formatted by its kind: whole or body, then its marks |
| Markdown.Parser.Inline | projects/markdown-core/src/lib.rs:192-252 | code spans first, then the matches that are free of all earlier claims; nothing for blocks that are not eligible or when the budget is exhausted |
| Markdown.ClaimedIsMaximal | projects/markdown-core/src/lib.rs:200-210 | claims stay disjoint, none is given up, and every match is claimed or overlaps a claim |
| MarkdownEffects.FencesAlternate | projects/markdown-core/src/lib.rs:271-280 | without front matter a document is inside a fence exactly after an odd number of lines that begin with three backticks or tildes |
| MarkdownEffects.MatterUntilClosed | projects/markdown-core/src/lib.rs:257-270 | front matter lasts until its first closing line, and fences count from there |
| MarkdownEffects.StateEffect | projects/markdown-core/src/lib.rs:254-289 | the state a block leaves, from its first and last visible characters |
| MarkdownEffects.TrimIs | projects/markdown-core/src/lib.rs:256 | what is trimmed of a line, for any two places with white outside and none at the ends |
| MarkdownEffects.WhiteIs | projects/markdown-core/src/lib.rs:256 | the 25 characters that count as white |
| MarkdownEffects.FenceEffect | projects/markdown-core/src/lib.rs:271-280 | whatever the state, a fence line outside front matter is one muted span, and any other block in a fence one span of code |
| MarkdownEffects.FencedEffect | projects/markdown-core/src/lib.rs:271-280 | a fence line is one muted span, and every block between two of them one span of code |
| MarkdownEffects.MatterEffect | projects/markdown-core/src/lib.rs:257-270 | front matter is muted, monospaced behind its first line |
| MarkdownEffects.RulerEffect | projects/markdown-core/src/lib.rs:281-294 | a ruler of three signs or more is one muted span, and a blank block has none |
| MarkdownEffects.HeadingEffect | projects/markdown-core/src/lib.rs:295-307 | one to six signs with white behind them make a heading of that level, bold, its signs muted |
| MarkdownEffects.QuoteEffect | projects/markdown-core/src/lib.rs:308-313 | a quote is in italics, its sign muted |
| MarkdownEffects.ListEffect | projects/markdown-core/src/lib.rs:314-343 | marker and box of a list item, and what is struck through when the box is checked |
| MarkdownEffects.MarksEffect | projects/markdown-core/src/lib.rs:220-246 | colour and style of each kind of match, in UTF-16 units of its characters, and of its marks |
| MarkdownEffects.WikiEffect | projects/markdown-core/src/lib.rs:214-219 | a wiki link stands out as a whole with its brackets muted |
| MarkdownEffects.CodeEffect | projects/markdown-core/src/lib.rs:170-177 | a code span reaches from the last backticks of its opening run to the end of the closing one, both fences muted |
| MarkdownEffects.GreedyEffect | projects/markdown-core/src/lib.rs:200-212 | a match is claimed and formatted exactly when it overlaps nothing claimed before |
| MarkdownBlocks.Line | projects/markdown-core/src/lib.rs:291-343 | headings, quotes and list items: their spans and where the inline part begins |
| MarkdownBlocks.Block | projects/markdown-core/src/lib.rs:254-345 | the state and all spans of a block: its layout, and from where the inline part begins the code spans of the rule and the matches free of them, exactly for eligible blocks within the budget; which lines are what, over their characters: the lemmas of MarkdownEffects |
| MarkdownBlocks.Highlight | projects/markdown/markdownhighlighter.cpp:71-73 | for every block of UTF-16 units, these are its spans, and the range guard skips none of them; what spans and state these are over the characters: the lemmas of MarkdownEffects |
| Launch.FindClose | projects/config-tools/src/launch.rs:138-165 | the scan finds the matching brace, or tells why there is none |
| Launch.Escape | projects/config-tools/src/launch.rs:76-87 | a backslash escapes the four special bytes and a line feed, and stands for itself otherwise |
| Launch.Dollar | projects/config-tools/src/launch.rs:88-121 | substitutions, ordinary dollars and what is refused at a dollar |
| Launch.BracedAt | projects/config-tools/src/launch.rs:122-175 | defaults and alternatives; only a chosen alternative is expanded |
| Launch.Expand | projects/config-tools/src/launch.rs:57-178 | the expander computes the meaning of the template, errors and limits included |
| LaunchTemplates.ClosePrinted | projects/config-tools/src/launch.rs:138-162 | the brace found behind a printed alternative is its own |
| LaunchTemplates.ScanPrinted | projects/config-tools/src/launch.rs:57-178 | from any place in a template, reading a printed tree continues its value |
| LaunchTemplates.ExpandInvertsPrint | projects/config-tools/src/launch.rs:57-178 | expanding the printed form of a tree is evaluating the tree, for all trees and environments within the limits |
| LaunchEffects.SignEffect | projects/config-tools/src/launch.rs:63-87 | any sign but a dollar: a backtick is refused, an escaped dollar, backslash, backtick or quote gives that sign, an escaped line feed nothing, all else stands for itself |
| LaunchEffects.DollarEffect | projects/config-tools/src/launch.rs:88-121 | a dollar without a brace: commands and shell parameters are refused, a name gives its value, and otherwise it stands for itself |
| LaunchEffects.BracedEffect | projects/config-tools/src/launch.rs:99-175 | a braced name: its refusals, its value, and which of value and alternative is taken |
| LaunchEffects.ExpansionEffect | projects/config-tools/src/launch.rs:57-60 | templates that are too long, too deep or contain a zero byte are refused |
| LaunchEffects.VariableEffect | projects/config-tools/src/launch.rs:36-42 | a name is of letters, digits and underscores and begins with no digit |
| LaunchEffects.CloseEffect | projects/config-tools/src/launch.rs:138-162 | the steps to the closing brace: escapes are passed over, sixteen braces can be open |
| Encoding.ValueRead | projects/maintenance/src/model.rs:48-86 | the decoder reads back every encoded value, wherever it stands |
| Findings.EncodingDecodes | projects/maintenance/src/model.rs:48-86 | decoding an encoded value gives it back whatever follows |
| Findings.EncodingInjective | projects/maintenance/src/model.rs:48-86 | no two values share a text, and none is the beginning of another's |
| Findings.SignatureTellsContent | projects/maintenance/src/model.rs:87-91 | two findings have one fingerprint text exactly when they agree in everything but the key |
| FindingsEffects.SignatureEffect | projects/maintenance/src/model.rs:47-91 | the text of a fingerprint, field by field, with its names, separators and escapes |
| FindingsEffects.QuotedIs | projects/maintenance/src/model.rs:73-84 | how each character of a string is written |
| Findings.Buffer.Encode | projects/maintenance/src/model.rs:48-86 | the encoder appends the canonical text and nothing else |
| Findings.Buffer.EncodeText | projects/maintenance/src/model.rs:73-84 | the JSON text of a string with UTF-16 escapes beyond ASCII |
| Findings.Fingerprint | projects/maintenance/src/model.rs:47-91 | the text the fingerprint of a finding is the digest of |
| InboxTable.IdsDiffer | projects/maintenance/src/model.rs:344 | an id names one source and one key, since sources have no colon |
| InboxLoading.LoadInv | projects/maintenance/src/model.rs:221-288 | whatever the file holds, a start gives an inbox that meets the invariants, with no diagnostics and no analyses |
| InboxLoading.RestartKeeps | projects/maintenance/src/model.rs:232-288 | a start from a written file brings no row that was not there, and a row keeps its identity, revision, recurrence, resolution and fingerprint; its texts are cleaned and its actions filtered once more |
| InboxLoading.RestartFields | projects/maintenance/src/model.rs:249-256 | a written row has the same fields after a start exactly when its texts are fixed by another cleaning and its actions by another filtering |
| InboxLoading.PublishedFixed | projects/maintenance/src/model.rs:337-385 | a published row carries the fingerprint of its fields, and is so fixed exactly when cleaning the cleaned finding once more leaves its texts |
| InboxInvariants.PublishContent | projects/maintenance/src/model.rs:337-396 | after publishing, the row and its diagnostic say the cleaned finding, and the fingerprint is that of it |
| InboxInvariants.PublishOne | projects/maintenance/src/model.rs:350-389 | the revision rises by one exactly when the row is back or its fingerprint is another |
| InboxInvariants.KnownRevisionLaw | projects/maintenance/src/model.rs:350-389 | for a known row: exactly when it is back or says something else |
| InboxInvariants.PublishKeeps | projects/maintenance/src/model.rs:314-398 | publishing keeps the invariants and every other row |
| InboxInvariants.ResolveKeeps | projects/maintenance/src/model.rs:399-415 | resolving keeps the invariants; no revision rises |
| InboxInvariants.PruneKeeps | projects/maintenance/src/model.rs:289-299 | pruning keeps the invariants and the revisions of rows that stay |
| InboxTransactions.PublishUnchanged | projects/maintenance/src/model.rs:349-397 | a finding that is no news notifies nobody and keeps the revision; it changes nothing at all exactly when the row was known |
| InboxTransactions.CheckTransaction | projects/maintenance/src/service.rs:182-211 | after a check the source's open rows are exactly the reported keys and say what was reported; other sources' rows are as before apart from expired history; a check with nothing to write leaves the inbox as it was exactly when the reported rows were known |
| InboxTransactions.UnchangedReportIsSilent | projects/maintenance/src/service.rs:187-209 | there is nothing to write exactly when every finding matches its open row and no open row is missing; then nobody is notified and no revision rises |
| InboxEffects.PublishEffect | projects/maintenance/src/model.rs:337-397 | a publication notifies exactly when the finding is new, back or says something else than its fingerprint, is urgent (now or soon), and its snooze is over or it presses more than before; the row field by field, the diagnostic, and no other row |
| InboxEffects.CheckNotifies | projects/maintenance/src/service.rs:182-209 | a check returns, in the order of the report, the rows of exactly those findings of which a publication would notify in the inbox as it was before |
| InboxEffects.CheckEffect | projects/maintenance/src/service.rs:182-205 | what a check stages, row by row: reported findings have their rows, the other open rows of the source have ended, all else stays |
| InboxEffects.PublishRefuses | projects/maintenance/src/model.rs:320-389 | why a finding is refused: source, key and actions, size of the diagnostic, empty title, capacity, counters, in this order, and else not at all |
| InboxEffects.VerdictEffect | projects/maintenance/src/service.rs:176-206 | why a check fails: its source, its collector, more than 512 findings, the first finding that is refused or repeats a key, and last size and writing if there is anything to write |
| InboxEffects.OperateEffect | projects/maintenance/src/model.rs:422-448 | done ends a notice, snooze puts a row off for a minute up to thirty days from now, unsnooze ends that; every refusal |
| InboxEffects.ResolveEffect | projects/maintenance/src/model.rs:407-414 | an open row ends at this moment and loses what belongs to it, and nothing else changes |
| InboxEffects.PruneEffect | projects/maintenance/src/model.rs:289-299 | which rows stay, and what of them: a week after they were resolved they go, with what belongs to them |
| InboxEffects.CommitEffect | projects/maintenance/src/service.rs:87-100 | what a commit with something to write leaves out |
| InboxEffects.RecentEffect | projects/maintenance/src/model.rs:294-296 | the outcomes of the last week stay, in their order |
| InboxEffects.ReportEffect | projects/maintenance/src/model.rs:449-462 | the new outcome comes last, and from twenty on the first one goes |
| InboxEffects.AnalyzeEffect | projects/maintenance/src/service.rs:346-502 | marking and freeing a row, and an analysis that is kept only for an open row |
| InboxEffects.LoadRowEffect | projects/maintenance/src/model.rs:236-277 | which rows of a file are dropped, and each field of those that are read |
| InboxEffects.RetainedEffect | projects/maintenance/src/model.rs:257 | of the actions of a row that is read those stay, in their order, that the source offers |
| InboxEffects.DedupEffect | projects/maintenance/src/model.rs:258 | of neighbours that are the same action one stays |
| InboxEffects.RememberedEffect | projects/maintenance/src/model.rs:259-270 | of its outcomes those of offered actions and analyses of the last week, their results cleaned |
| InboxEffects.StartEffect | projects/maintenance/src/model.rs:228-288 | of the rows that are read a start keeps those that are open or were resolved in the last week |
| InboxEffects.LoadEffect | projects/maintenance/src/model.rs:235-276 | of the rows of a file with one id the last that is read stays |
| InboxRuns.StepKeeps | projects/maintenance/src/service.rs:265-383 | every kind of step of a running service keeps the invariants and the law of revisions |
| InboxRuns.AnyStepKeeps | projects/maintenance/src/model.rs:216-312 | so does a restart, as far as fingerprints tell, whether the file has all outcomes, lags behind or is a step ahead |
| InboxRuns.RunKeeps | projects/maintenance/src/service.rs:486-502 | in every state of every run, begun with any file and with restarts and failing saves in it, diagnostics and analyses belong to open rows, and another start would count as one step at most |
| InboxRuns.CurrentMeansUnchanged | projects/maintenance/src/model.rs:416-421 | while a row stays and the service runs, a revision current at two moments was current in between; the content is the same exactly when the row was known at both or at neither, and so if it was known at the first |
| InboxRuns.CurrentAcrossRestarts | projects/maintenance/src/model.rs:216-312 | with restarts as well, a revision current at two moments was current in between, and a diagnostic shown at both is the same; the fields of a row whose fingerprint was theirs are the same exactly when it still is, and so if they were fixed and the file had no others |
| InboxRuns.SavedLasts | projects/maintenance/src/model.rs:300-312 | right after a save that last condition is a matter of the row alone |
| InboxExamples.RevisionsRestart | projects/maintenance/src/model.rs:289-293 | a concrete run in which a dropped row comes back with an old revision and other content |
| InboxExamples.RestartShowsLess | projects/maintenance/src/model.rs:216-288 | a concrete run with a restart in which one revision shows a diagnostic, none, and the diagnostic again |
| InboxExamples.RestartCleansAgain | projects/maintenance/src/model.rs:29-35 | a concrete run with a restart in which one revision has a title and then another, since cleaning it twice is not cleaning it once |
| Inbox.Inbox.constructor | projects/maintenance/src/model.rs:220-288 | a start loads the rows on disk one by one, whatever they are, into an inbox in order |
| Inbox.Inbox.Publish | projects/maintenance/src/model.rs:314-398 | row, notification and change of a finding, or the error with the inbox untouched; over the fields: InboxEffects.PublishEffect and PublishRefuses |
| Inbox.Inbox.Resolve | projects/maintenance/src/model.rs:399-415 | an open row is resolved and loses diagnostic and analysis; errors for unknown sources and bad keys |
| Inbox.Inbox.Prune | projects/maintenance/src/model.rs:289-299 | rows resolved for a week, old outcomes and orphaned payloads are dropped |
| Inbox.Inbox.Operate | projects/maintenance/src/model.rs:422-448 | done, snooze and unsnooze on a current revision, with every refusal |
| Inbox.Inbox.Finish | projects/maintenance/src/model.rs:449-462 | an outcome is appended, twenty are kept, and the row is free again |
| Inbox.Service.Commit | projects/maintenance/src/service.rs:87-100 | the staged inbox becomes live exactly when a change fits and is written |
| Inbox.Service.Check | projects/maintenance/src/service.rs:175-221 | success commits the whole report; any failure leaves the live inbox untouched and is noted; who is notified and what becomes of each row: InboxEffects.CheckNotifies and CheckEffect |
| Inbox.Service.Publish | projects/maintenance/src/service.rs:291-315 | one finding as a transaction: committed exactly when valid and, if changed, written; who is notified: InboxEffects.PublishEffect |
| Inbox.Service.Operate | projects/maintenance/src/service.rs:316-324 | an operation as a transaction |
| Inbox.Service.Start | projects/maintenance/src/service.rs:316-346 | an action starts exactly when its row is current and free, fewer than eight run, and it is registered and confirmed |
| Inbox.Service.End | projects/maintenance/src/service.rs:357-361 | a finished action frees its slot and its row |
| MaterializeTree.InstallMeets | projects/config-tools/src/materialize.rs:270-285 | one install from a larger tree below the final one stays between the two runs |
| MaterializeTree.ListedStand | projects/config-tools/src/materialize.rs:269-289 | what is listed while installing is exactly the wanted links that stand before publication |
| MaterializeTree.LinksResume | projects/config-tools/src/materialize.rs:262-285 | from wherever a refresh was stopped, removing and installing once more ends with the same tree and the same list |
| MaterializeManifest.Resumes | projects/config-tools/src/materialize.rs:219-300 | run again from wherever it was stopped before publication, a refresh ends with the same result, links and manifest, exactly when it is resumable: a property of the tree before it and of the wanted names |
| MaterializeManifest.ManifestStands | projects/config-tools/src/materialize.rs:269-299 | the published manifest lists exactly the wanted links that stand, exactly when there was a manifest before or none of them has its name |
| MaterializeManifest.RefreshChanges | projects/config-tools/src/materialize.rs:219-300 | besides the manifest, a refresh changes only recorded links and adds only directories and wanted links |
| MaterializeManifest.NamesakeStops | projects/config-tools/src/materialize.rs:219-299 | the first refresh from a source with a file of the manifest's name: stopped late it can never be run again, and run to its end it lists a link that does not stand |
| MaterializeTree.OnlyOwnLinksChange | projects/config-tools/src/materialize.rs:262-285 | no entry changes but recorded links with their recorded target; what is new is a directory or a wanted link |
| MaterializeEffects.RefreshStops | projects/config-tools/src/materialize.rs:217-227 | which trees a refresh refuses or finds up to date, from the manifest or else the generation file in them; it changes nothing then |
| MaterializeEffects.RefreshEffect | projects/config-tools/src/materialize.rs:217-300 | a refresh path by path: what is not recorded stays, and all else in the end is a wanted link whose way was open or a directory on the way to one |
| MaterializeEffects.OldLinksGo | projects/config-tools/src/materialize.rs:228-268 | no link that the manifest, or else the older generation, records stands after a refresh unless it is wanted |
| MaterializeEffects.WantedStands | projects/config-tools/src/materialize.rs:262-285 | a wanted link stands in the end exactly when nothing but recorded links was in its place and only directories or recorded links on its way; a name held by an old link carries the wanted target |
| MaterializeEffects.ManifestEffect | projects/config-tools/src/materialize.rs:269-299 | the published manifest has the generation and lists in order the wanted links that stand, when none has its name |
| MaterializeEffects.WorkVerdict | projects/config-tools/src/materialize.rs:286-299 | a refresh with something to do fails only for a manifest that is too long or a directory in its place; the tree stays well formed |
| Materialize.Store.Parent | projects/config-tools/src/materialize.rs:107-132 | the directories on the way, made when allowed, or nothing changed when one is something else |
| Materialize.Store.RemoveAll | projects/config-tools/src/materialize.rs:262-268 | exactly the recorded links that are there are removed |
| Materialize.Store.InstallAll | projects/config-tools/src/materialize.rs:269-285 | wanted links are added at free names and listed when they stand |
| Materialize.Store.Materialize | projects/config-tools/src/materialize.rs:197-300 | result and final tree of a refresh, manifest included; every state on the way is one that the results above speak of; path by path, from the two files in the tree: MaterializeEffects.RefreshEffect and WantedStands |
| Jpeg.FindMarker | projects/config-tools/src/picture.rs:132-145 | the end of entropy-coded data, past stuffing, restarts and fill bytes |
| Jpeg.Check | projects/config-tools/src/picture.rs:79-150 | the walk ends, reads in range and gives the specified verdict |
| JpegLayout.Accepts | projects/config-tools/src/picture.rs:79-150 | every printed, drawable list of items is accepted, whatever trails it |
| JpegLayout.Splits | projects/config-tools/src/picture.rs:79-150 | every accepted file splits into such a list |
| JpegLayout.AcceptedIsLayout | projects/config-tools/src/picture.rs:79-150 | accepted exactly when the file is such a print, each frame within 256 MiB at four bytes a pixel |
| JpegEffects.LaidOutIsJudged | projects/config-tools/src/picture.rs:79-150 | the verdict on every file that is laid out in items: height and width are read from their two bytes each, and the first item that is out of place, too short, empty or larger than 256 MiB decides |
| JpegEffects.ItemsAre | projects/config-tools/src/picture.rs:99-146 | which markers stand alone, which head a segment, and what entropy-coded data consists of |

## Left out

- BrokerWakeups.NoWakeupIsLost: only runs that clear a closed broker, because clearing an open one does lose wake-ups; BrokerWakeups.ClearWakes gives the exact condition.
- BrokerHistory.CleanUpLeavesNothing: a job stays when the broker was closed before the release, because a closed broker refuses every call; the statement is an equivalence.
- InboxRuns.CurrentMeansUnchanged: holds while the row stays and the service runs, because dropped rows begin again at revision one and loaded rows have no diagnostic; InboxExamples.RevisionsRestart and InboxExamples.RestartShowsLess show it, and the content is stated by an equivalence.
- InboxRuns.CurrentAcrossRestarts: fields need not last, because a start cleans texts again; InboxExamples.RestartCleansAgain shows it, InboxLoading.RestartFields is the equivalence. The registered actions of a source do not change between starts.
- MaterializeManifest.Resumes: not from every source, because the manifest stands among the links; the statement is an equivalence.
- MaterializeEffects.WantedStands: only for wanted names of which none before is the same, above or below, because collecting from a directory gives no others.
- MaterializeEffects.ManifestEffect: only if no wanted link has the manifest's name; MaterializeManifest.ManifestStands is the equivalence.
- LaunchTemplates.ExpandInvertsPrint: literal text inside an alternative has no closing brace, because the syntax has no escape for one.
- LockReport.Report: rows come in the order they are found; sorting them, their locked metadata and source addresses are not modelled, and the length of a row's JSON text is a parameter.
- Markdown.Parser.Inline: the matches of the seven patterns and whether the budget ran out are parameters, because PCRE2 and its deadline are foreign; matches are nonempty and end at character boundaries.
- Broker: one clock stands for the monotonic and the wall clock; a worker's timer runs from the moment it read the table; overflow of sequence and attempt counters is not modelled.
- Broker: what the runner and the schema validation return and the model it selects are parameters, the metadata shown of a job is left out; `configuration`, `idle` and request parsing are left out.
- Lock graph: the checks of `Graph::new` appear only as the shape they leave; maps are walked in any order, and results hold for each.
- Launch: the manifest, the order of exports and starting the program are left out.
- Maintenance: decoding the state file into rows, an unreadable file, publishers, how notifications are sent, actions' commands, the coalescing of concurrent checks and the shutdown flag are left out; cleaning of texts is any function (the example's is one that masks first and drops afterwards), writing may fail at will, and the clock stands after the epoch.
- Maintenance: times are real numbers, so rounding of floating-point times is not modelled.
- Materialize: file ownership, modes, locks and races with other programs are left out; collecting links from the source or from an older generation is a parameter, as is whether a manifest fits; a link's target stands for its components, since targets are compared as paths; publication is one step, and its temporary file is not an entry.
- PNG decoding, SHA-256, JSON Schema, D-Bus, sockets, themes, wallpapers' schedules and the user interface are not part of this model.
