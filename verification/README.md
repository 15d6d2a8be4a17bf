# A verified model of the prefetching experiments

AgentStage watches a language-model agent think, guesses from its words which data files
it is about to open, and stages them on fast storage before the agent's tools need them.
This project models the code that runs and measures it: the live agent loops, the staging
dispatch, the replay of recorded sessions, the transcoding of cold files, and the
arithmetic that turns recordings into reported numbers. It proves properties of those
models for all inputs, all runs and all schedules.

The detector, the stager and the language model are not part of this model. They appear as
parameters: a function from a conversation to an answer, lists of activations, measured
durations, what exists on disk. Times are exact reals.

| module | what it models |
|---|---|
| `Common`, `StableSort`, `MaxPlus` | lists, Python's stable `sorted`, and the single-server recursion that both the proxy and the replay clock follow |
| `Percentile`, `ProxyOverhead` | delivery of a recorded event stream through the capture proxy and its latency statistics |
| `Trajectory`, `Replay`, `Isolation` | loading a recorded session, replaying it on a clock, and what two replays have in common |
| `Amdahl` | the speedup figures of a replayed cell and the choice of three repetitions |
| `Publish` | workers that write a temporary file and then replace their destination |
| `Paths`, `Dispatch`, `TurnDispatch`, `DsbSession` | logical and real paths, capped and deduplicated staging: one batch, a replayed turn, a whole session |
| `ToolCalls`, `Conversation` | assembling streamed tool calls, and the shape of the conversation over every run |
| `BoxRead` | the whole-array script and its bounding-box variant |
| `Activation`, `CaseFacts`, `CutFacts`, `ClampFacts` | detection latency by incremental search, what its matching ignores, how far it depends on the cuts of the text, and its clamp at zero |
| `WallTime` | two decompositions of a session's wall time |

Code that works step by step is a method or a class here, proved against a specification
function; the promises are lemmas about those functions. Rebuilt results and recorded
state are compared with independent definitions: a closed form for the delivery recursion,
a count for the percentile, one search over the whole text for the incremental scan, the
whole read for the bounding-box read, the four-bucket split for the five-bucket split.
Specification functions that select, order or join things are pinned down by position:
which lines of a log, which pieces of a stream, which cells of an array or which blocks of
an answer a result comes from, each once, and in which order.

## Where the code and its documentation differ

The model follows the code.

* `proxy_overhead.py` expects a proxy that does not buffer to add only an event's own
  processing time. `ProxyOverhead.PassThroughIff` says exactly when that holds: each event
  is processed before the next one is emitted (`ProxyOverhead.QueueCanForm` has an input
  where it is not).
* `replay_session.py` says in a comment that the streaming budget is the duration minus
  the shells that succeeded (line 397); the code subtracts all shells, killed ones
  included. `Isolation.Fidelity` gives the exact distance between a faithful replay and the
  duration without killed shells.
* `replay_session.py` calls its dispatcher a mirror of the live one. The live runner makes
  one call per turn for the thinking source, the replay one call per block, each with an
  empty memory. Whatever the cap, the replay stages no file that the live runner leaves
  out, and stages the same lists if and only if no two blocks of the turn, each dispatched
  alone, take a common file (`TurnDispatch.TurnStagesTheSameIff`). Where the cap cuts
  nothing both stage the same files, and the same lists if and only if no two blocks detect
  a common file (`TurnDispatch.UncutTurnIff`, with an input that differs in
  `TurnDispatch.TurnCanDiffer`); under a binding cap the replay can stage fewer files
  (`TurnDispatch.CappedTurnStagesLess`).
* `amdahl_analysis.py` reports a "ceiling" and an efficiency against it. The shell share is
  multiplied by the saved fraction twice, so that for cells that share their time outside
  the shells the ceiling is at most the measured speedup, and the efficiency at least one,
  exactly when staging makes no shell slower (`Amdahl.SharedOverheadBounds`).
  `Amdahl.CeilingAgainstSpeedup` has the exact condition for every analysed cell with
  non-negative times, including when the ceiling is a number at all.
* `build_fig_motivation.py` promises five buckets that sum to the session's length. They
  sum to the larger of that and the turns' durations (`WallTime.FiveSumToTotalIff`).
  `decompose_wall_time.py` promises four buckets that sum to the wall time; they sum to the
  turns' durations (`WallTime.FourSumToTotalIff`). `WallTime.SumsCanDiffer` has inputs.
* `aiob_multiturn.py` promises that `_resolve` handles nested prefixes; `resolve_logical`,
  which decides what is staged, takes the first match. They agree exactly on maps that send
  their own prefixes home (`Paths.StagedIsOpenedIff`), not on a map that lists a general
  prefix before a special one (`Paths.GeneralFirstDisagrees`).
* A comment in `aiob_multiturn.py` (lines 296-298) calls the fallback of `_resolve` one for
  malformed paths under the canonical dataset. It also takes paths outside it: a path that
  no entry covers but that starts with the first entry's name, such as `/data/d2/f` next to
  `/data/d/`, opens a file of the first entry, while staging leaves it alone
  (`Paths.FallbackIsFirstEntry`, `Paths.SiblingOpensFirstEntry`, `Paths.SiblingPrefix`).
* `dsbench_multiturn.py` counts prefetched files. In the Anthropic loop, whose memory is
  cleared for each batch, the count is of distinct files if and only if no two batches of
  the session detect a common file and each activation lists once what no earlier one of
  its batch detected (`DsbSession.ForgetfulCountIff`); for detections without duplicates, if
  and only if no two batches detect a common file (`DsbSession.ForgetfulCountsDistinct`).
  Two turns that detect one file count two (`DsbSession.ForgetfulCanRepeat`).
* The header of `aiob_multiturn.py` gives 200 as the bucket cap; the code reads it from the
  environment with default 100000. The cap is a parameter here.
* `build_fig_activation.py` clamps a latency at zero. The clamp is idle for all rules and
  tasks if and only if no character of the session is earlier than its first delta
  (`ClampFacts.ClampIdleIff`). A well-formed session meets that condition
  (`ClampFacts.ClampNeverBinds`); one whose summary lacks a logged turn need not
  (`ClampFacts.ClampCanBind`).
* The same script fires rules by name, once per name. Whether and when a name fires never
  depends on how the text was cut (`CutFacts.NameTimeIsCutFree`). Which of its rules fires
  never does if and only if, of every name, the first listed pattern occurs in all the
  others (`CutFacts.WinnerCutsIff`); whether that firing is correct never does if and only
  if the rules of the name that can fire at all stand for the same keys
  (`CutFacts.CorrectCutsIff`), and then neither does the latency
  (`CutFacts.CutsDoNotMatter`, with an input where it does in
  `CutFacts.SharedNameCutsMatter`). Every rule fires exactly when its own pattern occurs if
  and only if no two rules share a name (`CutFacts.DistinctNamesIff`). An empty pattern
  breaks the script exactly when the first delta has no text (`Activation.Latency`).

## Model

| member | source | states |
|---|---|---|
| StableSort.SortedFacts | scripts/microbench/proxy_overhead.py:88 | sorting keeps the elements with their multiplicities and orders them by key |
| StableSort.SortedStable | scripts/microbench/replay_session.py:159-170 | sorting keeps the order of elements with equal keys, for every key |
| StableSort.SortedPositions | scripts/microbench/replay_session.py:159-170 | sorting is one rearrangement by position: every entry once, by key and, for equal keys, by its place in the list |
| MaxPlus.ClosedForm | scripts/microbench/proxy_overhead.py:183-191 | the single-server recursion equals the maximum of "all work done from the start" and "waited last for job j, then all work from j on", over all j: an upper bound of each and attained by one |
| MaxPlus.FinishMonotone | scripts/microbench/proxy_overhead.py:187-190 | pointwise more work never finishes earlier |
| MaxPlus.FinishShift | scripts/microbench/replay_session.py:376-401 | starting everything later by d finishes everything later by d, so a turn's time does not depend on when it starts |
| ProxyOverhead.SessionFacts | scripts/microbench/proxy_overhead.py:85-94 | a session keeps every record, starts at zero, emits in ascending order, preserves all recorded gaps, where a record without a time counts as zero, and notices thinking exactly when a record has it |
| ProxyOverhead.FifoDeliver | scripts/microbench/proxy_overhead.py:183-191 | the delivery loop returns, for each event up to the shorter list, the latest of emit[j] plus all processing from j to it |
| ProxyOverhead.DeliveryOrder | scripts/microbench/proxy_overhead.py:183-191 | with non-negative processing, events leave in the order they came, and none before it is emitted and processed |
| ProxyOverhead.SkewBounds | scripts/microbench/proxy_overhead.py:183-191 | an event's delay is at least its own processing and at most all processing so far |
| ProxyOverhead.DeliveryMonotone | scripts/microbench/proxy_overhead.py:183-191 | a proxy that is slower on every event delivers no event earlier |
| ProxyOverhead.FreeDelivery | scripts/microbench/proxy_overhead.py:35-36 | with zero processing events arrive exactly when they are emitted |
| ProxyOverhead.PassThroughIff | scripts/microbench/proxy_overhead.py:41-43 | every event is delayed by its own processing alone if and only if each is processed before the next is emitted |
| ProxyOverhead.QueueCanForm | scripts/microbench/proxy_overhead.py:183-191 | an event emitted while the one before it is processed waits for it |
| ProxyOverhead.ReplaySession | scripts/microbench/proxy_overhead.py:233-237 | one replay's span, latency and per-event skews: never faster with the proxy, slower by at most the work measured, and each skew the latest departure minus the emission |
| ProxyOverhead.BuildProxyOverhead | scripts/microbench/proxy_overhead.py:222-270 | whole passes over the sessions until ten thousand events and no pass more; one latency pair per replay and one skew per event, in order; the 99th percentile with the proxy lies between the one without it and that plus the largest work of a replay; the reported ratio is at least one when it exists |
| Percentile.RoundHalfEvenFacts | scripts/microbench/proxy_overhead.py:205 | the rounding used for the rank is nearest, to even on ties, and monotone |
| Percentile.PctMeaning | scripts/microbench/proxy_overhead.py:198-206 | a percentile is one of the numbers, and is at most v exactly when more than `rank` of the numbers are |
| Percentile.PctNearest | scripts/microbench/proxy_overhead.py:198-206 | without naming the rank: of n numbers a percentile is one, and is at most v exactly when more of them are than the whole number nearest to q percent of n - 1, the even one of two, within 0 and n - 1 |
| Percentile.PctShift | scripts/microbench/proxy_overhead.py:198-206 | if each number grows by at most delta so does every percentile; with delta zero, pointwise dominance orders all percentiles |
| Percentile.PctMonotone | scripts/microbench/proxy_overhead.py:209-215 | a higher percentile is never smaller, so p50, p95, p99 are ordered |
| Trajectory.GroupLog | scripts/microbench/replay_session.py:143-155 | grouping a log gives each block id exactly its own deltas in file order |
| Trajectory.BlocksOf | scripts/microbench/replay_session.py:157-169 | one block per id that occurs in the log, built from that id's deltas alone |
| Trajectory.LoadBlocks | scripts/microbench/replay_session.py:143-170 | each block of the list is the lines of its id in its own log, each once, by time and then file order, their texts one after the other, stopping with the last; blocks come by stop time, thinking before text, then by first line; every delta is in exactly one block and every character is kept |
| Trajectory.BlockReads | scripts/microbench/replay_session.py:157-169 | where each line's text stands in its block: from the total length of the texts before it, with the block as long as all of them |
| Trajectory.TiesInOrder | scripts/microbench/replay_session.py:156-170 | blocks that stop at the same time come thinking first, then by first appearance |
| Trajectory.SameBeginningsSameList | scripts/microbench/replay_session.py:143-170 | logs that agree block by block and begin their blocks in the same order give the same list, ties included |
| Trajectory.StopIsLatest | scripts/microbench/replay_session.py:160 | a block stops at the largest time stamp among its deltas |
| Trajectory.InOrderText | scripts/microbench/replay_session.py:159-161 | a block logged in time order reads as its own lines in file order, one after the other |
| Trajectory.InterleavingIrrelevant | scripts/microbench/replay_session.py:143-170 | re-interleaving the logs gives the same blocks, and the same list of them when stop times differ |
| Trajectory.ParseTools | scripts/microbench/replay_session.py:186-210 | each tool use gets the exit code and seconds that the last result with its id reports, none and zero when that reports none or is missing; all and killed (-9) shell seconds are summed |
| Trajectory.ShellSplit | scripts/microbench/replay_session.py:208-210 | all shell seconds are the killed ones plus the surviving ones |
| Trajectory.ShellTotals | scripts/microbench/replay_session.py:208-210 | the three shell totals are the sums of the seconds of all tools, of those with exit code -9, and of the others |
| Trajectory.LoadTurn | scripts/microbench/replay_session.py:139-232 | a loaded turn has the rebuilt blocks, the parsed tools, the latest stop as last delta, and as budget the larger of that and the duration without all shells |
| Trajectory.LoadTrajectory | scripts/microbench/replay_session.py:135-243 | all turns in order, with the number of tools with exit code -9 and the sum of their seconds over the session |
| Replay.Replayer.SleepUntil | scripts/microbench/replay_session.py:378-380 | the clock moves to the target if it is ahead and stays otherwise |
| Replay.Replayer.ReplayStream | scripts/microbench/replay_session.py:372-401 | the stream phase lasts as long as the max-plus form of block targets and detector work, never less than the budget; in staged mode the hints of each block are recorded in order, in cold mode none |
| Replay.Replayer.ReplayTools | scripts/microbench/replay_session.py:403-422 | exactly the tools not killed run, and the clock advances by their time |
| Replay.ToolTotals | scripts/microbench/replay_session.py:403-422 | the time of a turn's tools is the sum over those without exit code -9, and the counters are the numbers of executed tools, of shell commands among them and of skipped tools |
| Replay.Replayer.ReplayTurn | scripts/microbench/replay_session.py:369-451 | one turn's clock, hints, detector turn and report |
| Replay.ResultsIff | scripts/microbench/replay_session.py:423-435 | results are worked on exactly when some tool of the turn was not killed |
| Replay.ReportTells | scripts/microbench/replay_session.py:442-451 | a report has the turn's number, its recorded duration, its executed shell commands, its skipped kills, and as time the stream phase, the executed tools and the work on results |
| Replay.Replayer.ReplaySession | scripts/microbench/replay_session.py:362-453 | elapsed time is the sum of the turn times, the hints are those of the session, and the prefetch counter is the number of files in them |
| Replay.SessionHintMembers | scripts/microbench/replay_session.py:381-435 | a hint is recorded exactly when the replay is staged and a dispatch of some block, or of the results of a turn with a tool not killed, gives it under the configured map, check and cap |
| Replay.SessionHintsInOrder | scripts/microbench/replay_session.py:362-453 | the hints of more turns come after those of the earlier ones |
| Isolation.HiddenIff | scripts/microbench/replay_session.py:376-401 | the stream phase ends exactly at its budget if and only if, for every block, its capped stop time plus all work from it on is within the budget |
| Isolation.StreamPhaseClosedForm | scripts/microbench/replay_session.py:376-401 | otherwise it ends at the max-plus maximum over the blocks, which is attained |
| Isolation.CappedPhase | scripts/microbench/replay_session.py:365-401 | the stream phase lasts at least the smaller of the turn's streaming time and the cap, at most that plus the work done in it, and exactly that, never above the cap, when the work is free |
| Isolation.TimeByCause | scripts/microbench/replay_session.py:369-453 | a session's time is its budgets plus executed tool time plus exposed overhead |
| Isolation.ExposedBounds | scripts/microbench/replay_session.py:372-435 | of the measured detector and dispatch work, recorded streaming absorbs none to all: what it leaves is non-negative and at most that work |
| Isolation.IsolationGap | scripts/microbench/replay_session.py:369-453 | for any two replays of a trajectory, the difference of their times is that of their tool times up to the detector and dispatch work measured in each |
| Isolation.HiddenIsolates | scripts/microbench/replay_session.py:369-453 | the gap is zero when stream-phase overhead is hidden in both and working on tool results takes as long |
| Isolation.SameOverheadIsolates | scripts/microbench/replay_session.py:369-453 | the same, hidden or not, for equal detector and dispatch costs |
| Isolation.FaithfulTime | scripts/microbench/replay_session.py:189-221 | if tools take their recorded time and all else is free, elapsed time is the sum of each turn's streaming time or the cap, whichever is smaller, plus the shell seconds not killed, and at most the cap per turn plus those seconds |
| Isolation.Fidelity | scripts/microbench/replay_session.py:212-221 | with no cap binding, a faithful replay takes the original time without killed shells, plus exactly the time by which deltas run into recorded shell time |
| Isolation.ReportsAddUp | scripts/microbench/replay_session.py:442-453 | the reported turn times sum to the session time |
| Amdahl.CeilingExists | scripts/microbench/amdahl_analysis.py:116-129 | where shells fit in the session and staging does not slow them, the denominator is positive, so the infinite branch is never taken, and the ceiling is at least one |
| Amdahl.CeilingAgainstSpeedup | scripts/microbench/amdahl_analysis.py:116-129 | for every analysed cell with non-negative times: exactly when the ceiling is finite, that it is then at least one, and exactly when it is at most, or equal to, the measured speedup, whether staging makes the shells faster or slower |
| Amdahl.CeilingBySplit | scripts/microbench/amdahl_analysis.py:116-129 | for sessions split into shell time and the rest, the ceiling is finite, and at most the speedup if and only if the saved shell time pays for what staging adds elsewhere |
| Amdahl.SharedOverheadBounds | scripts/microbench/amdahl_analysis.py:116-129 | with equal time outside the shells, the ceiling is at least one; it is at most the speedup, and the efficiency at least one, exactly when staging makes no shell slower; they meet only when it changes nothing |
| Amdahl.ReplayedCell | scripts/microbench/amdahl_analysis.py:199-224 | the exact comparison for every replayed cell whose tool time is shell time, in terms of exposed overhead |
| Amdahl.IsolatedCell | scripts/microbench/amdahl_analysis.py:199-224 | under mechanism isolation the ceiling of such a cell is at most the speedup exactly when staged shell time is at most cold shell time |
| Amdahl.SelectCanonical | scripts/microbench/amdahl_analysis.py:170-245 | every key keeps exactly its first three usable repetitions in order, and the loop stops with a division by zero exactly when a cell without staged time is reached before its key is full |
| Amdahl.FirstRepetitionsMeaning | scripts/microbench/amdahl_analysis.py:170-245 | the kept cells of a task and model, by position: the first of its usable repetitions, at most three, and fewer only when there are no more |
| Amdahl.UsableMeaning | scripts/microbench/amdahl_analysis.py:170-222 | a usable cell is from a campaign without leading underscore that the grid lists for its task and model, has all four times, and has staged shell time or no shell time at all |
| Amdahl.AbortsMeaning | scripts/microbench/amdahl_analysis.py:170-200 | the cell that stops the loop: eligible, staged time zero, and fewer than three usable repetitions of its task and model before it |
| Amdahl.FiguresMeaning | scripts/microbench/amdahl_analysis.py:199-224 | a kept cell's speedups, shell share, saved share, ceiling and efficiency are determined by its four times, with a cell without shell time counted as pure streaming |
| Amdahl.CoverageIff | scripts/microbench/amdahl_analysis.py:246-253 | a key is reported as incomplete exactly when it has fewer than three usable repetitions |
| Publish.BuildJobs | outputs/e2e/transcode.py:69-73 | one job per source, with its path mirrored under the hot root |
| Publish.BaseMeaning | outputs/e2e/transcode.py:62-73 | the directory that sources are mirrored under: the hot root, seen from the working directory when it is relative, without its final slashes, or the working directory for an empty one |
| Publish.MirroredPathsApart | outputs/e2e/transcode.py:69-73 | distinct sources never share a destination or a temporary, and no temporary is any job's destination, for any hot root and working directory |
| Publish.MirroredSourcesUntouched | outputs/e2e/transcode.py:62-73 | no worker writes a source, as long as no source lies below the directory that the hot root, absolute or relative, leads to |
| Publish.RunKeepsInv | outputs/e2e/transcode.py:24-57 | after every schedule, each worker's temporary holds what it has written so far and each destination is either untouched or completely written |
| Publish.RunFrame | outputs/e2e/transcode.py:24-57 | files that are nobody's destination or temporary never change |
| Publish.ReadersSeeWholeFiles | outputs/e2e/transcode.py:24-57 | at every point of every interleaving, with any failures, a reader of a destination sees the earlier content or the complete transcoding of its source |
| Publish.ReadersSeeSomethingWhole | outputs/e2e/transcode.py:24-57 | the same for a complete transcoding of what was opened, even where destinations are sources |
| Publish.PublishedStays | outputs/e2e/transcode.py:54-57 | a published file is never changed or taken back by later steps or failures |
| Publish.Verdict | outputs/e2e/transcode.py:77-92 | exit status zero if and only if every job succeeded, and the byte totals are the sums over the successes |
| Publish.SuccessMeansComplete | outputs/e2e/transcode.py:77-92 | if all workers report success, every destination is the complete transcoding of its original source |
| Publish.MainPublishes | outputs/e2e/transcode.py:60-92 | the whole program, from the list of files to the exit status: at every point of every run a reader of a mirrored path sees its earlier content or the complete transcoding of its source, and exit status zero means that every mirrored path holds that transcoding |
| Publish.ScheduledWorkerSucceeds | outputs/e2e/transcode.py:24-57 | a worker that never fails and gets its steps publishes its file and succeeds, whatever the others do |
| Paths.ToolArguments | scripts/microbench/aiob_multiturn.py:276-306 | relative names and /workspace names reach the same workspace file, and other absolute paths are refused |
| Paths.ResolvePicksBest | scripts/microbench/aiob_multiturn.py:286-295 | a path under /data goes through the most specific entry that applies to it |
| Paths.OrderIrrelevant | scripts/microbench/aiob_multiturn.py:271-295 | listing the entries in another order never changes where a covered path goes |
| Paths.FallbackIsFirstEntry | scripts/microbench/aiob_multiturn.py:296-301 | a path under /data that no entry covers goes below the real root of the entry listed first, with whatever follows the character after that entry's name if it starts with it; staging leaves it unchanged |
| Paths.SiblingOpensFirstEntry | scripts/microbench/aiob_multiturn.py:296-301 | an uncovered path that starts with the first entry's name opens the file that a slash after the name would name |
| Paths.SiblingPrefix | scripts/microbench/aiob_multiturn.py:296-301 | the path /data/d2/f opens a file of /data/d/ and is staged under its own name |
| Paths.StagedIsOpenedIff | scripts/microbench/aiob_multiturn.py:271-306 | for all paths strictly below the mapped roots the staged path is the opened path, if and only if staging sends every prefix to its own real root |
| Paths.UsualMapsAgree | scripts/microbench/aiob_multiturn.py:198-202 | prefix-free maps and maps listed most specific first satisfy that condition |
| Paths.GeneralFirstDisagrees | scripts/microbench/aiob_multiturn.py:198-202 | a map that lists a general prefix first stages one file and opens another |
| Paths.PlantLinks | scripts/microbench/aiob_multiturn.py:392-404 | for prefix-free maps one link per entry is planted, each to its entry's real root, and existing links stay |
| Paths.LinkReachesStaged | scripts/microbench/aiob_multiturn.py:392-404 | opening a logical path through the planted links reaches the staged path |
| Dispatch.TakenOnce | scripts/microbench/aiob_multiturn.py:584-595 | a dispatched file was detected by its activation, may be dispatched, and was in no earlier hint |
| Dispatch.TakesCover | scripts/microbench/aiob_multiturn.py:584-595 | every detected file is in a hint at or before its activation, was seen before, or its activation's hint is exactly the cap long |
| Dispatch.TakeReads | scripts/microbench/aiob_multiturn.py:584-595 | an activation's share is its own detected paths, resolved and in order: all that exist and are new, or as many of the first ones as the cap allows |
| Dispatch.HintsAreGood | scripts/microbench/aiob_multiturn.py:570-612 | the hints of a batch are non-empty, at most the cap long, pairwise disjoint, tiered by size, and cover what was detected |
| Dispatch.HintsRead | scripts/microbench/aiob_multiturn.py:596-612 | one hint and one log entry per activation with a share, in order, with that activation's files, rule and time, and the tier of their number |
| Common.DecimalRead | scripts/microbench/aiob_multiturn.py:597 | numbers written into ids read back |
| Dispatch.RuleIdForms | scripts/microbench/aiob_multiturn.py:597-599 | how the three runners write the rule id of a hint for thinking and for tool results |
| Dispatch.Prefetcher.DispatchBatch | scripts/microbench/aiob_multiturn.py:570-612 | the loop records exactly these hints and log entries, and the counter grows by the sum of their sizes |
| Dispatch.MirrorDispatchesTheSame | scripts/microbench/replay_session.py:250-286 | one call of the replay mirror records hints with the same file lists and tiers, named alike except for thinking |
| TurnDispatch.TurnStagesTheSameIff | scripts/microbench/replay_session.py:376-394 | whatever the cap, a replayed turn, one call per block, stages no file that the live runner leaves out; it stages the same file lists, and stages no file twice, if and only if no two blocks, each dispatched alone, take a common file |
| TurnDispatch.UncutTurnIff | scripts/microbench/replay_session.py:376-394 | where no list is longer than the cap, the files staged are the same, and the lists are if and only if no two blocks detect a common file |
| TurnDispatch.TurnCanDiffer | scripts/microbench/replay_session.py:376-394 | two blocks that name one file make the replay stage it twice |
| TurnDispatch.CappedTurnStagesLess | scripts/microbench/replay_session.py:376-394 | under a cap of one, a second block that names an old file first makes the replay leave out a file that the live runner stages |
| DsbSession.Session.RunLasting | scripts/microbench/dsbench_multiturn.py:1270-1338 | over a whole OSS session what is staged is every detected file that exists, no file is in two hints, the memory is what was staged, and the total counts distinct files if and only if each activation lists once every existing file that no earlier one detected |
| DsbSession.LastingFiles | scripts/microbench/dsbench_multiturn.py:1270-1338 | the hints of an OSS session hold exactly the files that any of its firings detects and that exist |
| DsbSession.DistinctTotal | scripts/microbench/dsbench_multiturn.py:1173-1174 | for any hints, the staged entries outnumber the staged files, and equal them if and only if no file is in two hints and no hint repeats one |
| DsbSession.LastingOnceIff | scripts/microbench/dsbench_multiturn.py:1270-1338 | no hint of an OSS session repeats a file if and only if each activation lists once every existing file that no earlier one detected |
| DsbSession.LastingTotal | scripts/microbench/dsbench_multiturn.py:1270-1338 | in particular no hint repeats a file when no activation's resolved list does |
| DsbSession.SessionHintsInOrder | scripts/microbench/dsbench_multiturn.py:1270-1338 | either loop only adds hints, firing after firing: what a firing detects on the files present, named by its turn and source, with all staged files or none remembered |
| DsbSession.Session.RunForgetful | scripts/microbench/dsbench_multiturn.py:613-703 | the Anthropic loop's hints, with the memory cleared before each batch |
| DsbSession.ForgetfulRepeatsIff | scripts/microbench/dsbench_multiturn.py:613-703 | no file is in two hints of the Anthropic loop if and only if no two batches detect a common existing file |
| DsbSession.ForgetfulCountIff | scripts/microbench/dsbench_multiturn.py:613-703 | the Anthropic loop's count is the number of distinct files staged if and only if no two batches detect a common existing file and each activation lists once what no earlier one of its batch detected |
| DsbSession.ForgetfulCountsDistinct | scripts/microbench/dsbench_multiturn.py:613-703 | for detections that list no file twice, the count is of distinct files if and only if no two batches detect a common existing file |
| DsbSession.ForgetfulCanRepeat | scripts/microbench/dsbench_multiturn.py:613-703 | two turns that detect one file stage it twice: one file, counted two |
| ToolCalls.Gather | scripts/microbench/aiob_multiturn.py:1245-1258 | each index that occurs has one slot, made of its own pieces alone: last id and name, all argument text in order |
| ToolCalls.Assemble | scripts/microbench/aiob_multiturn.py:1260-1270 | one call per index that occurs in the stream, in ascending index order, each made from that index's pieces alone |
| ToolCalls.CallMeaning | scripts/microbench/aiob_multiturn.py:1245-1270 | a call by position: its id and name are the last ones that the pieces of its index carry, a missing id is made of turn and index, and its arguments are read from their texts one after the other, from an empty object without text, absent if unreadable |
| ToolCalls.Confluent | scripts/microbench/aiob_multiturn.py:1245-1270 | streams with the same pieces per index give the same call list, however interleaved |
| ToolCalls.SameSlotsSameCalls | scripts/microbench/aiob_multiturn.py:1245-1270 | the same for streams whose indices merely collect the same ids, names and text |
| ToolCalls.CuttingArguments | scripts/microbench/dsbench_multiturn.py:1222-1246 | cutting one fragment's arguments into consecutive pieces changes no slot |
| ToolCalls.SynthesisedIdsDiffer | scripts/microbench/aiob_multiturn.py:1269 | synthesised ids are equal only for the same turn and index |
| Conversation.AnthropicLoop.ExecuteTools | scripts/microbench/aiob_multiturn.py:804-828 | result k belongs to the k-th place of the answer that holds a tool use, with its id and output; every such place has exactly one, and the counter grows by their number |
| Conversation.AnthropicLoop.Run | scripts/microbench/aiob_multiturn.py:702-867 | every run ends at its first tool-free turn or at the limit, each answer is the model's answer to all before it, each user message answers that turn's tools, and the tool count is the sum of the turns' counts |
| Conversation.ConversationSafety | scripts/microbench/aiob_multiturn.py:702-867 | roles alternate from user; for every turn an ascending list holds exactly the places of the answer with a tool use, the turn's count is its length, and the next user message has one result per place, in order, by id, with that tool's output; only the last turn asks for none |
| Conversation.OssLoop.RunTurn | scripts/microbench/aiob_multiturn.py:1203-1328 | one turn appends the answer with its assembled calls and then one tool message per call |
| Conversation.TurnMsgsRead | scripts/microbench/aiob_multiturn.py:1272-1328 | a turn adds the assistant message with its answer and calls, then one tool message per call |
| Conversation.ChatTurnMeaning | scripts/microbench/aiob_multiturn.py:1203-1328 | a turn by position: its answer is the streamed texts one after the other, its calls come in ascending order of the indices in the stream, each read off its own pieces, and output k is that of call k |
| Conversation.OssLoop.Run | scripts/microbench/aiob_multiturn.py:1182-1356 | the messages are the opening and the turns of the run, which stops at the first tool-free turn or the limit, with the tool count their total |
| Conversation.TranscriptIntact | scripts/microbench/aiob_multiturn.py:1286-1328 | in every run each assistant message is followed at once by exactly its own tool messages, in order, before the next |
| BoxRead.GoodPixelsMeaning | outputs/e2e/task_script.py:60-76 | the good pixels are the readings with flag zero at most five rows and columns before the location and fewer than five after it |
| BoxRead.MeanMeaning | outputs/e2e/task_script.py:78-81 | the mean is NaN exactly when a good reading is, and otherwise weighs all good readings alike |
| BoxRead.RecordAt | outputs/e2e/task_script.py:121-130 | the k-th record of a file is the k-th location's, with the mean around it |
| BoxRead.BoxMeanMeaning | outputs/e2e/task_script.py:60-81 | from the two arrays alone: a value comes out exactly when the flags reach as far as the data around the location; it is NaN when no cell near it has flag zero or such a cell holds NaN, and otherwise, times the number of those cells, is their sum |
| BoxRead.FileRecords | outputs/e2e/task_script.py:101-134 | a file's records: none for another band or without data, else one per location in order with that mean, up to the first location that fails |
| BoxRead.RecordsComplete | outputs/e2e/task_script.py:121-134 | a file yields a record for every location exactly when no extraction fails |
| BoxRead.AssignSlice | outputs/e2e/task_script_chunked.py:131-132 | the in-place slice assignment changes exactly the entries inside the box |
| BoxRead.SameGoodPixels | outputs/e2e/task_script_chunked.py:118-136 | around every location the rebuilt arrays give the same good pixels in the same order, clipped or beyond the edge, and fail where the full arrays fail |
| BoxRead.ChunkedMatchesFull | outputs/e2e/task_script_chunked.py:115-147 | for every pair of array shapes and every list of locations a file gives the same records by either read |
| BoxRead.ProcessFull | outputs/e2e/task_script.py:101-134 | the loop over files and locations of the simple script yields the specified records |
| BoxRead.TableInOrder | outputs/e2e/task_script.py:101-134 | the table of more files is that of the earlier ones followed by theirs |
| BoxRead.ProcessChunked | outputs/e2e/task_script_chunked.py:101-147 | the loop over files of the fast script, rebuilding arrays in place, yields the specified records |
| BoxRead.SameTable | outputs/e2e/task_script_chunked.py:101-147 | both scripts build the same table from every file list |
| Activation.SearchStable | paper_figures/build_fig_activation.py:146 | text that arrives later never moves an occurrence already found |
| Activation.TurnOffsets | paper_figures/build_fig_activation.py:113-119 | each turn starts where the durations listed before it end |
| Activation.OffsetMeaning | paper_figures/build_fig_activation.py:113-129 | a turn starts when all durations up to the last entry before it are over; without such an entry turn zero starts at zero and any other at one second per turn number |
| Activation.NameFiresIff | paper_figures/build_fig_activation.py:143-148 | a name fires if and only if a pattern of one of its rules occurs in the whole text |
| Activation.WinnerFires | paper_figures/build_fig_activation.py:146-150 | the rule that fires for a name is still found, with its time, in the whole text |
| Activation.FireRules | paper_figures/build_fig_activation.py:143-155 | after one more delta the fired names have the rules and times of the whole text so far, no name fires twice, and it breaks exactly when an empty pattern meets an empty first delta |
| Activation.Latency | paper_figures/build_fig_activation.py:113-159 | for any rules, the incremental scan fires exactly the names that occur in the whole text, each once, at the time of the last character of the first occurrence, and returns the latency of the earliest correct one, or breaks on an empty pattern and an empty first delta |
| Activation.OutcomeMeaning | paper_figures/build_fig_activation.py:143-159 | it breaks exactly when the first delta has no text and some pattern is empty; else there is no latency exactly when no correct rule fires, and else it is the seconds from the first delta to the earliest correct firing, not below zero |
| Activation.EarliestMeaning | paper_figures/build_fig_activation.py:151-159 | the latency is measured to the least fire time of a correct rule that fires |
| Activation.CorrectMeaning | paper_figures/build_fig_activation.py:151-154 | a rule is correct when one of its keys stands for a file inspected first |
| CaseFacts.SearchMeaning | paper_figures/build_fig_activation.py:110 | a search finds the first place where the pattern stands in the text up to upper and lower case, and none exactly when there is no such place |
| CaseFacts.SearchIgnoresCase | paper_figures/build_fig_activation.py:110 | exchanging upper and lower case in pattern or text moves no occurrence |
| CaseFacts.OneLetterFound | paper_figures/build_fig_activation.py:110 | and nothing else is ignored: one character is found in another exactly when they are the same letter |
| CaseFacts.FireTimeMeaning | paper_figures/build_fig_activation.py:139-150 | a rule's fire time is that of the delta which brought the last character of the first place where its pattern stands, up to case |
| CaseFacts.OutcomeIgnoresCase | paper_figures/build_fig_activation.py:110-159 | sessions and rules that differ in case alone have the same outcome |
| CutFacts.NameTimeIsCutFree | paper_figures/build_fig_activation.py:143-150 | for any rules, recordings of the same timed characters agree on whether each name fires and when, however they are cut |
| CutFacts.WinnerCutsIff | paper_figures/build_fig_activation.py:143-150 | which rule fires for a name is the same for all cuts of the same characters if and only if the first listed pattern of every name occurs in each later pattern of that name |
| CutFacts.CorrectCutsIff | paper_figures/build_fig_activation.py:143-155 | whether a name's firing is correct is the same for all cuts, on every task, if and only if those rules of one name that fire in some recording stand for the same keys |
| CutFacts.DistinctNamesAgree | paper_figures/build_fig_activation.py:143-148 | distinct names meet the first condition, and the first condition implies the second |
| CutFacts.DistinctNamesIff | paper_figures/build_fig_activation.py:143-148 | each rule fires exactly when its own pattern occurs, in every recording, if and only if no two rules share a name |
| CutFacts.CutsDoNotMatter | paper_figures/build_fig_activation.py:136-155 | where the rules of each name that can fire stand for the same keys, recordings of the same timed characters have the same fire times and latency, however cut into deltas and turns; their outcomes agree exactly when both or neither break |
| CutFacts.CuttingOneDelta | paper_figures/build_fig_activation.py:136-142 | for such rules, cutting one delta changes no latency |
| CutFacts.SharedNameCutsMatter | paper_figures/build_fig_activation.py:143-148 | two rules of one name, neither pattern in the other and only one with a key: both conditions fail, and the same characters cut differently have a latency or none |
| ClampFacts.ClampIdleIff | paper_figures/build_fig_activation.py:113-159 | for every session, the clamp at zero changes no latency of any rules on any task if and only if no character is earlier than the first delta |
| ClampFacts.RecordingAscending | paper_figures/build_fig_activation.py:113-142 | a session whose turns are listed in order with deltas inside their durations is recorded in time order |
| ClampFacts.ClampNeverBinds | paper_figures/build_fig_activation.py:157-159 | in such a session the clamp never changes a latency |
| ClampFacts.ClampCanBind | paper_figures/build_fig_activation.py:132 | a logged turn missing from the summary can make it hide a negative latency |
| WallTime.FirstLast | paper_figures/build_fig_motivation.py:58-79 | the least and greatest time over both logs, none when no line has a time |
| WallTime.DecomposeSession | paper_figures/build_fig_motivation.py:108-141 | the loop computes the five buckets with the residual added to the last |
| WallTime.Decompose | scripts/microbench/decompose_wall_time.py:72-95 | the loop computes the four buckets |
| WallTime.TurnBuckets | paper_figures/build_fig_motivation.py:108-137 | where a turn with deltas goes in both splits: up to its first delta, up to its last, and the rest by whether its tools include a shell command, others or none |
| WallTime.SilentTurnBuckets | paper_figures/build_fig_motivation.py:108-122 | a turn without deltas goes to the bucket of its tools as a whole |
| WallTime.FiveConserve | paper_figures/build_fig_motivation.py:82-141 | the five buckets sum to the larger of the session's length and the turns' durations |
| WallTime.FiveSumToTotalIff | paper_figures/build_fig_motivation.py:83-98 | they sum to the session's length, and the thinking phase is what is not shell time, if and only if the turns fit in it |
| WallTime.FourSumToTotalIff | scripts/microbench/decompose_wall_time.py:62-95 | the four buckets sum to the turns' durations, so to the wall time only when those are equal |
| WallTime.SumsCanDiffer | scripts/microbench/decompose_wall_time.py:62-95 | a turn longer than its session, and a session longer than its turn, where the promised sums fail |
| WallTime.DecompositionsAgree | scripts/microbench/decompose_wall_time.py:62-95 | both splits agree on communication, streaming and shell time, and differ elsewhere by the residual alone |
| WallTime.StreamNonNegative | paper_figures/build_fig_motivation.py:130 | streaming time is never negative in either split |
| WallTime.BucketsNonNegative | paper_figures/build_fig_motivation.py:108-137 | no bucket is negative when every delta lies within its turn |

## Left out

- CutFacts.CutsDoNotMatter: gives no converse for the latency itself, because another name that is correct and fires no later can hide a firing whose correctness depends on the cuts; the exact condition is per name (`CutFacts.CorrectCutsIff`).
- The detector, the rule generator, the stager, the preload shim and the language-model services: their behaviour is a parameter wherever it is needed.
- Rounding of reported numbers and floating-point arithmetic: times and sums are exact reals; only the percentile rank rounds.
- Sleeping longer than asked and the time taken by code between measurements: both can be seen as part of the measured work of a block or tool.
- Regular expressions other than literal patterns, and case folding outside ASCII: where a general pattern ends depends on the matching engine.
- NetCDF details: masked arrays, whose means skip masked entries, conversion to 32-bit floats, chunking and attributes. Transcoding is a function from source content to full content. Storing the fill value 255 in a signed byte wraps it to -1.
- Negative coordinates of a location, for which a slice would count from the end of an axis.
- Path normalisation, chains of symbolic links, broken links, and the race in which a link appears between the check and its creation.
- The limit on the number of workers that run at once: the publish protocol is proved for all interleavings, which include those of any pool.
- Failures of the operating system that leave a replaced file half visible: replacing is one step.
- A negative bucket cap, which would cut lists from the end.
- Summary fields that are present but null, malformed log lines, and turns listed twice.
- The Gemini loop, the streaming logs of the Anthropic loop, and the detector calls inside the agent loops: they do not change the conversation.
- Printing, plotting and summary tables, the no-thinking and byte-identity artifacts of the proxy benchmark, and the drivers that start sessions: they present or repeat results that are modelled here and decide none of them.
