# A verified model of the fleet and its benchmark

This project models, in Dafny, the parts of the repository whose correctness is hardest to see, and proves what
they promise. It is organised by component.

**The fleet's job protocol.** Leased, fenced jobs in a store that workers, reapers and cancellers share.
`fleet_rows.dfy` and `fleet_transactions.dfy` hold the tables and what each call's transaction does to them;
`fleet_store.dfy` is the store as a class whose methods update the tables in place and are proved equal to those
transactions. `fleet_protocol.dfy` makes them the steps of a state machine on one monotone clock, where every call may
have read the clock long before it commits: a crash is a worker that makes no further step, a pause is any number of
other steps, a lost answer is a step whose call is made again.
`fleet_safety.dfy` proves an invariant over every run. `fleet_check.dfy` is the repository's own checker, loops
included, and `fleet_drained.dfy` the headline: every drained state the protocol reaches makes it answer `[]`.
`fleet_effects.dfy` has what each answer means at any later time (exactly-once effect of at-least-once calls,
cancels that win), `fleet_fencing.dfy` what an attempt can still do once its lease ran out, `fleet_progress.dfy` the
measure, the drain and the waits between attempts, `fleet_pool.dfy` any number of workers, whose counters match the results even when
answers are lost, `fleet_counters.dfy` which counter each ending raises, and `fleet_connections.dfy` and `fleet_worker.dfy` the worker object with its retries and counters,
each step of which is proved to be a course of the pool's events.

**Record and replay of the agent.** `json_text.dfy` is the balanced-brace scanner against a grammar of printed json
(RFC 8259, sections 2 to 7), `agent_loop.dfy` the loop over any provider and sandbox, `agent_runs.dfy` what every run
keeps, `agent_transcript.dfy` what its record says was asked of the sandbox and told the model, `replay.dfy` the replay
theorems, `replay_refusals.dfy` what a replayer refuses, and `bench_providers.dfy` the two provider objects.

**Measurement.** `dealt.dfy` (list scheduling and Graham's bounds), `mcnemar.dfy` (the exact test against the coin it
stands for), `worker_time.dfy` and `worker_idle.dfy` (conservation of worker time), `process_tree.dfy` (a worklist over
any process table). Times are reals; float rounding is not modelled.

**The report channel.** `utf8_text.dfy` and `docker_frames.dfy` (a framed byte stream, decoded with replacement) and
`report_channel.dfy` (tagged lines among printed ones).

Some things the code does differ from what its own documentation says or lets one expect; the model follows the code.
`parse_tool_call` promises a `ToolCallParseError` for anything malformed, yet a response whose tool is a list or an
object raises a `TypeError` that ends the run (`AgentRuns.RaisesExactly`, exactly when). `read_reports` says any line
without the token was just printed, yet an object whose token does not encode as UTF-8 makes it raise
(`ReportChannel.RaisesExactly`, exactly when). And the checker's verdict compares only neighbouring attempts of a job:
they all exclude one another exactly if any two with only backward attempts between them do, backward being one that
ended before its own claim (`FleetDrained.CleanMeansExclusive`, with a snapshot in
`FleetDrained.CleanAloneIsNotExclusive`). That none between the first and the last is backward is enough
(`FleetDrained.ForwardIsExclusive`) but not needed (`FleetDrained.BackwardMayBeHarmless`).
An attempt that `live_attempts` no longer lists is fenced against every call that reads the clock from then on, but
not against one already under way: such a release, publish or heartbeat still takes effect, a heartbeat even makes
the attempt live again, and `FleetFencing` says exactly when, with a run for each. And the text of a container's
output that is cut off inside a character does not begin the text of the whole (`DockerFrames.CutTextIsPrefix`).

`dafny verify dfyconfig.toml` checks the whole project. The `hide` statements in a few proofs only keep definitions
out of the prover's sight.

## Model

| member | source | states |
|---|---|---|
| FleetStore.Store.SubmitBatch | backend/fleet/store.py:135-201 | the batch, its jobs and the answer of a submission, created, repeated, conflicting or refused |
| FleetStore.Store.Claim | backend/fleet/store.py:204-249 | the oldest available queued job not locked by another claimer is leased, with a new attempt in the log |
| FleetStore.Store.Start | backend/fleet/store.py:252-279 | a claimed job with a live lease and no cancel is running afterwards; asked again, the answer stands |
| FleetStore.Store.Heartbeat | backend/fleet/store.py:282-307 | a live lease and its log entry are extended together; otherwise nothing changes |
| FleetStore.Store.Cancel | backend/fleet/store.py:310-329 | a queued job is cancelled, a leased one asked, any other left alone |
| FleetStore.Store.EndCancelled | backend/fleet/store.py:70-81 | the shared statement ends a live attempt of a job whose cancel was asked, and its job |
| FleetStore.Store.FinishCancelledCall | backend/fleet/store.py:332-345 | finish_cancelled and its answer |
| FleetStore.Store.Publish | backend/fleet/store.py:348-434 | publish, branch by branch: repeat, cancel first, lapsed lease, stored |
| FleetStore.Store.EndWithoutResult | backend/fleet/store.py:39-66 | the shared statement requeues, cancels or dead-letters every chosen job and ends its attempt |
| FleetStore.Store.Release | backend/fleet/store.py:437-476 | release, and its answer from the row the statement moved or, asked again, from the log and the job |
| FleetStore.Store.Reap | backend/fleet/store.py:479-500 | every lapsed lease not locked by another reaper is ended, and the jobs are answered sorted |
| FleetRows.Least | backend/fleet/store.py:217-219 | what "order by id limit 1" picks |
| FleetSafety.OneJobKeeps | backend/fleet/store.py:135-500 | any step on one job that leaves that job's row and log good keeps the whole invariant, and freezes what is final |
| FleetSafety.SubmitKeeps | backend/fleet/store.py:135-201 | a submission keeps the invariant and rewrites nothing |
| FleetSafety.ClaimKeeps | backend/fleet/store.py:204-249 | a claim keeps the invariant whenever it read the clock: its attempt is the next number and starts after every earlier one ended |
| FleetSafety.PublishKeeps | backend/fleet/store.py:348-434 | a publish by whoever claimed the attempt keeps the invariant, its reading anywhere between the claim and the commit, though the call does not compare worker ids |
| FleetSafety.HeartbeatKeeps | backend/fleet/store.py:282-307 | a heartbeat keeps the invariant, its reading anywhere between the claim and the commit |
| FleetSafety.ReleaseKeeps | backend/fleet/store.py:437-476 | a release keeps the invariant with its reading anywhere between the claim and the commit |
| FleetSafety.ReapKeeps | backend/fleet/store.py:479-500 | a reap of any number of jobs keeps the invariant, its reading possibly before its commit |
| FleetSafety.FinishCancelledKeeps | backend/fleet/store.py:70-81 | ending a cancelled attempt keeps the invariant, its reading possibly before its commit |
| FleetSafety.StepKeeps | backend/fleet/store.py:135-500 | every step of the protocol keeps the invariant and only moves the state forward |
| FleetSafety.RunKeeps | backend/fleet/store.py:135-500 | so does every run: nothing recorded is lost or rewritten |
| FleetSafety.ReachableOk | backend/fleet/store.py:135-500 | every state any interleaving reaches from the empty store satisfies the invariant |
| FleetDrained.ReachableSchema | backend/fleet/migrations/versions/v0001_fleet_tables.py:40-51 | every reachable state satisfies the tables' check, unique and foreign key constraints |
| FleetCheck.InsertByAttempt | backend/fleet/invariants.py:113 | a row among ascending ones leaves them ascending, with no other row gained or lost |
| FleetCheck.SortedByAttempt | backend/fleet/invariants.py:113 | the rows in ascending order, the same ones as a set |
| FleetCheck.SortKeepsEvery | backend/fleet/invariants.py:113 | sorting keeps every row, as often as it came |
| FleetCheck.SortIsStable | backend/fleet/invariants.py:113 | rows of the same number stay in the order they came in |
| FleetCheck.ById | backend/fleet/invariants.py:111 | the jobs by id: exactly the ids of the rows, each with a row of its own |
| FleetCheck.LastRowWins | backend/fleet/invariants.py:111 | of several rows of an id the last one counts |
| FleetCheck.CheckOneResult | backend/fleet/invariants.py:148-159 | finds nothing exactly when a job in a result state has its one result and any other has none |
| FleetCheck.CheckNoStaleWrite | backend/fleet/invariants.py:162-186 | finds nothing exactly when each result is by the last attempt and its worker, inside its lease, before any cancel, and ended it |
| FleetCheck.CheckEndings | backend/fleet/invariants.py:196-210 | finds nothing exactly when attempts ended in time, in order, and all but the last in a retry |
| FleetCheck.CheckFinal | backend/fleet/invariants.py:211-227 | finds nothing exactly when the last ending agrees with the final state |
| FleetCheck.CheckAccounting | backend/fleet/invariants.py:189-227 | finds nothing exactly when the log is numbered 1 to the job's attempt, within its budget, and ends as the job did |
| FleetCheck.CheckResultKeys | backend/fleet/invariants.py:230-246 | finds nothing exactly when each result carries its own job's key and no key comes twice |
| FleetCheck.CheckRecords | backend/fleet/invariants.py:118-127 | finds nothing exactly when every listed job is clean against its own log and results |
| FleetCheck.Check | backend/fleet/invariants.py:103-131 | the checker, loops and all, answers [] exactly on the clean snapshots |
| FleetDrained.LogInOrder | backend/fleet/invariants.py:112-114 | in a snapshot of a reachable state a job's sorted log is its attempts 1 to n |
| FleetDrained.RecordsOk | backend/fleet/invariants.py:118-127 | a final job of a reachable state passes every check made of its records |
| FleetDrained.DrainedIsClean | backend/fleet/invariants.py:103-131 | every snapshot, in any row order, of a good state with all submitted jobs final is clean |
| FleetDrained.EveryDrainedRunIsClean | backend/fleet/invariants.py:103-131 | for every run of workers, reapers, cancels, crashes and repeats, once every submitted job is final the checker answers [] |
| FleetDrained.DrainedKeysAreClean | backend/fleet/invariants.py:230-246 | and with result keys given by job, exactly-once holds end to end |
| FleetDrained.CleanMeansExclusive | backend/fleet/invariants.py:182-210 | of any snapshot: [] means the log is numbered in order, all attempts but the last were retried, a result exists iff the state is a result state, and no two attempts overlap iff no two with only backward ones between them do |
| FleetDrained.CleanMeansFresh | backend/fleet/invariants.py:148-186 | of any clean snapshot: a result is its job's only one, of its state, and its last attempt's: by that attempt's worker, inside its lease, before any cancel, and what ended it |
| FleetDrained.CleanMeansAccounted | backend/fleet/invariants.py:189-227 | of any clean snapshot: every job is final, was submitted and kept its budget, and each attempt ended as its ending says and the last as the job did |
| FleetDrained.CleanMeansOwnKeys | backend/fleet/invariants.py:230-246 | of any snapshot clean with keys: each result has its own job's key and no other result has it |
| FleetDrained.ForwardIsExclusive | backend/fleet/invariants.py:182-210 | a clean log without a backward attempt between its first and its last has no overlap |
| FleetDrained.CleanAloneIsNotExclusive | backend/fleet/invariants.py:182-186 | [] alone does not rule out an overlap: a snapshot the checker passes although its first and third attempt overlap |
| FleetEffects.ClaimEffect | backend/fleet/store.py:204-249 | claim takes the oldest job it may, answers None exactly when there is none, logs a new attempt that holds the lease, rewrites the job's row as stated, and changes nothing else |
| FleetEffects.StartEffect | backend/fleet/store.py:252-279 | start answers True exactly while the lease is live and no cancel asked, marks a claimed job running and changes nothing else, and stays so when repeated |
| FleetEffects.HeartbeatEffect | backend/fleet/store.py:282-307 | heartbeat answers exactly while the lease is live, extends it in row and log alike, and changes nothing else |
| FleetEffects.ReapEffect | backend/fleet/store.py:479-500 | reap answers, sorted, exactly the unlocked lapsed jobs, leaves none lapsed; each of their rows and attempts ends as stated, and no other row or attempt changes |
| FleetEffects.CancelEffect | backend/fleet/store.py:310-329 | a queued job is cancelled; a leased one keeps everything but the time it was first asked to stop; a final one, every other job and every attempt stay |
| FleetEffects.PublishEffect | backend/fleet/store.py:348-434 | publish answers True exactly when its own result is the job's one result afterwards; what it writes in the three tables, for a result and for a cancelled job, and that it writes only under a live lease |
| FleetEffects.OneResultEach | backend/fleet/store.py:395-425 | no two stored results are for the same job |
| FleetEffects.PublishSettled | backend/fleet/store.py:371-389 | once a job has a result, publish changes nothing and accepts that result only |
| FleetEffects.PublishOnce | backend/fleet/store.py:371-389 | an accepted publish made again at any later time is accepted and changes nothing; any other is refused |
| FleetEffects.ReleaseEffect | backend/fleet/store.py:437-476 | of release's two ways to answer: a state exactly when its attempt ended released, and then the job's; under a live lease the row and the attempt end with the error given, else nothing changes |
| FleetEffects.FinishCancelledEffect | backend/fleet/store.py:332-345 | finish_cancelled answers True exactly when its attempt ended cancelled, and then so did its job; it writes only that, and only then |
| FleetEffects.EndedOnce | backend/fleet/store.py:84-91 | an ended attempt never ends again: later repeats change nothing and answer by how it ended |
| FleetFencing.WritesExactly | backend/fleet/store.py:252-476 | a call by an attempt's holder changes the tables exactly when the attempt has not ended, the call read the clock before its lease ran out, and its other guard holds, however late it commits |
| FleetFencing.WritesOnlyInFlight | backend/fleet/store.py:561-570 | an attempt absent from live_attempts changes the tables later exactly if one of its calls had read the clock before and lands; without one it is never live again |
| FleetFencing.RevivesExactly | backend/fleet/store.py:282-307 | a step after a reading that missed the attempt leaves it live exactly if it is a heartbeat that extends a lapsed lease past its own commit |
| FleetFencing.FencedForever | backend/fleet/store.py:561-570 | over every run: an attempt read as no longer live stays so at every later commit iff each of its effective heartbeats commits before the lease it extends runs out, or after the one it sets has |
| FleetFencing.LateRelease | backend/fleet/store.py:449-476 | a run in which a release in flight gives back an attempt already read as lapsed |
| FleetFencing.LatePublish | backend/fleet/store.py:392-433 | and one in which a publish in flight stores its result |
| FleetFencing.LateHeartbeat | backend/fleet/store.py:287-307 | and one in which a heartbeat in flight revives it |
| FleetFencing.ReapOrphans | backend/fleet/execution.py:277-296 | containers and then networks are removed whose attempt was not alive when read, until a removal raises; a network the daemon refuses to remove is passed over; all such containers are stopped unless it raises |
| FleetFencing.SweptAreOrphans | backend/fleet/execution.py:284-293 | whatever removals fail, only what belongs to attempts not alive is removed, and all of it if none does |
| FleetFencing.SweptExactly | backend/fleet/execution.py:284-293 | which removals are made and whether one is raised, for every way Docker may answer |
| FleetFencing.OrphansAreDead | backend/fleet/execution.py:284-288 | an id is stopped exactly when a listed container with it belongs to an attempt not alive |
| FleetFencing.OrphansWriteOnlyInFlight | backend/fleet/execution.py:277-291 | with containers listed before the live attempts are read, whatever happens between: the attempt of a stopped one still writes exactly if a call of it was in flight at the reading and lands |
| FleetEffects.CancelWins | backend/fleet/store.py:310-345 | a cancel asked before a result: no later state ever has a result, and a final state is cancelled |
| FleetEffects.PositionsInOrder | backend/fleet/store.py:200 | a batch's jobs ordered by position are its ids in order |
| FleetEffects.SubmitOnce | backend/fleet/store.py:135-201 | a submission key makes one batch ever: repeated at any later time it answers the same ids or conflicts, and changes nothing |
| FleetEffects.SubmitWithoutKey | backend/fleet/store.py:135-201 | without a key each submission makes a batch of new jobs |
| FleetEffects.SubmitEffect | backend/fleet/store.py:135-201 | a submission that is created gives its i-th job a row of its own that holds that job, the policy and the budget, queued and available at once, in a new batch; any other changes nothing and is told apart by what it holds |
| FleetEffects.SubmittedStays | backend/fleet/store.py:177-201 | at any later time the i-th id answered still holds the i-th job |
| FleetProgress.StepDescends | backend/fleet/store.py:204-500 | no step raises a job's measure, and each that changes its state or attempt lowers it |
| FleetProgress.MovesBounded | backend/fleet/store.py:204-500 | over any run a job moves at most as often as its measure says |
| FleetProgress.Drain | backend/fleet/store.py:204-249 | from any good state some run of reap and claim alone makes every job final |
| FleetProgress.RunWaits | backend/fleet/store.py:39-66 | over any run whose requeues use one policy, an unfinished job's waits are that policy's next ones, as many as its requeues, and all its budget allows when it is dead-lettered |
| FleetProgress.NewJobWaits | backend/fleet/store.py:39-66 | a job never claimed yet waits in all at most min(b * (2^(m-1) - 1), (m-1) * cap) over any such run |
| FleetProgress.WaitsBounded | backend/fleet/store.py:43-46 | the first n waits of the backoff formula keep to both bounds, the first exactly while the cap is not reached |
| FleetProgress.BackoffDoubles | backend/fleet/store.py:43-46 | each wait is twice the one before until that passes the cap, and then the cap |
| FleetWorker.Database.Perform | backend/fleet/store.py:135-500 | a store call does to the database what the protocol's step does |
| FleetConnections.ConnectionLost | backend/fleet/connections.py:18-37 | the worklist of eight turns, as a function of the failure |
| FleetConnections.SaysLostExactly | backend/fleet/connections.py:18-37 | the kinds and codes of failure that say the connection went away |
| FleetConnections.LostIsBehind | backend/fleet/connections.py:18-37 | it answers True only if the failure or one behind it says the connection went away |
| FleetConnections.LostExactly | backend/fleet/connections.py:18-37 | it answers True exactly if the connection was invalidated or one of the first eight failures taken, causes first, says it went away |
| FleetConnections.FoundSevenDeep | backend/fleet/connections.py:22-37 | so one that says so is found up to seven causes deep, whatever else hangs on them |
| FleetWorker.Database.HappenAll | backend/fleet/worker.py:162-281 | what the other workers do to the database is the pool's events over it |
| FleetWorker.RideThrough | backend/fleet/connections.py:40-58 | repeats a call while connections drop and time lasts: what happened is a course of the pool's events, unheard calls included, that ends with the answered one, and it raises exactly when a try fails otherwise or too late |
| FleetWorker.DelayDoubles | backend/fleet/connections.py:40-58 | the wait doubles from 50 ms with each try, up to a second |
| FleetWorker.Worker.SweepOrphans | backend/fleet/worker.py:131-168 | when due, lapsed leases are reaped and then the containers stopped whose attempts a later reading missed, unless a call or a removal raises; else nothing |
| FleetWorker.Worker.ClaimJob | backend/fleet/worker.py:240-248 | a claim and the counter of claims |
| FleetWorker.Worker.FindJob | backend/fleet/worker.py:169-174 | claims a job, reaping and claiming again when there was none |
| FleetWorker.Worker.CancelJob | backend/fleet/worker.py:250-259 | ends a cancelled job: cancelled goes up exactly if its attempt then stands ended by a cancel, and else lost |
| FleetWorker.Worker.RunJob | backend/fleet/worker.py:139-160 | heartbeats until the run ends or raises, the lease is lost or a cancel shows |
| FleetWorker.Worker.Settle | backend/fleet/worker.py:192-238 | records the execution, and publishes the result or gives the job back: of a failed run released goes up exactly if the attempt then stands released, else lost; of a finished one published if the result is stored, else cancelled exactly if the job then read is cancelled, else rejected |
| FleetWorker.Worker.Step | backend/fleet/worker.py:162-238 | with whatever others do meanwhile, a step is a course of the pool's events that leads this worker, counters included, to where it is then, and does to the store one of the protocol's runs; one that returns True claimed one job and raised exactly the counter its ending calls for, one that returns False has reaped lapsed leases |
| FleetWorker.Worker.Work | backend/fleet/worker.py:283-297 | so is any number of steps: from a pool in order it stays in order, and what run returns is the number of results in the store that are this worker's |
| FleetWorker.OthersGoOn | backend/fleet/worker.py:162-281 | what others do, they do the same with this worker among them |
| FleetWorker.StaysInOrder | backend/fleet/worker.py:224-225 | wherever the pool came to, an idle worker's published counter is the number of its results |
| FleetPool.ForeignHappens | backend/fleet/worker.py:162-281 | any events of other workers commute with having this one in the pool |
| FleetPool.ComesOffOnce | backend/fleet/worker.py:162-281 | whatever happens in a pool, a worker that held a job and is idle again has raised exactly one counter, unless it has claimed another |
| FleetPool.AdvanceAccounts | backend/fleet/worker.py:162-281 | each answer keeps the sum of the five counters equal to the claims, less the job in hand |
| FleetPool.PoolKeeps | backend/fleet/worker.py:162-281 | in any pool over any store, with answers lost and calls repeated: each published counter is the number of the worker's own results, but for one not heard of yet |
| FleetPool.CountsMatchResults | backend/fleet/worker.py:205-238 | once none waits to hear of a publish, the published counters total the number of result rows |
| FleetPool.DrainedPoolIsClean | backend/fleet/invariants.py:103-131 | a pool's drained store passes the checker |
| FleetPool.PoolIsRun | backend/fleet/worker.py:162-281 | what a pool does to the store is a run of the protocol |
| FleetCounters.AnswerTells | backend/fleet/worker.py:162-281 | what each phase's answer says of the tables its call leaves behind |
| FleetCounters.CallLeaves | backend/fleet/worker.py:144-281 | what each phase's call leaves in the tables, with the worker's own id, lease, retry policy, result and error |
| FleetCounters.AnswerMoves | backend/fleet/worker.py:162-281 | where a worker goes on after each answer, told from the tables: a job that started is run, one that was asked to stop or lost is not, a refused result is asked after |
| FleetCounters.EndingCounts | backend/fleet/worker.py:162-281 | in any pool, a worker that hears its job left its hands raises the counter for what the tables then say became of it |
| FleetCounters.CountsMatchReleases | backend/fleet/worker.py:261-281 | in any pool, answers lost and calls repeated: each released counter is the number of the worker's attempts logged as released, but for one not heard of yet |
| AgentLoop.Run | backend/app/agent/loop.py:38-161 | Agent.run as a loop, equal to the function the theorems are about |
| AgentRuns.EveryRun | backend/app/agent/loop.py:38-161 | over all models: at most max_iterations steps numbered from 0, tokens that add up, the malformed limit reached exactly at the end, a verified finish only after a passing test step |
| AgentTranscript.EveryRunSays | backend/app/agent/loop.py:38-176 | over all models and sandboxes: the sandbox is asked exactly the parsed calls of the steps with a result, arguments included and in order, after the opening listing; each result is its answer or the exception's text; what the model is told next is one line, a line break and the whole output; refusals, blocked finishes and the end are as the responses call for |
| AgentTranscript.StepsAreResponses | backend/app/agent/loop.py:49-161 | in a recorded run the i-th step holds the i-th response and its tokens |
| AgentTranscript.NeverUnderWay | backend/app/agent/loop.py:194-200 | a run raises before its first step exactly if the opening listing throws |
| AgentTranscript.VerifiesExactly | backend/app/agent/loop.py:179-192 | what counts as verification: exit code 0 in time, of run_tests or a command with pytest in it |
| AgentTranscript.HeaderTells | backend/app/agent/protocol.py:134-143 | an observation's first line tells success, exit code, timeout and truncation apart |
| AgentTranscript.ParsesExactly | backend/app/agent/protocol.py:80-97 | a response is a call exactly if its first object decodes to one that names it, with these arguments |
| AgentTranscript.RefusesExactly | backend/app/agent/protocol.py:80-97 | and which responses are refused, with which reason |
| AgentTranscript.CallComesBack | backend/app/agent/protocol.py:80-131 | a printed call is parsed back from whatever stands around it |
| AgentRuns.CallSees | backend/app/agent/loop.py:49-161 | the i-th call sees 2 + 2i messages |
| AgentRuns.RaisesExactly | backend/app/agent/protocol.py:80-97 | a recorded run raises exactly when an answer decodes to an object whose tool is a list or an object, or decoding fails in a way nothing catches |
| AgentRuns.ListToolRaises | backend/app/agent/protocol.py:80-97 | a run whose model first answers {"tool": []} raises, though the docstring promises ToolCallParseError |
| BenchProviders.RecordingProvider.Complete | backend/bench/replay.py:124-166 | makes at most its number of tries, all but the last a failure worth retrying, then keeps the call as it was made with its answer, its latency and the wait before it, or the failure it gave up on, without the account's name |
| BenchProviders.ReplayProvider.Complete | backend/bench/replay.py:225-285 | answers exactly a call that matches the next recorded one in settings, prompt, task and head, with its completion; fails as recorded where the recording did, and else diverges; what it has waited is the latencies of the calls it served |
| BenchProviders.ReplayProvider.Consumed | backend/bench/replay.py:287-291 | flags a divergence exactly if some recorded call or the recorded failure was left unused, and keeps an earlier one |
| ReplayTheorems.HeadSaysPassed | backend/bench/replay.py:82-86 | the first line of an observation, cut at 200, says whether the command passed, for every exit code |
| ReplayTheorems.SameHeadSameVerdict | backend/app/agent/loop.py:179-192 | results with the same first line count alike as verification |
| ReplayTheorems.StaysInStep | backend/bench/replay.py:249-285 | while the heads agree, recorded and replayed loops stay aligned; else the replay diverges for good |
| ReplayTheorems.ReplayMatches | backend/bench/replay.py:249-291 | a replay that ends without divergence made the recorded run's calls, refusals, tokens and end, whatever the sandbox printed below first lines |
| ReplayTheorems.RecordingGrows | backend/bench/replay.py:124-166 | a recording only grows, and a failure ends the run |
| ReplayTheorems.RecordThenReplay | backend/bench/replay.py:124-291 | a recording replayed in the world that made it never diverges, uses every call, and gives the same run but for a final provider error's text |
| ReplayRefusals.AnswersOnlyMatches | backend/bench/replay.py:249-281 | of any call of a replayer: whether it answers, fails as recorded or diverges, over the recording's fields |
| ReplayRefusals.OtherRunIsRefused | backend/bench/replay.py:262-276 | a recording with a call, replayed where the opening messages, the temperature or the token limit differ, diverges at its first call and runs nothing but the opening listing |
| ReplayRefusals.OpeningIs | backend/app/agent/loop.py:194-213 | the opening messages: the prompt, and the task before the listing |
| ReplayRefusals.TasksOpenApart | backend/app/agent/loop.py:194-213 | so two tasks open differently wherever the listing is the same |
| JsonText.ExtractJson | backend/app/agent/protocol.py:100-131 | the scanner's loop answers the first balanced object, all from the first brace, or the stripped text |
| JsonText.RoundTrip | backend/app/agent/protocol.py:100-131 | any printed json object comes back whole from between any brace-free prefix and any suffix |
| JsonText.CutShort | backend/app/agent/protocol.py:129-131 | a printed object cut short anywhere comes back as far as it arrived |
| JsonText.ValueIsQuiet | backend/app/agent/protocol.py:112-128 | printed values leave depth and string state as they found them, and never close the object |
| Dealt.HowLong | docs/results/bench/m21/analysis.py:251-257 | the heap loop's answer is when the last worker is free; it raises exactly without workers |
| Dealt.DealOneSum | docs/results/bench/m21/analysis.py:256 | dealing a job adds its time to the loads and loses none |
| Dealt.Dealing | docs/results/bench/m21/analysis.py:251-257 | after any jobs: loads total the work, each fits under the bound, and some load covers each job |
| Dealt.GrahamsBounds | docs/results/bench/m21/analysis.py:251-276 | m times the batch's length is at least the work, at least m times the longest job, at most the work plus m - 1 times the longest |
| Dealt.WithinTwiceAny | docs/results/bench/m21/analysis.py:251-257 | dealing takes at most 2 - 1/m times what any other way of giving the jobs to the workers takes |
| Dealt.TakenIsTheGreatest | docs/results/bench/m21/analysis.py:251-257 | worker by worker: each job goes to one least loaded by the jobs before it, and the answer is the greatest load |
| McNemar.ExactlyTheChance | backend/bench/compare.py:87-93 | the p-value is the chance that a fair coin falls at least as lopsidedly, either way |
| McNemar.ClampBites | backend/bench/compare.py:92-93 | twice the tail exceeds 1 exactly when as many got worse as better |
| McNemar.IsAProbability | backend/bench/compare.py:87-93 | the p-value is in (0, 1] and symmetric |
| McNemar.MoreLopsided | backend/bench/compare.py:87-93 | for as many flips the p-value is smaller exactly when the split is more lopsided |
| McNemar.Complement | backend/bench/compare.py:92 | a row's lower and upper tails make up all outcomes |
| McNemar.TwoTails | backend/bench/compare.py:92 | while the ends cannot meet, the chance is both tails' share |
| WorkerTime.Timeline | backend/bench/metrics.py:84-94 | one busy fraction per bucket, the last one cut at the end, each rounded to four places |
| WorkerTime.TimelineAt | backend/bench/metrics.py:84-94 | the i-th number is the i-th bucket's busy fraction, rounded |
| WorkerTime.RoundedIsNearest | backend/bench/metrics.py:93 | rounding gives the nearest ten-thousandth, and from halfway the even one |
| WorkerTime.BucketsReachTheEnd | backend/bench/metrics.py:88-92 | every bucket starts before the end and the last one reaches it |
| WorkerTime.BucketingLosesNothing | backend/bench/metrics.py:75-94 | the buckets' busy times add up to the window's for any jobs, window and positive bucket |
| WorkerTime.TimelineMeansUtilization | backend/bench/metrics.py:75-94 | the timeline's entries before rounding, each weighed by its bucket, account for the utilization |
| WorkerTime.RoundedTimelineIsNear | backend/bench/metrics.py:84-94 | and as rounded, to within 0.00005 of the workers' time |
| WorkerIdle.Grouped | docs/results/bench/m21/analysis.py:128-130 | the jobs by worker, in order |
| WorkerIdle.IdleTimes | docs/results/bench/m21/analysis.py:131-136 | the loop's three sums are the idle times of the workers that got a job |
| WorkerIdle.Idle | docs/results/bench/m21/analysis.py:124-140 | the three shares; it raises exactly when there is no capacity |
| WorkerIdle.WorkersAddUp | docs/results/bench/m21/analysis.py:128-136 | regrouping by worker loses no time |
| WorkerIdle.WorkerTimeIsConserved | docs/results/bench/m21/analysis.py:124-140 | the idle shares and the busy share add up to one exactly when no job finishes before its claim |
| WorkerIdle.EachShareIs | docs/results/bench/m21/analysis.py:131-140 | share by share: before, up to each worker's earliest claim; after, from the end of the job each claimed last; between, what is left besides the service |
| WorkerIdle.AtMostFullyBusy | backend/bench/metrics.py:75-81 | with serial workers no window is more than fully busy |
| WorkerIdle.AfterLast | backend/bench/report.py:137-146 | the report's idle share after the last jobs |
| WorkerIdle.TheReportAgrees | backend/bench/report.py:137-146 | for serial workers it equals the analysis's third share |
| ProcessTree.TicksWith | backend/bench/resources.py:114 | the sum does not depend on which process is counted first |
| ProcessTree.Walk | backend/bench/resources.py:107-113 | the worklist ends on any table and has seen exactly the processes that descend from the roots |
| ProcessTree.TreeTicks | backend/bench/resources.py:100-114 | the ticks of exactly those, each once; None iff there are no roots or one is missing |
| ProcessTree.TreesJoin | backend/bench/resources.py:100-114 | more roots mean the union of the trees, overlapping or not |
| DockerFrames.Frames | backend/fleet/docker.py:25-31 | the loop over the bytes reads the frames |
| DockerFrames.FramesComeBack | backend/fleet/docker.py:25-31 | every frame written comes back whatever its padding, followed by the frames of whatever comes after |
| DockerFrames.HoweverItIsCut | backend/fleet/docker.py:36 | the same bytes on a stream are joined again however they were cut into frames |
| DockerFrames.TextComesBack | backend/fleet/docker.py:34-38 | encoded text on a stream is decoded again, whatever frames cut its characters |
| DockerFrames.CutShortIsPrefix | backend/fleet/docker.py:36 | the bytes joined from a stream cut off anywhere begin those of the whole |
| DockerFrames.CutTextIsPrefix | backend/fleet/docker.py:34-38 | the decoded text does so exactly when what is left of the payloads ends inside no character |
| DockerFrames.CutInsideACharacter | backend/fleet/docker.py:34-38 | a cut after C3 of C3 A9 gives U+FFFD, which does not begin the whole text |
| Utf8Text.CutTextIsPrefix | backend/fleet/docker.py:36-38 | of any bytes decoded with replacement: a cut gives a beginning of the text iff it splits no well-formed character but U+FFFD itself |
| Utf8Text.WholeExactly | backend/fleet/docker.py:36-38 | a character is decoded exactly where some code point's bytes come next: nothing overlong, no surrogate, nothing past U+10FFFF |
| Utf8Text.ReplacesTheLongestStart | backend/fleet/docker.py:36-38 | what is no character is replaced as far as it begins like one |
| Utf8Text.TextComesBack | backend/fleet/docker.py:36-38 | decoding undoes encoding on every text without surrogates |
| ReportChannel.Channel.Send | backend/fleet/task.py:42-46 | one tagged line more on stdout |
| ReportChannel.ReadReports | backend/fleet/execution.py:109-129 | the loop over the lines |
| ReportChannel.SplitsApart | backend/fleet/execution.py:112 | text that ends its line splits apart from what follows |
| ReportChannel.SplitsBack | backend/fleet/execution.py:112 | the lines and the breaks between them are the text, and no break is left in a line or taken apart |
| ReportChannel.LineTells | backend/fleet/execution.py:113-122 | which lines break the reader and which are reports, over what decoding them gives |
| ReportChannel.ReportsComeBack | backend/fleet/execution.py:109-129 | reports sent among any whole lines come back: the events of the progress messages in order, of usage, result and error the last message's, and the other lines in order as what was printed |
| ReportChannel.OnlyTheTokenCounts | backend/fleet/execution.py:109-129 | a line without the token is printed and changes nothing else, on any stdout |
| ReportChannel.RaisesExactly | backend/fleet/execution.py:113-121 | reading raises exactly when a line breaks the decoder or is an object whose token does not encode |
| ReportChannel.OneLineLosesAll | backend/fleet/execution.py:118-121 | the printed line `{"token": "\ud800"}`, once it decodes to an object whose token does not encode, loses all reports, though the docstring says any other line was just printed |

## Left out

- Postgres itself: each call is one atomic step; row locks appear as the rows `SKIP LOCKED` passes over, a rollback or a session killed mid-transaction as no step.
- Clock readings: each call reads the clock once, at any time up to its commit, where claim and heartbeat read it two or three times. The row locks that keep other calls off a row between a reading and its commit are not modelled, so the runs considered are more than the source allows.
- Times are whole numbers of one small unit, so leases and backoffs are too; an identity sequence has no gaps, and a batch's rows get theirs in position order.
- Request digests are taken as injective; payloads, policies, logs and `record_execution` are opaque, since nothing reads them.
- A snapshot's states and endings are enumerated, and a violation's text is a fixed phrase.
- FleetWorker.Worker.SweepOrphans: the execution is the one over containers; an in-process one has nothing to stop.
- FleetWorker.Worker.Work: the sleeps between empty steps, the exit when idle and the call timings are not modelled; the steps given are those made before the stop.
- AgentLoop.Run: the system prompt's text, `json.loads`, `str`, `repr` and the redaction of account names are functions the model is given, and the sandbox is a function of the calls made so far.
- BenchProviders.RecordingProvider.Complete: a call's timing is kept beside the call and not in it, and prefixes are compared whole rather than by hash.
- Dealt.HowLong: the heap is an unordered list whose least element is popped, so heapq's own layout is not modelled.
- ReportChannel.ReportsComeBack: that a report's json text decodes to what was sent and holds no line break is assumed of each report, as `json.dumps` and `json.loads` guarantee it.
- ReportChannel.OneLineLosesAll: a Dafny string holds no lone surrogate, so what the token decodes to is any value whose text does not encode.
- `pair_jobs`, `interval`, `percentile`, `compute_metrics`' counts, `parse_process` and `changed_leaves`: each would only add easy members, or is random resampling.
- Docker and HTTP calls, container policy, the subprocess sandbox, routes, command lines, rendering and the chaos harness, whose faults are the crash, pause and lost-answer steps of the protocol.
