# Judging services: a verified model

This project models the parts of the judging back end whose correctness is
hardest to see by reading one function, and proves what they guarantee.

**The agent pool** (the `Pool…` modules and `AgentPool`). Submitters, one
dispatcher, the spawned runners, the health loop, the drain loop and shutdown
share a FIFO queue, a list of agents, per-agent atomic counters and flags, an
unbounded signal channel and a one-permit `Notify`. `PoolModel` is the step
system: one event is one atomic section (a locked block, one atomic load or
store, one `send` or `notify_one`), and a run is any interleaving of enabled
events. Choosing an agent is a scan of several events under the queue lock, so
counters and flags move while it reads them; `fetch_add`, `fetch_sub`, the
notification and the requeue are separate events; the `u32` counters wrap.
`AgentPool` holds the shared objects in imperative form, with the agents'
cells shared by reference; each of its methods is one section and is proved to
move the model by exactly one event. The object also carries the run that led
to it, so every theorem about reachable states holds of its fields.

**The autoscaler** (`ScalerDecisions`, `QueueVelocity`, `AutoScalerLoop`,
`ScaledPool`): the two decisions, the moving average, the loop with cooldowns
and confirmation counter, and the loop together with asynchronous creations
and departures.

**The batch judge** (`VerdictRunner`): cases run in batches of eight and joined
in an order that is an input of the run, against a sequential judge.

**Smaller parts**: longest-match routing (`Router`), ICPC ranking in Rust and
TypeScript (`Ranking`), the frame protocol (`Protocol`).

Main results, all for every run or every input:

- no wakeup of the dispatcher is lost in either wait, and whenever the
  dispatcher cannot move there is a stated reason;
- every accepted frame is in exactly one place and answered at most once; left
  alone beside one usable agent, in any reachable state, the pool comes to rest
  within a bounded number of its own steps, whatever their order, and has then
  answered every accepted frame;
- retries are counted exactly; dispatching steps and fruitless scans are bounded
  by what was accepted and by the agents that came or recovered; tasks, retries
  included, leave the queue in the order they entered it;
- counters equal the running tasks and stay within capacity, for agents in the
  pool and out of it;
- a scan picks the first least loaded agent, and loads within one of each other
  stay so, until a completion, a recovery or a new agent lowers a load;
- an agent taken by the drain loop as idle can run a task later if and only if
  the dispatcher held a dispatch to it at that moment, and a removed agent, for
  whatever reason it was removed, if and only if it was at work at the removal;
- a round of the drain loop takes exactly the agents it reads as unhealthy, or as
  draining and idle, so one that stays so is gone after it, and one that stays
  fit is not;
- a tick of the autoscaler creates exactly the clipped least number of agents
  that is missing, and marks exactly at the end of a full run of low evaluations;
- scaling overshoots `max_agents` by at most the creations in flight when it
  looks and undershoots `min_agents` by at most the marked agents left when it
  marks, and these bounds are reached (the second one down to no agents);
- the batch judge's possible answers are exactly those that some order of
  completion gives, and it answers like a sequential one in every order if and
  only if the ending cases of the first batch with one are reported alike (and,
  when collecting, there is a case). Its `unwrap`s never fail unless a join is
  reported as cancelled, which only the teardown of the runtime could bring about.

Claims that fail, with the exact condition:

- *A healthy agent removed by the drain loop runs nothing.* It runs something
  exactly if it was at work at the removal: `RemovedAgentRunsIff`. That can happen
  to an agent read as draining and idle while the dispatcher held a dispatch to
  it (`DrainRace`; of agents taken as drained, `DrainedAgentRunsIffHeld` says
  exactly which), to one that recovered after it was read as unhealthy
  (`RecoveryRace`) and to one with a reused id (`ReusedIdRemovesBusyAgent`), and
  to no other: `HealthyRemovedAtWorkIff`.
- *The dispatcher never sleeps beside an idle agent.* It fails when
  `max_concurrent_per_agent` is 0 and anything is accepted: `NoLostAgentWakeupIff`.
- *The dispatcher never sleeps on beside an agent with room.* It fails when
  agents may run two tasks or more: `NeverSleepsBesideRoomIff`.
- *A dispatch lifts no agent above the least load plus one.* It fails in the same
  configurations, when a load is lowered between the scan and the `fetch_add`:
  `AlwaysFairIff`, `EachLoweringUnbalances`.
- *Beside a usable agent every accepted frame gets its answer.* It fails when
  `max_concurrent_per_agent` is 0 and anything is accepted: `AnswerableIff`.
- *Shutdown leaves the queue empty.* `QueueRefillsIff` says when it can refill.
- *Never more than `max_agents`.* It fails exactly when creations may be in
  flight as the scaler looks: `NeverAboveMaxIff`.
- *Never fewer than `min_agents`, if only marked agents leave.* It fails exactly
  when marked agents may be left as the next is marked: `NeverBelowMinIff`.
- *Without stop-on-first-error the verdicts are collected.* An empty case list is
  answered `AllPassed` with zero usage: `CollectedIff`.

Verify with `dafny verify dfyconfig.toml`.

## Model

| member | source | states |
|---|---|---|
| PoolModel.Position | services/crates/judge_core_manager/src/pool.rs:242 | a position found holds the id; none is found only if no agent of the pool has it |
| PoolMembership.AddedById | services/crates/judge_core_manager/src/pool.rs:218-237 | adding a present id changes nothing; a new id joins at the end, idle, healthy and undrained, with a permit stored and all other cells untouched |
| PoolMembership.RemovedById | services/crates/judge_core_manager/src/pool.rs:240-246 | exactly the agent with the id leaves the list, the others keep their order; its cells live on unchanged |
| PoolMembership.MarkedById | services/crates/judge_core_manager/src/pool.rs:249-255 | exactly the pool's agent with the id becomes draining |
| PoolMembership.RetainedById | services/crates/judge_core_manager/src/pool.rs:541-544 | the drain loop keeps exactly the agents that share no id with a candidate, in their order |
| PoolRuns.WellFormedStep | services/crates/judge_core_manager/src/pool.rs:78-118 | every event keeps all references valid and the pool's ids distinct; a scan never outlives the queue head or the agent list it reads |
| PoolCapacity.CapacityStep | services/crates/judge_core_manager/src/pool.rs:369-409 | every event keeps each counter equal to the tasks running on the agent and at most `max_concurrent_per_agent`, and keeps room for a dispatch under way |
| PoolCapacity.CountersNeverWrap | services/crates/judge_core_manager/src/pool.rs:393-409 | `fetch_add` and `fetch_sub` on the wrapping `u32` are exact |
| PoolTheorems.CountersWithinCapacity | services/crates/judge_core_manager/src/pool.rs:357-432 | in every reachable state, for every agent ever made, the counter is the number of its running tasks and within the limit |
| PoolWakeup.TaskWakeupStep | services/crates/judge_core_manager/src/pool.rs:132-151 | every event keeps: waiting for a signal with none buffered implies an empty queue |
| PoolWakeup.AgentWakeupStep | services/crates/judge_core_manager/src/pool.rs:369-412 | every event keeps: with no notification stored or owed, every agent the dispatcher has passed over is unusable or busy |
| PoolTheorems.NoLostTaskWakeup | services/crates/judge_core_manager/src/pool.rs:361-367 | in every reachable state the empty-queue wait with no signal has an empty queue |
| PoolTheorems.DispatcherSleepsForAReason | services/crates/judge_core_manager/src/pool.rs:357-391 | if no step of the dispatcher is enabled, the queue is empty, or every usable agent is busy, or a notification is the next step of some other part |
| PoolTheorems.NoLostAgentWakeupIff | services/crates/judge_core_manager/src/pool.rs:369-390 | no agent wakeup is lost in any run if and only if an agent may run a task or nothing is ever accepted |
| PoolTheorems.SleepsWithoutCapacity | services/crates/judge_core_manager/src/pool.rs:375 | a run that ends asleep beside an idle agent when the limit is 0 |
| PoolLimits.NeverSleepsBesideRoomIff | services/crates/judge_core_manager/src/pool.rs:409-412 | the dispatcher never sleeps on, unnotified, beside an agent its next scan would pick, in any run, if and only if agents run at most one task at a time or nothing is ever accepted |
| PoolLimits.SleepsBesideRoomRun | services/crates/judge_core_manager/src/pool.rs:384-389 | for every larger limit a run that ends in such a sleep, with a task queued |
| PoolFrames.ConservedStep | services/crates/judge_core_manager/src/pool.rs:126-151 | every event keeps frame ids fresh and every accepted frame in exactly one of queue, dispatcher, runner or answers |
| PoolFrames.ExactlyOnePlace | services/crates/judge_core_manager/src/pool.rs:357-432 | an accepted frame occurs once over all places, any other frame nowhere |
| PoolTheorems.AnsweredAtMostOnce | services/crates/judge_core_manager/src/pool.rs:277-281 | an answered frame was accepted, has no second answer and is nowhere at work, shutdown or not |
| PoolTheorems.NoneForgotten | services/crates/judge_core_manager/src/pool.rs:414-431 | when queue, dispatcher and runners are at rest every accepted frame has been answered |
| PoolTheorems.WorkIsZeroIffAnswered | services/crates/judge_core_manager/src/pool.rs:357-432 | in every reachable state the work left is zero exactly when every accepted frame has its answer |
| PoolAnswers.AnswerableIff | services/crates/judge_core_manager/src/pool.rs:357-432 | from every reachable state with a usable agent, every run of dispatcher steps, runner steps and owed notifications that comes to rest has answered every accepted frame, if and only if agents may run a task or nothing is ever accepted |
| PoolAnswers.InternalRunsEnd | services/crates/judge_core_manager/src/pool.rs:357-432 | no run of such steps, from any state, is longer than a bound computed from the state it starts in |
| PoolAnswers.QuietIsIdle | services/crates/judge_core_manager/src/pool.rs:384-412 | when none of these steps is possible beside a usable agent, no task is queued, chosen or with a runner |
| PoolAnswers.OneAgentServesAll | services/crates/judge_core_manager/src/pool.rs:204-237 | from every reachable state, usable agent or not, one new agent is enough to have every accepted frame answered |
| PoolFrames.FifoStep | services/crates/judge_core_manager/src/pool.rs:140-145 | every event keeps: the tasks that have left the queue, then those in it, are all that entered, in their order, and the first attempts among them are the accepted frames |
| PoolFrames.QueueStep | services/crates/judge_core_manager/src/pool.rs:140-151 | what each event adds at the end of the queue: an accepted frame, a failed attempt with a retry left, or nothing; what has entered and left only grows |
| PoolFrames.BoundedIntakeStep | services/crates/judge_core_manager/src/pool.rs:133-136 | every event keeps the number of queued first attempts within `max_queue_size` |
| PoolTheorems.FirstInFirstOut | services/crates/judge_core_manager/src/pool.rs:131-151 | in every reachable state first attempts leave in acceptance order and at most `max_queue_size` of them wait |
| PoolTheorems.TasksLeaveInOrder | services/crates/judge_core_manager/src/pool.rs:381-425 | in every reachable state all tasks, retries included, have left the queue in the order they entered it |
| PoolRetries.LedgerStep | services/crates/judge_core_manager/src/pool.rs:419-429 | every event keeps the count of starts and failures behind each queued, running and answered frame exact |
| PoolRetries.StartsBounded | services/crates/judge_core_manager/src/pool.rs:422-429 | no frame is started more than `max_retries` + 1 times |
| PoolTheorems.AnswersCountAttempts | services/crates/judge_core_manager/src/pool.rs:414-429 | `MaxRetriesExceeded` answers exactly `max_retries` + 1 failures, success exactly one start more than failures, shutdown as many starts as failures |
| PoolProgress.WorkStep | services/crates/judge_core_manager/src/pool.rs:380-432 | choosing, counting, finishing, notifying, requeueing and answering each use up work; only an accepted submission adds any |
| PoolProgress.ProgressBounded | services/crates/judge_core_manager/src/pool.rs:357-432 | over any run from any state the number of such steps is bounded by the work there was and a fixed budget per acceptance |
| PoolProgress.InFlightCanProgress | services/crates/judge_core_manager/src/pool.rs:406-432 | a spawned runner always has a next step, which uses up work, except that a requeue may wait for the queue lock |
| PoolTheorems.StepsPerAcceptedTask | services/crates/judge_core_manager/src/pool.rs:357-432 | from creation on, dispatching steps and remaining work are within the budget times the accepted frames |
| PoolScans.FruitlessScansArePaid | services/crates/judge_core_manager/src/pool.rs:361-390 | over any run from any state, scans that find no agent are at most the wakeups there were, and one, plus the signals sent and permits stored on the way |
| PoolScans.NoSpinning | services/crates/judge_core_manager/src/pool.rs:361-432 | from creation on, such scans are bounded by the accepted frames, the agents added and the recoveries |
| PoolDrain.QuiescedStep | services/crates/judge_core_manager/src/pool.rs:525-544 | once an agent is draining with nothing running but a known held dispatch, no event ever starts anything else on it, in the pool or out of it |
| PoolDrain.DrainedAgentRunsIffHeld | services/crates/judge_core_manager/src/pool.rs:530-535 | after the drain loop reads an agent as draining and idle, some later state runs a task on it if and only if the dispatcher held a dispatch to it |
| PoolTheorems.DrainRemovesSafely | services/crates/judge_core_manager/src/pool.rs:519-548 | every removed agent was read as unhealthy, or is draining and runs at most the held dispatch, or an id was used twice and it goes along with another agent of its id |
| PoolTheorems.DrainRace | services/crates/judge_core_manager/src/pool.rs:380-393 | a run in which a healthy agent is removed while a task runs on it |
| PoolRounds.RoundFindsBad | services/crates/judge_core_manager/src/pool.rs:525-535 | within a round the snapshot is read agent by agent, and the candidates are exactly those whose reading found them unhealthy, or draining with no active task |
| PoolRounds.SickAgentsLeave | services/crates/judge_core_manager/src/pool.rs:525-544 | an agent that is unhealthy from the snapshot until it is read is not in the pool after the round, busy or not |
| PoolRounds.QuietAgentsLeave | services/crates/judge_core_manager/src/pool.rs:525-544 | a draining agent with nothing running or held at the snapshot is not in the pool after the round |
| PoolRounds.FitAgentsStay | services/crates/judge_core_manager/src/pool.rs:525-544 | an agent that until it is read stays healthy, and undrained or busy, is not removed by the round |
| PoolRemoval.RemovedAgentRunsIff | services/crates/judge_core_manager/src/pool.rs:541-544 | for every removal, a task can run on the removed agent at some later time if and only if one runs on it or is chosen for it at the removal |
| PoolRemoval.RemovedSomehow | services/crates/judge_core_manager/src/pool.rs:532-544 | every removed agent was read as unhealthy, as draining and idle with or without a held dispatch, or shares its id with a candidate |
| PoolRemoval.DrainedRunsOnlyHeld | services/crates/judge_core_manager/src/pool.rs:533-544 | an agent read as draining and idle is not at work at its removal if no dispatch was held, and with nothing but that dispatch if one was |
| PoolRemoval.HealthyRemovedAtWorkIff | services/crates/judge_core_manager/src/pool.rs:530-544 | for each of these readings, a healthy agent can be removed for it while at work if and only if the pool can run tasks; never after a quiet reading |
| PoolRemoval.RecoveryRace | services/crates/judge_core_manager/src/pool.rs:503-544 | a run in which an agent that has recovered, never marked, is removed with a task running |
| PoolRemoval.ReusedIdRemovesBusyAgent | services/crates/judge_core_manager/src/pool.rs:541-544 | a run in which an agent added under a candidate's id is removed healthy, unmarked and at work |
| PoolShutdown.RejectionAnswersAll | services/crates/judge_core_manager/src/pool.rs:277-282 | rejecting the queue empties it and answers each of its tasks, in order, that the pool is shutting down |
| PoolShutdown.QueueRefillsIff | services/crates/judge_core_manager/src/pool.rs:272-285 | after shutdown emptied the queue, some later state has a queued task if and only if a checked submitter or an unfinished attempt with a retry left was on its way |
| PoolBalance.BetterIsFirstLeast | services/crates/judge_core_manager/src/pool.rs:370-378 | each element the scan reads keeps the candidate the first least loaded of the eligible agents |
| PoolBalance.ScanPicksFirstLeast | services/crates/judge_core_manager/src/pool.rs:369-383 | from any state, a scan during which no task finishes and no flag or membership changes picks the first least loaded agent with room |
| PoolBalance.FairIsLowLift | services/crates/judge_core_manager/src/pool.rs:376-393 | picking a least loaded agent means that counting it lifts the agent to at most one above every eligible load |
| PoolBalance.DispatchBalances | services/crates/judge_core_manager/src/pool.rs:357-393 | from any state, while no task finishes, no agent recovers and none is added, every dispatch goes to a least loaded agent, and loads within one of each other stay so |
| PoolLimits.EachLoweringUnbalances | services/crates/judge_core_manager/src/pool.rs:379-393 | a completion, a recovery or a new agent between scan and `fetch_add`, each alone, makes a reachable dispatch go to an agent that is not least loaded |
| PoolLimits.AlwaysFairIff | services/crates/judge_core_manager/src/pool.rs:379-393 | every dispatch in every run goes to a least loaded agent if and only if agents run at most one task at a time or nothing is ever accepted |
| PoolMeasure.MetricsCountRunningTasks | services/crates/judge_core_manager/src/pool.rs:156-173 | `active_tasks` is the number of tasks running on agents of the pool, at most capacity times agents; the other counts are those of queued tasks, agents, and healthy, unhealthy and draining agents |
| AgentPool.AgentPool.constructor | services/crates/judge_core_manager/src/pool.rs:79-97 | a new pool is the initial state |
| AgentPool.AgentPool.CheckOpen | services/crates/judge_core_manager/src/pool.rs:122-124 | open exactly when not shutting down; moves the model by one event |
| AgentPool.AgentPool.TakeFrameId | services/crates/judge_core_manager/src/pool.rs:126 | hands out the next id and advances it by one |
| AgentPool.AgentPool.Enqueue | services/crates/judge_core_manager/src/pool.rs:131-151 | accepts exactly when the queue is below its limit, then appends the frame and sends a signal exactly if the queue was empty; the frame was never accepted before, and first attempts stay within the limit |
| AgentPool.AgentPool.RejectQueued | services/crates/judge_core_manager/src/pool.rs:277-282 | the pop loop empties the queue and answers each of its tasks, in order, that the pool is shutting down; none of the frames has an answer already |
| AgentPool.AgentPool.ClearAgents | services/crates/judge_core_manager/src/pool.rs:315-318 | the list is emptied, the cells stay |
| AgentPool.AgentPool.AddAgent | services/crates/judge_core_manager/src/pool.rs:218-237 | a listed id changes nothing; otherwise one new handle, idle, healthy and undrained, joins at the end and a permit is stored |
| AgentPool.AgentPool.RemoveAgent | services/crates/judge_core_manager/src/pool.rs:240-246 | exactly the agent with the id is taken out of its place and returned; none exactly when the id is not listed |
| AgentPool.AgentPool.ShutdownAgent | services/crates/judge_core_manager/src/pool.rs:249-255 | sets the flag of exactly the listed agent with the id; found exactly when there is one |
| AgentPool.AgentPool.StoreHealth | services/crates/judge_core_manager/src/pool.rs:503-515 | stores the flag; a notification is owed and the failure count cleared exactly on recovery |
| AgentPool.AgentPool.CheckHealth | services/crates/judge_core_manager/src/pool.rs:474-515 | one probe and its storing: flag and failure count move by one round of the specified automaton |
| PoolHealth.HealthFollowsProbes | services/crates/judge_core_manager/src/pool.rs:481-513 | after any series of probes an agent is unhealthy exactly when the last ones failed, at least one and at least the threshold of them in a row |
| AgentPool.AgentPool.DrainReadHealth | services/crates/judge_core_manager/src/pool.rs:532-533 | the agent is a candidate by this reading exactly when it is unhealthy |
| AgentPool.AgentPool.DrainReadLoad | services/crates/judge_core_manager/src/pool.rs:533 | the agent is a candidate by this reading exactly when it is draining with no active task |
| AgentPool.AgentPool.DrainRetain | services/crates/judge_core_manager/src/pool.rs:537-544 | a round without candidates changes nothing; otherwise exactly the agents whose id no candidate has stay, in their order |
| AgentPool.AgentPool.CheckQueue | services/crates/judge_core_manager/src/pool.rs:361-369 | refines the decision between waiting and scanning |
| AgentPool.AgentPool.ScanNext | services/crates/judge_core_manager/src/pool.rs:370-378 | the agent becomes the best so far exactly if it is healthy, undrained, below the limit and less loaded than the best |
| AgentPool.AgentPool.ScanEnd | services/crates/judge_core_manager/src/pool.rs:379-390 | the best agent, which has room, gets the head of the queue; with none the queue is untouched and the dispatcher waits |
| AgentPool.AgentPool.CountDispatch | services/crates/judge_core_manager/src/pool.rs:393-406 | `fetch_add` on the chosen agent alone: one more task, within `max_concurrent_per_agent`; the runner exists |
| AgentPool.AgentPool.Release | services/crates/judge_core_manager/src/pool.rs:409-412 | `fetch_sub` on the runner's agent alone: exactly one task less, never a wrap; it owes a notification exactly if none is left |
| AgentPool.AgentPool.Settle | services/crates/judge_core_manager/src/pool.rs:414-431 | success and exhausted retries send that answer, to a frame that has none yet; a failure with retries left goes to the end of the queue with one retry more and sends a signal |
| AgentPool.AgentPool.WaitsForTasks | services/crates/judge_core_manager/src/pool.rs:361-367 | on the object: a dispatcher waiting for tasks with an empty channel has an empty queue |
| AgentPool.AgentPool.WaitsForAgents | services/crates/judge_core_manager/src/pool.rs:384-389 | on the object: a dispatcher waiting for agents with no permit stored or owed has only unusable or busy agents |
| AgentPool.AgentPool.FindLeastLoadedAgent | services/crates/judge_core_manager/src/pool.rs:262-269 | the first least loaded healthy agent that is not draining, or none if there is none |
| AgentPool.AgentPool.Metrics | services/crates/judge_core_manager/src/pool.rs:156-173 | the counting loop returns the number of queued tasks, of agents, and of healthy, unhealthy and draining ones; its active tasks are those running on the pool's agents, within their capacity |
| ScalerDecisions.QueueVelocityTracker.Update | services/crates/judge_core_manager/src/scaler.rs:32-43 | one step of the moving average, per tick and per second |
| QueueVelocity.VelocityIsWeightedSum | services/crates/judge_core_manager/src/scaler.rs:32-43 | the recurrence is the exponentially weighted sum of all queue growths |
| QueueVelocity.VelocityBounded | services/crates/judge_core_manager/src/scaler.rs:32-43 | its magnitude never exceeds the largest growth |
| QueueVelocity.VelocityDecays | services/crates/judge_core_manager/src/scaler.rs:32-43 | over ticks of constant size it decays geometrically |
| QueueVelocity.Feed | services/crates/judge_core_manager/src/scaler.rs:94-101 | the tracker object, fed size by size, holds that sum |
| ScalerDecisions.DemandMeans | services/crates/judge_core_manager/src/scaler.rs:54-62 | the demand is the tasks there are plus the least whole number covering a growing queue's gain while an agent is provisioned |
| ScalerDecisions.ScaleUpIsLeast | services/crates/judge_core_manager/src/scaler.rs:48-67 | the decision is the least number of agents covering the demand, cut off by batch size and maximum, or none if agents have no capacity; it never passes the maximum |
| ScalerDecisions.DivCeilIsLeast | services/crates/judge_core_manager/src/scaler.rs:62-64 | that least number exists for every observation |
| ScalerDecisions.LowIsBelowShare | services/crates/judge_core_manager/src/scaler.rs:70-79 | low utilization means more agents than the minimum and fewer active tasks than the threshold's share of the capacity that is not draining, at least one agent's |
| AutoScalerLoop.AutoScaler.constructor | services/crates/judge_core_manager/src/scaler.rs:91-95 | both cooldowns have just elapsed at the start |
| AutoScalerLoop.AutoScaler.Tick | services/crates/judge_core_manager/src/scaler.rs:98-165 | one pass of the loop takes the specified action and moves to the specified control state |
| AutoScalerLoop.RunFor | services/crates/judge_core_manager/src/scaler.rs:97-166 | the loop over any finite sequence of ticks takes the specified action at each |
| AutoScalerLoop.ActionMeans | services/crates/judge_core_manager/src/scaler.rs:114-163 | a tick creates k agents exactly when k > 0 is the clipped least number missing and the cooldown is over, marks one exactly when none is missing, utilization is low and confirmed, the cooldown is over and an agent was found, and otherwise does nothing |
| AutoScalerLoop.TickedMeans | services/crates/judge_core_manager/src/scaler.rs:100-155 | a tick remembers the time of its action, the queue size and one step of the moving average |
| AutoScalerLoop.ConfirmMeans | services/crates/judge_core_manager/src/scaler.rs:140-155 | the confirmation counter is kept when agents are missing, and otherwise counts a low evaluation or restarts |
| AutoScalerLoop.MarkedIff | services/crates/judge_core_manager/src/scaler.rs:81-163 | over runs, an agent is marked exactly when none is missing, the evaluation completes a multiple of `scale_down_confirm_ticks` low ones in a row, the cooldown is over and an agent was found |
| AutoScalerLoop.MarkedOnlyAfterConfirmation | services/crates/judge_core_manager/src/scaler.rs:81-87 | a mark follows a full run of low evaluations, ticks that want more agents neither counting nor resetting |
| AutoScalerLoop.CooldownsKept | services/crates/judge_core_manager/src/scaler.rs:118-154 | two marks, and two scale-ups, are at least their cooldown apart |
| ScaledPool.EventMeans | services/crates/judge_core_manager/src/scaler.rs:116-163 | what looks, creations, landings, failures, marks and departures do to the agents there are, those that will stay, and all with those on their way |
| ScaledPool.OvershootBounded | services/crates/judge_core_manager/src/scaler.rs:100-138 | with at most p creations in flight at each look, agents plus creations never exceed `max_agents` + p, however creations land or fail and agents leave |
| ScaledPool.OvershootReached | services/crates/judge_core_manager/src/scaler.rs:98-138 | for every p and every configuration that can create agents, a run from the start, its looks a tick apart and with at most p creations in flight at each, ends at `max_agents` + p |
| ScaledPool.NeverAboveMaxIff | services/crates/judge_core_manager/src/scaler.rs:98-138 | no run passes `max_agents` if and only if p is 0 or the configuration creates no agents, whether looks keep to the ticker or not |
| ScaledPool.UndershootBounded | services/crates/judge_core_manager/src/scaler.rs:139-163 | with at most d marked agents left at each mark and only those leaving, at least `min_agents` - d remain |
| ScaledPool.UndershootReached | services/crates/judge_core_manager/src/scaler.rs:79-163 | for every d up to `min_agents` and every positive threshold, a run from the start, its looks a tick apart and with at most d marked agents left at each mark, ends at `min_agents` - d |
| ScaledPool.NeverBelowMinIff | services/crates/judge_core_manager/src/scaler.rs:79-163 | while only marked agents leave, no run falls below `min_agents` if and only if d is 0, the minimum is 0 or the threshold is not positive, whether looks keep to the ticker or not |
| VerdictRunner.Handle | services/crates/judge_core_agent/src/verdict/mod.rs:41-181 | every exit answers as specified for the order of completion, starts no case before a successful compilation and cleans up exactly once after a successful preparation |
| VerdictRunner.SpawnBatch | services/crates/judge_core_agent/src/verdict/mod.rs:107-121 | a batch is the next eight cases or what is left, each with its own index |
| VerdictRunner.RunBatches | services/crates/judge_core_agent/src/verdict/mod.rs:106-180 | the batch loop computes the answer specified for the order of completion, panics included; every way out cleans up once |
| VerdictRunner.AnswersIffSomeOrder | services/crates/judge_core_agent/src/verdict/mod.rs:106-180 | the answers some order of completion gives are exactly: the conclusion over all cases if none ends the run, else the report of an ending case of the first batch with one, and no later batch started |
| VerdictRunner.AnswersMean | services/crates/judge_core_agent/src/verdict/mod.rs:123-164 | a run is stopped only with the verdict of a case judged and not accepted, and is an internal error only with the message of a case that failed or panicked, in the first batch of eight with such a case, the last one started |
| VerdictRunner.EndingCaseMayAnswer | services/crates/judge_core_agent/src/verdict/mod.rs:123-164 | conversely each such case of that batch may be the one answered |
| VerdictRunner.JoinBatch | services/crates/judge_core_agent/src/verdict/mod.rs:123-164 | joins the batch in the given order, cancelled tasks included, up to the first case that ends the run, and gathers exactly what the specified loop does |
| VerdictRunner.MaxIsUnique | services/crates/judge_core_agent/src/verdict/mod.rs:128-135 | the maximum usage over the accepted cases of a set does not depend on their order |
| VerdictRunner.AllPassedIffAllAccepted | services/crates/judge_core_agent/src/verdict/mod.rs:123-142 | with stop-on-first, `AllPassed` exactly when every case was accepted or cancelled and one was accepted (or there is none), with the maximum over the accepted ones |
| VerdictRunner.CollectedIff | services/crates/judge_core_agent/src/verdict/mod.rs:94-104 | without it, verdicts are collected in case order exactly when there are cases and all are judged |
| VerdictRunner.PanicsIffCancelled | services/crates/judge_core_agent/src/verdict/mod.rs:156-176 | without cancelled joins no `unwrap` fails; one panics exactly when nothing ended the run and all cases (stopping) or any case (collecting) were cancelled |
| VerdictRunner.BatchedIsSequentialIff | services/crates/judge_core_agent/src/verdict/mod.rs:94-164 | the answer is the sequential judge's in every order of completion if and only if the ending cases of the first batch with one are reported alike, and there are cases or none are collected |
| Router.MatchesMeans | services/crates/gateway/src/router.rs:16-41 | an exact route applies to its own path, a prefix route to paths that begin with its path and end there or go on with a slash |
| Router.MatchRouteIsFirstBest | services/crates/gateway/src/router.rs:12-32 | none exactly when nothing matches, otherwise the first matching route with the greatest key |
| Router.LongestMatchWins | services/crates/gateway/src/router.rs:12-32 | the chosen route applies, none that applies has a longer path, none of that length is exact if it is not, and it is the first such |
| Router.ExactMatchWins | services/crates/gateway/src/router.rs:23-28 | an exact match beats every prefix match |
| Router.EqualKeysAgree | services/crates/gateway/src/router.rs:34-41 | matching routes with equal keys have the same path and type |
| Router.OrderIndependent | services/crates/gateway/src/router.rs:12-32 | permuting the table never changes the chosen path and type, nor the route if these pairs are distinct |
| Ranking.SortUnstable | services/crates/algorithm/src/ranking.rs:36-43 | some sorted permutation, any order among ties |
| Ranking.StableSortSorts | packages/algorithm/src/ranking.ts:23-31 | a sorted permutation |
| Ranking.StableSortIsStable | packages/algorithm/src/ranking.ts:23-31 | tied entries keep their order |
| Ranking.AssignRanks | services/crates/algorithm/src/ranking.rs:45-71 | the loop gives each sorted entry one more than the number of entries strictly better |
| Ranking.RankRust | services/crates/algorithm/src/ranking.rs:45-71 | standard competition ranking of the input |
| Ranking.RankTypeScript | packages/algorithm/src/ranking.ts:49-78 | the same, with ties in input order |
| Ranking.RankingMeans | services/crates/algorithm/src/ranking.rs:32-71 | in a ranking more solved comes first, then less time plus charge per penalty, and each rank is one more than the number of teams ahead by that order |
| Ranking.RankingsAgree | packages/algorithm/src/ranking.ts:49-78 | two rankings of the same entries, in any input order and by either version, give everyone the same rank |
| Protocol.Stream.Send | services/crates/judge_core_shared/src/protocol.rs:41-48 | appends the length and the payload |
| Protocol.Stream.Receive | services/crates/judge_core_shared/src/protocol.rs:15-28 | takes one packet off the stream and answers exactly heartbeats, with a heartbeat |
| Protocol.Stream.SendHeartbeat | services/crates/judge_core_shared/src/protocol.rs:31-38 | writes a heartbeat, takes one length off the stream and classifies it; an answer that counts as alive is taken off whole |
| Protocol.AliveIffHeartbeatBack | services/crates/judge_core_shared/src/protocol.rs:31-38 | the peer counts as alive exactly when its first packet is a heartbeat |
| Protocol.ParseWire | services/crates/judge_core_shared/src/protocol.rs:15-28 | a packet is read back whatever follows it; data is never read as a heartbeat |
| Protocol.ParseCut | services/crates/judge_core_shared/src/protocol.rs:23-24 | a packet cut off anywhere is an end of stream |
| Protocol.ParseUndecodable | services/crates/judge_core_shared/src/protocol.rs:23-26 | a payload that does not decode is taken off the stream whole and reported |
| Protocol.StreamRoundTrip | services/crates/judge_core_shared/src/protocol.rs:15-48 | a stream of data and heartbeats cut anywhere yields exactly its complete packets |

## Left out

- The relaxed atomics of the pool are interleaved as if sequentially consistent; the four loads the scan makes on one agent, and the two flag and counter loads the drain filter makes after the health flag, are one step each.
- A probe's outcome is an input: sockets and timeouts are not modelled. The consecutive-failure count is unbounded; the source's `u32` wraps.
- A runner's `execute_task` is a free choice of success or failure; a panic inside it, which would leave the counter raised, is not modelled.
- Frame ids are unbounded here; the source's `u64` wraps after 2^64 submissions. The sum of active tasks in `metrics` is unbounded too.
- AgentPool.AgentPool.Metrics: reads the list while nothing moves, although in the source the flags may change between its passes.
- AgentPool.AgentPool.ScanNext and the other steps of looping parts are called one section at a time; the endless `loop`s that repeat them are the runs of the step system.
- Destroying agents at shutdown is not followed to the end: the autoscaler may add agents after the id list is taken. Shutdown's marking of all agents is a series of `MarkDraining` events; the 100 ms polling and the drain timeout are free interleaving.
- `f64` is `real`, so rounding in velocity and utilization is not modelled; instants are unbounded integers, so `Instant::now() - cooldown` cannot fail as it could shortly after boot.
- VerdictRunner.Handle: the verdict id counter, the work directory and the sandboxing are not modelled.
- Ranking.SortUnstable: penalties are unbounded naturals, so `u64` overflow and the limits of TypeScript numbers are not modelled; the library's sorting algorithm is replaced by one that may return every sorted order.
- Protocol.ParseWire: postcard is not part of this model; the codec is any pair that gives the frame back in fewer than 2^32 bytes and at least one. Socket errors other than end of stream are left out.
- Left out because they are mostly input and output: the provisioner, the sandbox for C++, cgroups and seccomp, the HTTP routers, authentication, the gateway's layers and upstream URIs, the message queue consumers, the databases and the SDK clients.
