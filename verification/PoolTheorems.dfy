/** What holds in every state the pool can reach, under any interleaving. */
module PoolTheorems {
  import opened Common
  import opened PoolModel
  import opened PoolRuns
  import opened PoolCapacity
  import opened PoolWakeup
  import opened PoolFrames
  import opened PoolRetries
  import opened PoolDrain
  import opened PoolProgress

  ghost predicate Sound(c: Config, s: State) {
    && WellFormed(s)
    && Capacity(c, s)
    && TaskWakeup(s)
    && (c.maxConcurrent >= 1 ==> AgentWakeup(s))
    && Conserved(s)
    && Fifo(s)
    && BoundedIntake(c, s)
    && Ledger(c, s)
    && DrainSafe(s)
  }

  lemma SoundInit(c: Config)
    ensures Sound(c, Init())
  {
  }

  lemma SoundStep(c: Config, s: State, e: Event)
    requires Sound(c, s) && Enabled(c, s, e)
    ensures Sound(c, Apply(c, s, e))
  {
    CapacityStep(c, s, e);
    TaskWakeupStep(c, s, e);
    if c.maxConcurrent >= 1 {
      AgentWakeupStep(c, s, e);
    }
    ConservedStep(c, s, e);
    FifoStep(c, s, e);
    BoundedIntakeStep(c, s, e);
    LedgerStep(c, s, e);
    DrainSafeStep(c, s, e);
  }

  lemma {:induction false} SoundRun(c: Config, s: State, es: seq<Event>)
    requires Sound(c, s) && Run(c, s, es).Some?
    ensures Sound(c, Run(c, s, es).value)
    decreases |es|
  {
    if es != [] {
      SoundStep(c, s, es[0]);
      SoundRun(c, Apply(c, s, es[0]), es[1..]);
    }
  }

  lemma ReachableIsSound(c: Config, es: seq<Event>, s: State)
    requires Reaches(c, es, s)
    ensures Sound(c, s)
  {
    SoundInit(c);
    SoundRun(c, Init(), es);
  }

  // ----- Wakeups -----

  /** A queued task never waits for a dispatcher that nobody will wake. */
  lemma NoLostTaskWakeup(c: Config, es: seq<Event>, s: State)
    requires Reaches(c, es, s) && s.dispatcher.EmptyWait? && s.signals == 0
    ensures s.queue == []
  {
    ReachableIsSound(c, es, s);
  }

  ghost predicate DispatcherStuck(c: Config, s: State)
    requires WellFormed(s)
  {
    forall e: Event :: Enabled(c, s, e) ==> !MovesDispatcher(e)
  }

  lemma StuckMeans(c: Config, s: State)
    requires WellFormed(s) && DispatcherStuck(c, s)
    ensures s.dispatcher.EmptyWait? || s.dispatcher.AgentWait?
    ensures s.signals == 0 && (s.dispatcher.AgentWait? ==> !s.permit)
  {
    assert !Enabled(c, s, CheckQueue) && !Enabled(c, s, RecvSignal) && !Enabled(c, s, ScanNext);
    assert !Enabled(c, s, ScanEnd) && !Enabled(c, s, WakeByPermit) && !Enabled(c, s, WakeBySignal);
    assert !Enabled(c, s, CountDispatch);
  }

  /** If no step of the dispatcher is enabled then either there is nothing to
      dispatch, or every usable agent is busy, or some task is about to notify. */
  lemma DispatcherSleepsForAReason(c: Config, es: seq<Event>, s: State)
    requires Reaches(c, es, s) && c.maxConcurrent >= 1
    requires DispatcherStuck(c, s)
    ensures s.dispatcher.EmptyWait? || s.dispatcher.AgentWait?
    ensures s.dispatcher.EmptyWait? ==> s.queue == []
    ensures s.dispatcher.AgentWait? ==>
              || (forall k | 0 <= k < |s.agents| ::
                    var h := s.handles[s.agents[k]]; h.healthy && !h.draining ==> h.active > 0)
              || Enabled(c, s, NotifyRecovery)
              || (exists i | 0 <= i < |s.runners| :: Enabled(c, s, NotifyIdle(i)))
  {
    ReachableIsSound(c, es, s);
    StuckMeans(c, s);
    if s.dispatcher.AgentWait? && RunnerOwes(s.runners) {
      var i :| 0 <= i < |s.runners| && s.runners[i].Released? && s.runners[i].owes;
      assert Enabled(c, s, NotifyIdle(i));
    }
  }

  // ----- Frames -----

  lemma AnswerIsAlone(s: State, i: nat)
    requires Conserved(s) && i < |s.log.answers|
    ensures var f := s.log.answers[i].frame;
      && f in s.log.accepted
      && f !in multiset(QueueFrames(s.queue)) && f !in multiset(ChosenFrames(s.dispatcher))
      && f !in multiset(RunnerFrames(s.runners))
      && (forall k | 0 <= k < |s.log.answers| && k != i :: s.log.answers[k].frame != f)
  {
    var fs := AnswerFrames(s.log.answers);
    ExactlyOnePlace(s, fs[i]);
    TakeOne(fs, i);
    forall k | 0 <= k < |s.log.answers| && k != i ensures s.log.answers[k].frame != fs[i] {
      assert (fs[..i] + fs[i + 1..])[if k < i then k else k - 1] == fs[k];
    }
  }

  /** A frame is answered at most once, and never while it is still at work. */
  lemma AnsweredAtMostOnce(c: Config, es: seq<Event>, s: State, i: nat)
    requires Reaches(c, es, s) && i < |s.log.answers|
    ensures var f := s.log.answers[i].frame;
      && f in s.log.accepted
      && (forall k | 0 <= k < |s.log.answers| && k != i :: s.log.answers[k].frame != f)
      && (forall k | 0 <= k < |s.queue| :: s.queue[k].frame != f)
      && (s.dispatcher.Chosen? ==> s.dispatcher.task.frame != f)
      && (forall k | 0 <= k < |s.runners| :: s.runners[k].task.frame != f)
  {
    ReachableIsSound(c, es, s);
    AnswerIsAlone(s, i);
    NotAmong(s, s.log.answers[i].frame);
    assert s.dispatcher.Chosen? ==> s.dispatcher.task.frame in multiset(ChosenFrames(s.dispatcher));
  }

  ghost predicate Answered(s: State, f: nat) {
    exists i | 0 <= i < |s.log.answers| :: s.log.answers[i].frame == f
  }

  lemma AtWorkIsAccepted(s: State, f: nat)
    requires Conserved(s)
    requires (exists i | 0 <= i < |s.queue| :: s.queue[i].frame == f)
             || (exists i | 0 <= i < |s.runners| :: s.runners[i].task.frame == f)
             || (s.dispatcher.Chosen? && s.dispatcher.task.frame == f)
    ensures f in s.log.accepted
  {
    ExactlyOnePlace(s, f);
    NotAmong(s, f);
    assert s.dispatcher.Chosen? ==> s.dispatcher.task.frame in multiset(ChosenFrames(s.dispatcher));
  }

  ghost predicate AllAnswered(s: State) {
    forall f | f in s.log.accepted :: Answered(s, f)
  }

  lemma IdleIsAnswered(s: State)
    requires Conserved(s) && s.queue == [] && s.runners == [] && !s.dispatcher.Chosen?
    ensures AllAnswered(s)
  {
    forall f | f in s.log.accepted ensures Answered(s, f) {
      ExactlyOnePlace(s, f);
      assert f in AnswerFrames(s.log.answers);
      var i :| 0 <= i < |s.log.answers| && AnswerFrames(s.log.answers)[i] == f;
    }
  }

  /** Every accepted frame is answered once all work has come to rest. */
  lemma NoneForgotten(c: Config, es: seq<Event>, s: State)
    requires Reaches(c, es, s) && s.queue == [] && s.runners == [] && !s.dispatcher.Chosen?
    ensures AllAnswered(s)
  {
    ReachableIsSound(c, es, s);
    IdleIsAnswered(s);
  }

  /** No step is left to outstanding tasks exactly when every accepted frame has its answer. */
  lemma WorkIsZeroIffAnswered(c: Config, es: seq<Event>, s: State)
    requires Reaches(c, es, s)
    ensures Work(c, s) == 0 <==> AllAnswered(s)
  {
    ReachableIsSound(c, es, s);
    WorkIsZeroIffIdle(c, s);
    if Work(c, s) == 0 {
      NoneForgotten(c, es, s);
    } else if AllAnswered(s) {
      var f := if s.queue != [] then s.queue[0].frame else if s.runners != [] then s.runners[0].task.frame
               else s.dispatcher.task.frame;
      AtWorkIsAccepted(s, f);
      assert Answered(s, f);
      var i :| 0 <= i < |s.log.answers| && s.log.answers[i].frame == f;
      AnsweredAtMostOnce(c, es, s, i);
      assert false;
    }
  }

  /** The number of executions and of failures behind every answer. */
  lemma AnswersCountAttempts(c: Config, es: seq<Event>, s: State, i: nat)
    requires Reaches(c, es, s) && i < |s.log.answers|
    ensures var a := s.log.answers[i];
      && s.log.started[a.frame] <= c.maxRetries + 1
      && (a.outcome.Done? ==> s.log.failed[a.frame] + 1 == s.log.started[a.frame])
      && (a.outcome.ShuttingDown? ==> s.log.failed[a.frame] == s.log.started[a.frame] <= c.maxRetries)
      && (a.outcome.MaxRetriesExceeded? ==>
            && a.outcome.retries == c.maxRetries
            && s.log.failed[a.frame] == s.log.started[a.frame] == c.maxRetries + 1)
  {
    ReachableIsSound(c, es, s);
    assert AnswerTally(c, s.log.started, s.log.failed, s.log.answers[i]);
  }

  /** First attempts leave the queue in acceptance order, and at most
      `max_queue_size` of them wait in it, however many retries join them. */
  lemma FirstInFirstOut(c: Config, es: seq<Event>, s: State)
    requires Reaches(c, es, s)
    ensures FirstAttempts(s.log.left) + FirstAttempts(s.queue) == s.log.accepted
    ensures |FirstAttempts(s.queue)| <= c.maxQueue
  {
    ReachableIsSound(c, es, s);
    FirstAttemptsOfConcat(s.log.left, s.queue);
  }

  /** All tasks, retries included, leave the queue in the order they entered it. */
  lemma TasksLeaveInOrder(c: Config, es: seq<Event>, s: State)
    requires Reaches(c, es, s)
    ensures s.log.left + s.queue == s.log.entered
  {
    ReachableIsSound(c, es, s);
  }

  /** From the pool's creation on, dispatching steps are paid for by accepted tasks alone. */
  lemma StepsPerAcceptedTask(c: Config, es: seq<Event>, s: State)
    requires Reaches(c, es, s)
    ensures WellFormed(s) && ProgressSteps(c, Init(), es) + Work(c, s) <= Budget(c) * |s.log.accepted|
  {
    ProgressBounded(c, Init(), es);
  }

  // ----- Draining -----

  /** No two agents are ever added under one id: the provisioner draws fresh UUIDs. */
  ghost predicate FreshAgentIds(hs: seq<Handle>, es: seq<Event>) {
    && (forall i, a | 0 <= i < |es| && es[i].AddAgent? && 0 <= a < |hs| :: hs[a].id != es[i].id)
    && (forall i, j | 0 <= i < j < |es| && es[i].AddAgent? && es[j].AddAgent? :: es[i].id != es[j].id)
  }

  lemma FreshAgentIdsStep(c: Config, s: State, es: seq<Event>)
    requires WellFormed(s) && es != [] && Enabled(c, s, es[0])
    requires UniqueIds(s.handles) && FreshAgentIds(s.handles, es)
    ensures UniqueIds(Apply(c, s, es[0]).handles) && FreshAgentIds(Apply(c, s, es[0]).handles, es[1..])
  {
    var hs, hs' := s.handles, Apply(c, s, es[0]).handles;
    Frame(c, s, es[0]);
    FrameHandles(c, s, es[0]);
    assert es[0].AddAgent? && |hs'| > |hs| ==> hs' == hs + [Handle(es[0].id, 0, true, false)];
  }

  lemma {:induction false} FreshAgentIdsStayUnique(c: Config, s: State, es: seq<Event>)
    requires WellFormed(s) && Run(c, s, es).Some?
    requires UniqueIds(s.handles) && FreshAgentIds(s.handles, es)
    ensures UniqueIds(Run(c, s, es).value.handles)
    decreases |es|
  {
    if es != [] {
      FreshAgentIdsStep(c, s, es);
      WellFormedStep(c, s, es[0]);
      FreshAgentIdsStayUnique(c, Apply(c, s, es[0]), es[1..]);
    }
  }

  /** What the drain loop removes was read as unhealthy, or is draining for
      good and runs at most the dispatch that was held when its counter was
      read as zero; or its id was used before. */
  lemma DrainRemovesSafely(c: Config, es: seq<Event>, s: State, a: nat)
    requires Reaches(c, es, s) && Enabled(c, s, DrainRetain) && Removes(s, a)
    ensures exists i | 0 <= i < |s.drain.found| ::
              TakenAsCandidate(s, a, i) || (TakenAlong(s, a, i) && !FreshAgentIds([], es))
  {
    ReachableIsSound(c, es, s);
    RemovalIsSafe(c, s, a);
    if FreshAgentIds([], es) {
      FreshAgentIdsStayUnique(c, Init(), es);
      assert forall i | 0 <= i < |s.drain.found| :: !TakenAlong(s, a, i);
    }
  }

  // ----- Capacity -----

  /** Every counter is the number of tasks on the agent, within the limit, in
      the pool or out of it, and no step makes it wrap. */
  lemma CountersWithinCapacity(c: Config, es: seq<Event>, s: State, a: nat)
    requires Reaches(c, es, s) && a < |s.handles|
    ensures s.handles[a].active == RunningOn(s.runners, a) <= c.maxConcurrent
    ensures forall i: nat, ok: bool :: Enabled(c, s, Release(i, ok)) ==> s.handles[s.runners[i].agent].active > 0
  {
    ReachableIsSound(c, es, s);
    forall i: nat, ok: bool | Enabled(c, s, Release(i, ok)) ensures s.handles[s.runners[i].agent].active > 0 {
      CapacityRelease(c, s, i, ok);
    }
  }

  // ----- Two claims that fail, with the runs that show it -----

  /** One frame accepted, and the dispatcher at the start of a scan over one idle agent. */
  lemma OneFrameOneAgent(c: Config) returns (es: seq<Event>, s: State)
    requires c.maxQueue >= 1
    ensures WellFormed(s) && Reaches(c, es, s)
    ensures s == Init().(queue := [Task(1, 0)], handles := [Handle("a", 0, true, false)], agents := [0],
                         nextFrame := 2, signals := 1, permit := true, dispatcher := Scanning(0, None),
                         log := Init().log.(accepted := [1], entered := [Task(1, 0)]))
  {
    es, s := [], Init();
    es, s := Extend(c, es, s, AddAgent("a"));
    es, s := Extend(c, es, s, PassOpenCheck);
    es, s := Extend(c, es, s, TakeFrameId);
    es, s := Extend(c, es, s, Enqueue(1));
    es, s := Extend(c, es, s, CheckQueue);
  }

  lemma ChosenThenMarked(c: Config) returns (es: seq<Event>, s: State)
    requires c.maxQueue >= 1 && c.maxConcurrent >= 1
    ensures WellFormed(s) && Reaches(c, es, s)
    ensures s.dispatcher == Chosen(0, Task(1, 0)) && s.runners == [] && s.drain.DrainIdle?
    ensures s.agents == [0] && s.handles == [Handle("a", 0, true, true)]
  {
    es, s := OneFrameOneAgent(c);
    es, s := Extend(c, es, s, ScanNext);
    es, s := Extend(c, es, s, ScanEnd);
    es, s := Extend(c, es, s, MarkDraining("a"));
  }

  lemma ChosenThenDrained(c: Config) returns (es: seq<Event>, s: State)
    requires c.maxQueue >= 1 && c.maxConcurrent >= 1
    ensures WellFormed(s) && Reaches(c, es, s)
    ensures s.dispatcher == Chosen(0, Task(1, 0)) && s.runners == []
    ensures s.drain == DrainScan([], false, [Candidate(0, Drained(Some(Task(1, 0))))])
    ensures s.agents == [0] && s.handles == [Handle("a", 0, true, true)]
  {
    es, s := ChosenThenMarked(c);
    es, s := Extend(c, es, s, DrainSnapshot);
    es, s := Extend(c, es, s, DrainReadHealth);
    es, s := Extend(c, es, s, DrainReadLoad);
  }

  /** The drain loop can remove a healthy agent while a task runs on it. */
  lemma DrainRace(c: Config) returns (es: seq<Event>, s: State)
    requires c.maxQueue >= 1 && c.maxConcurrent >= 1
    ensures WellFormed(s) && Reaches(c, es, s) && Enabled(c, s, DrainRetain)
    ensures Removes(s, 0) && s.handles[0].healthy && s.handles[0].active == 1
    ensures s.drain.found == [Candidate(0, Drained(Some(Task(1, 0))))]
  {
    es, s := ChosenThenDrained(c);
    es, s := Extend(c, es, s, CountDispatch);
    assert s.drain.found[0].agent == 0;
    assert NamedBy(s.handles, s.drain.found, 0);
    RetainedIsFilter(s.handles, s.drain.found, s.agents);
  }

  lemma ScanWithoutRoom(c: Config, es: seq<Event>, s: State) returns (es': seq<Event>, s': State)
    requires c.maxConcurrent == 0
    requires Reaches(c, es, s) && WellFormed(s) && s.dispatcher == Scanning(0, None) && |s.agents| == 1
    ensures WellFormed(s') && Reaches(c, es', s') && s' == s.(dispatcher := AgentWait)
  {
    es', s' := Extend(c, es, s, ScanNext);
    es', s' := Extend(c, es', s', ScanEnd);
  }

  /** With `max_concurrent_per_agent` 0 the dispatcher goes to sleep beside an idle agent. */
  lemma SleepsWithoutCapacity(c: Config) returns (es: seq<Event>, s: State)
    requires c.maxQueue >= 1 && c.maxConcurrent == 0
    ensures WellFormed(s) && Reaches(c, es, s) && s.dispatcher.AgentWait? && s.signals == 0 && s.queue != []
    ensures !AgentWakeup(s)
  {
    es, s := OneFrameOneAgent(c);
    es, s := ScanWithoutRoom(c, es, s);
    es, s := Extend(c, es, s, WakeByPermit);
    es, s := Extend(c, es, s, CheckQueue);
    es, s := ScanWithoutRoom(c, es, s);
    es, s := Extend(c, es, s, WakeBySignal);
    es, s := Extend(c, es, s, CheckQueue);
    es, s := ScanWithoutRoom(c, es, s);
    assert !Blocked(s.handles[s.agents[0]]);
  }

  /** With `max_queue_size` 0 nothing is ever accepted and the dispatcher never looks for an agent. */
  ghost predicate NothingToDo(s: State) {
    s.log.accepted == [] && s.queue == [] && s.runners == [] && (s.dispatcher.Awake? || s.dispatcher.EmptyWait?)
  }

  lemma ZeroQueueStep(c: Config, s: State, e: Event)
    requires c.maxQueue == 0 && WellFormed(s) && NothingToDo(s) && Enabled(c, s, e)
    ensures NothingToDo(Apply(c, s, e))
  {
    if !MovesDispatcher(e) && !MovesRunner(e) && !MovesQueue(e) {
      Frame(c, s, e);
    }
  }

  lemma {:induction false} ZeroQueueStaysIdle(c: Config, s: State, es: seq<Event>)
    requires c.maxQueue == 0 && WellFormed(s) && NothingToDo(s) && Run(c, s, es).Some?
    ensures NothingToDo(Run(c, s, es).value)
    decreases |es|
  {
    if es != [] {
      WellFormedStep(c, s, es[0]);
      ZeroQueueStep(c, s, es[0]);
      ZeroQueueStaysIdle(c, Apply(c, s, es[0]), es[1..]);
    }
  }

  /** No agent wakeup is ever lost if and only if an agent may run at least one
      task, or the pool accepts none. */
  lemma NoLostAgentWakeupIff(c: Config)
    ensures (forall es, s {:trigger Reaches(c, es, s)} :: Reaches(c, es, s) ==> WellFormed(s) && AgentWakeup(s))
            <==> c.maxConcurrent >= 1 || c.maxQueue == 0
  {
    if c.maxConcurrent >= 1 || c.maxQueue == 0 {
      forall es, s | Reaches(c, es, s) ensures WellFormed(s) && AgentWakeup(s) {
        ReachableIsSound(c, es, s);
        if c.maxQueue == 0 {
          ZeroQueueStaysIdle(c, Init(), es);
        }
      }
    } else {
      var es, s := SleepsWithoutCapacity(c);
      assert Reaches(c, es, s);
    }
  }
}
