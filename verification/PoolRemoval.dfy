/** What can still run on an agent that the drain loop has removed: exactly what
    runs on it, or has already been chosen for it, at the removal. */
module PoolRemoval {
  import opened Common
  import opened PoolModel
  import opened PoolRuns
  import opened PoolCapacity
  import opened PoolDrain
  import opened PoolScenarios
  import opened PoolTheorems

  /** A task runs on `a`, or is about to be counted on it. */
  predicate AtWork(s: State, a: nat) {
    RunningOn(s.runners, a) > 0 || (s.dispatcher.Chosen? && s.dispatcher.agent == a)
  }

  /** Out of the list, with nothing running, chosen or picked for it. */
  ghost predicate Gone(s: State, a: nat) {
    && a < |s.handles| && a !in s.agents && !AtWork(s, a)
    && (s.dispatcher.Scanning? && s.dispatcher.best.Some? ==> s.dispatcher.best.value.agent != a)
  }

  lemma GoneDispatch(c: Config, s: State, e: Event, a: nat)
    requires WellFormed(s) && Enabled(c, s, e) && Gone(s, a) && MovesDispatcher(e)
    ensures Gone(Apply(c, s, e), a)
  {
    if e.CountDispatch? {
      RunningOnAppend(s.runners, Executing(s.dispatcher.agent, s.dispatcher.task), a);
    }
  }

  lemma GoneRunner(c: Config, s: State, e: Event, a: nat)
    requires WellFormed(s) && Enabled(c, s, e) && Gone(s, a) && (e.Release? || e.NotifyIdle? || e.Settle?)
    ensures Gone(Apply(c, s, e), a)
  {
    match e
    case Release(i, ok) => RunningOnChange(s.runners, i, Apply(c, s, e).runners[i], a);
    case NotifyIdle(i) => RunningOnChange(s.runners, i, Apply(c, s, e).runners[i], a);
    case Settle(i) => RunningOnChange(s.runners, i, s.runners[i], a);
  }

  lemma GoneAgents(c: Config, s: State, e: Event, a: nat)
    requires WellFormed(s) && Enabled(c, s, e) && MovesAgents(e) && a < |s.handles| && a !in s.agents
    ensures a !in Apply(c, s, e).agents
  {
    if e.DrainRetain? {
      RetainedIsFilter(s.handles, s.drain.found, s.agents);
    }
  }

  lemma GoneStep(c: Config, s: State, e: Event, a: nat)
    requires WellFormed(s) && Enabled(c, s, e) && Gone(s, a)
    ensures Gone(Apply(c, s, e), a)
  {
    if MovesDispatcher(e) {
      GoneDispatch(c, s, e, a);
    } else if MovesRunner(e) {
      GoneRunner(c, s, e, a);
    } else {
      Frame(c, s, e);
      if MovesAgents(e) {
        GoneAgents(c, s, e, a);
      }
    }
  }

  lemma {:induction false} GoneForGood(c: Config, s: State, es: seq<Event>, a: nat)
    requires WellFormed(s) && Gone(s, a) && Run(c, s, es).Some?
    ensures Gone(Run(c, s, es).value, a)
    decreases |es|
  {
    if es != [] {
      WellFormedStep(c, s, es[0]);
      GoneStep(c, s, es[0], a);
      GoneForGood(c, Apply(c, s, es[0]), es[1..], a);
    }
  }

  /** Whatever the reason for its removal, a task can run on a removed agent at
      some later time if and only if it is at work when it is removed. */
  lemma RemovedAgentRunsIff(c: Config, s: State, a: nat)
    requires WellFormed(s) && Enabled(c, s, DrainRetain) && Removes(s, a)
    ensures WellFormed(Apply(c, s, DrainRetain))
    ensures CanRun(c, Apply(c, s, DrainRetain), a) <==> AtWork(s, a)
  {
    WellFormedStep(c, s, DrainRetain);
    var s' := Apply(c, s, DrainRetain);
    if RunningOn(s.runners, a) > 0 {
      assert Run(c, s', []) == Some(s');
    } else if AtWork(s, a) {
      ChosenCanRun(c, s');
    } else if CanRun(c, s', a) {
      var es :| var r := Run(c, s', es); r.Some? && RunningOn(r.value.runners, a) > 0;
      GoneForGood(c, s', es, a);
      assert false;
    }
  }

  // ----- Reason by reason -----

  /** Why an agent is removed: it was read as unhealthy, or as draining and idle
      while the dispatcher held no dispatch to it, or held one, or another agent
      of its id was taken. */
  datatype Reading = ReadUnhealthy | ReadQuiet | ReadHeld | SharedId

  /** Candidate `i` of the drain loop takes `a`, for this reason. */
  ghost predicate Takes(s: State, a: nat, r: Reading, i: nat)
    requires WellFormed(s) && s.drain.DrainScan? && i < |s.drain.found|
  {
    var found := s.drain.found[i];
    match r
    case ReadUnhealthy => found.agent == a && found.reason.Unhealthy?
    case ReadQuiet => found.agent == a && found.reason == Drained(None)
    case ReadHeld => found.agent == a && found.reason.Drained? && found.reason.held.Some?
    case SharedId => TakenAlong(s, a, i)
  }

  ghost predicate RemovedAs(s: State, a: nat, r: Reading)
    requires WellFormed(s) && s.drain.DrainScan?
  {
    Removes(s, a) && exists i | 0 <= i < |s.drain.found| :: Takes(s, a, r, i)
  }

  /** Every removal has one of these reasons. */
  lemma RemovedSomehow(c: Config, s: State, a: nat)
    requires WellFormed(s) && Enabled(c, s, DrainRetain) && Removes(s, a)
    ensures exists r :: RemovedAs(s, a, r)
  {
    RetainedIsFilter(s.handles, s.drain.found, s.agents);
    assert NamedBy(s.handles, s.drain.found, a);
    var i :| 0 <= i < |s.drain.found| && s.handles[s.drain.found[i].agent].id == s.handles[a].id;
    var found := s.drain.found[i];
    var r :=
      if found.agent != a then SharedId
      else if found.reason.Unhealthy? then ReadUnhealthy
      else if found.reason.held.None? then ReadQuiet
      else ReadHeld;
    assert Takes(s, a, r, i);
    assert RemovedAs(s, a, r);
  }

  /** Nothing but the dispatch of task `t` is at work on `a`. */
  ghost predicate OnlyAtWork(s: State, a: nat, t: Task) {
    && RunningOn(s.runners, a) + (if s.dispatcher.Chosen? && s.dispatcher.agent == a then 1 else 0) <= 1
    && (s.dispatcher.Chosen? && s.dispatcher.agent == a ==> s.dispatcher.task == t)
    && forall k | 0 <= k < |s.runners| && s.runners[k].Executing? && s.runners[k].agent == a :: s.runners[k].task == t
  }

  lemma QuiescedMeans(s: State, a: nat, held: Option<Task>)
    requires Quiesced(s, a, held)
    ensures held.None? ==> !AtWork(s, a)
    ensures held.Some? ==> OnlyAtWork(s, a, held.value)
  {
  }

  /** An agent read as draining and idle runs nothing ever again if no dispatch
      to it was held, and at most that dispatch if one was. */
  lemma DrainedRunsOnlyHeld(c: Config, es: seq<Event>, s: State, a: nat, i: nat)
    requires Reaches(c, es, s) && Enabled(c, s, DrainRetain) && i < |s.drain.found|
    ensures Takes(s, a, ReadQuiet, i) ==> !AtWork(s, a)
    ensures Takes(s, a, ReadHeld, i) ==> OnlyAtWork(s, a, s.drain.found[i].reason.held.value)
  {
    ReachableIsSound(c, es, s);
    if Takes(s, a, ReadQuiet, i) || Takes(s, a, ReadHeld, i) {
      QuiescedMeans(s, a, s.drain.found[i].reason.held);
    }
  }

  /** A healthy agent is removed, for this reason, that can run a task afterwards. */
  ghost predicate HealthyRemovedAtWork(c: Config, es: seq<Event>, s: State, a: nat, r: Reading) {
    && Reaches(c, es, s) && WellFormed(s) && Enabled(c, s, DrainRetain)
    && RemovedAs(s, a, r) && a < |s.handles| && s.handles[a].healthy && AtWork(s, a)
  }

  lemma NamedIsRemoved(s: State, a: nat, i: nat)
    requires WellFormed(s) && s.drain.DrainScan? && a in s.agents && i < |s.drain.found|
    requires a < |s.handles| && s.handles[s.drain.found[i].agent].id == s.handles[a].id
    ensures Removes(s, a)
  {
    assert NamedBy(s.handles, s.drain.found, a);
    RetainedIsFilter(s.handles, s.drain.found, s.agents);
  }

  lemma CountedIsAtWork(c: Config, es: seq<Event>, s: State, a: nat)
    requires Reaches(c, es, s) && a < |s.handles| && s.handles[a].active > 0
    ensures AtWork(s, a)
  {
    CountersWithinCapacity(c, es, s, a);
  }

  lemma ReadWhileSick(c: Config) returns (es: seq<Event>, s: State)
    ensures WellFormed(s) && Reaches(c, es, s)
    ensures s == Init().(agents := [0], handles := [Handle("a", 0, false, false)], permit := true,
                         drain := DrainScan([], false, [Candidate(0, Unhealthy)]))
  {
    es, s := Extend(c, [], Init(), AddAgent("a"));
    es, s := Extend(c, es, s, StoreHealth(0, false));
    es, s := Extend(c, es, s, DrainSnapshot);
    es, s := Extend(c, es, s, DrainReadHealth);
    assert s.drain.found == [Candidate(0, Unhealthy)];
  }

  lemma RecoveredAfterRead(c: Config) returns (es: seq<Event>, s: State)
    ensures WellFormed(s) && Reaches(c, es, s)
    ensures s == Init().(agents := [0], handles := [Handle("a", 0, true, false)], permit := true,
                         drain := DrainScan([], false, [Candidate(0, Unhealthy)]))
  {
    es, s := ReadWhileSick(c);
    es, s := Extend(c, es, s, StoreHealth(0, true));
    es, s := Extend(c, es, s, NotifyRecovery);
  }

  /** An agent that recovers after the drain loop has read it as unhealthy is
      removed at work, without ever having been marked. */
  lemma RecoveryRace(c: Config) returns (es: seq<Event>, s: State)
    requires c.maxQueue >= 1 && c.maxConcurrent >= 1
    ensures HealthyRemovedAtWork(c, es, s, 0, ReadUnhealthy)
    ensures s.handles == [Handle("a", 1, true, false)] && !s.dispatcher.Chosen?
  {
    es, s := RecoveredAfterRead(c);
    assert ScanResult(c, s.handles, s.agents, 0, None) == Some(Pick(0, 0));
    es, s := SubmitAndDispatch(c, es, s, 0, 0);
    NamedIsRemoved(s, 0, 0);
    CountedIsAtWork(c, es, s, 0);
    assert Takes(s, 0, ReadUnhealthy, 0);
  }

  lemma IdleMarked(c: Config) returns (es: seq<Event>, s: State)
    ensures WellFormed(s) && Reaches(c, es, s)
    ensures s == Init().(agents := [0], handles := [Handle("a", 0, true, true)], permit := true,
                         drain := DrainScan([0], false, []))
  {
    es, s := Extend(c, [], Init(), AddAgent("a"));
    es, s := Extend(c, es, s, MarkDraining("a"));
    es, s := Extend(c, es, s, DrainSnapshot);
  }

  lemma IdleTaken(c: Config) returns (es: seq<Event>, s: State)
    ensures WellFormed(s) && Reaches(c, es, s)
    ensures s == Init().(agents := [0], handles := [Handle("a", 0, true, true)], permit := true,
                         drain := DrainScan([], false, [Candidate(0, Drained(None))]))
  {
    es, s := IdleMarked(c);
    es, s := Extend(c, es, s, DrainReadHealth);
    es, s := Extend(c, es, s, DrainReadLoad);
    assert s.drain.todo == [] && s.drain.found == [Candidate(0, Drained(None))];
  }

  lemma IdReused(c: Config) returns (es: seq<Event>, s: State)
    ensures WellFormed(s) && Reaches(c, es, s)
    ensures s == Init().(agents := [1], handles := [Handle("a", 0, true, true), Handle("a", 0, true, false)],
                         permit := true, drain := DrainScan([], false, [Candidate(0, Drained(None))]))
  {
    es, s := IdleTaken(c);
    es, s := Extend(c, es, s, RemoveAgent("a"));
    assert s.agents == [];
    es, s := Extend(c, es, s, AddAgent("a"));
  }

  /** An agent added under the id of a candidate is removed in its place,
      healthy, never marked and with a task running. */
  lemma ReusedIdRemovesBusyAgent(c: Config) returns (es: seq<Event>, s: State)
    requires c.maxQueue >= 1 && c.maxConcurrent >= 1
    ensures HealthyRemovedAtWork(c, es, s, 1, SharedId) && s.handles[1] == Handle("a", 1, true, false)
  {
    es, s := IdReused(c);
    assert ScanResult(c, s.handles, s.agents, 0, None) == Some(Pick(1, 0));
    es, s := SubmitAndDispatch(c, es, s, 1, 0);
    assert s.drain.found[0].agent == 0;
    NamedIsRemoved(s, 1, 0);
    CountedIsAtWork(c, es, s, 1);
    assert Takes(s, 1, SharedId, 0);
  }

  lemma HeldRace(c: Config) returns (es: seq<Event>, s: State)
    requires c.maxQueue >= 1 && c.maxConcurrent >= 1
    ensures HealthyRemovedAtWork(c, es, s, 0, ReadHeld)
  {
    es, s := DrainRace(c);
    CountedIsAtWork(c, es, s, 0);
    assert Takes(s, 0, ReadHeld, 0);
  }

  lemma NoneAtWork(c: Config, es: seq<Event>, s: State, a: nat)
    requires Reaches(c, es, s) && a < |s.handles| && (c.maxQueue == 0 || c.maxConcurrent == 0)
    ensures !AtWork(s, a)
  {
    ReachableIsSound(c, es, s);
    if c.maxQueue == 0 {
      ZeroQueueStaysIdle(c, Init(), es);
    } else {
      CountersWithinCapacity(c, es, s, a);
    }
  }

  /** For each reason: a healthy agent can be removed for it and still run a
      task, in some run, if and only if the pool can run tasks at all; except
      that an agent read as draining and idle with no dispatch held never can. */
  lemma HealthyRemovedAtWorkIff(c: Config, r: Reading)
    ensures (exists es, s, a :: HealthyRemovedAtWork(c, es, s, a, r))
            <==> r != ReadQuiet && c.maxQueue >= 1 && c.maxConcurrent >= 1
  {
    forall es, s, a | HealthyRemovedAtWork(c, es, s, a, r)
      ensures r != ReadQuiet && c.maxQueue >= 1 && c.maxConcurrent >= 1
    {
      var i :| 0 <= i < |s.drain.found| && Takes(s, a, r, i);
      DrainedRunsOnlyHeld(c, es, s, a, i);
      if c.maxQueue == 0 || c.maxConcurrent == 0 {
        NoneAtWork(c, es, s, a);
      }
    }
    if r != ReadQuiet && c.maxQueue >= 1 && c.maxConcurrent >= 1 {
      var es, s := [], Init();
      match r {
        case ReadUnhealthy => es, s := RecoveryRace(c);
        case ReadHeld => es, s := HeldRace(c);
        case SharedId => es, s := ReusedIdRemovesBusyAgent(c);
      }
      assert HealthyRemovedAtWork(c, es, s, if r.SharedId? then 1 else 0, r);
    }
  }
}
