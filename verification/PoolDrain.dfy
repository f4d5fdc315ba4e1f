/** What the drain loop can rely on when it removes an agent it saw idle.

    The loop reads `shutting_down` and `active_tasks == 0` in one step and
    removes the agent in a later one, while the dispatcher may already hold a
    dispatch to that very agent. That one dispatch is the only thing that can
    still run there, and it can if and only if it was held when the counter
    was read. */
module PoolDrain {
  import opened Common
  import opened PoolModel
  import opened PoolRuns
  import opened PoolCapacity

  function Some01<T>(o: Option<T>): nat { if o.Some? then 1 else 0 }

  /** Agent `a` is draining, and nothing but the dispatch `held` runs or can start on it. */
  ghost predicate Quiesced(s: State, a: nat, held: Option<Task>) {
    && a < |s.handles| && s.handles[a].draining
    && RunningOn(s.runners, a) + Some01(HeldDispatch(s, a)) <= Some01(held)
    && (HeldDispatch(s, a).Some? ==> HeldDispatch(s, a) == held)
    && (forall i | 0 <= i < |s.runners| && s.runners[i].Executing? && s.runners[i].agent == a ::
          held == Some(s.runners[i].task))
  }

  lemma QuiescedDispatch(c: Config, s: State, a: nat, held: Option<Task>)
    requires WellFormed(s) && Quiesced(s, a, held)
    ensures s.dispatcher.Scanning? && s.dispatcher.next < |s.agents| ==> Quiesced(ScannedNext(c, s), a, held)
    ensures s.dispatcher.Scanning? ==> Quiesced(ScanEnded(s), a, held)
    ensures s.dispatcher.Chosen? ==> Quiesced(CountedDispatch(s), a, held)
  {
    if s.dispatcher.Chosen? {
      RunningOnAppend(s.runners, Executing(s.dispatcher.agent, s.dispatcher.task), a);
    }
  }

  lemma QuiescedRunner(c: Config, s: State, i: nat, ok: bool, a: nat, held: Option<Task>)
    requires WellFormed(s) && Quiesced(s, a, held) && i < |s.runners|
    ensures s.runners[i].Executing? ==> Quiesced(ReleasedRunner(s, i, ok), a, held)
    ensures s.runners[i].Released? ==> Quiesced(NotifiedIdle(s, i), a, held)
  {
    if s.runners[i].Executing? {
      RunningOnChange(s.runners, i, ReleasedRunner(s, i, ok).runners[i], a);
    } else {
      RunningOnChange(s.runners, i, NotifiedIdle(s, i).runners[i], a);
    }
  }

  lemma QuiescedSettle(c: Config, s: State, i: nat, a: nat, held: Option<Task>)
    requires WellFormed(s) && Quiesced(s, a, held) && Enabled(c, s, Settle(i))
    ensures Quiesced(SettledRunner(c, s, i), a, held)
  {
    RunningOnChange(s.runners, i, s.runners[i], a);
  }

  lemma QuiescedFrame(s: State, s': State, a: nat, held: Option<Task>)
    requires Quiesced(s, a, held)
    requires s'.runners == s.runners && Evolves(s.handles, s'.handles) && HeldDispatch(s', a) == HeldDispatch(s, a)
    ensures Quiesced(s', a, held)
  {
  }

  lemma OthersKeepHeld(c: Config, s: State, e: Event, a: nat)
    requires WellFormed(s) && Enabled(c, s, e) && !MovesRunner(e) && !e.ScanNext? && !e.ScanEnd?
    ensures HeldDispatch(Apply(c, s, e), a) == HeldDispatch(s, a)
  {
  }

  /** Quiescence is for good, whatever happens later and whether or not the
      agent is still in the pool. */
  lemma QuiescedStep(c: Config, s: State, e: Event, a: nat, held: Option<Task>)
    requires WellFormed(s) && Enabled(c, s, e) && Quiesced(s, a, held)
    ensures Quiesced(Apply(c, s, e), a, held)
  {
    if e.ScanNext? || e.ScanEnd? || e.CountDispatch? {
      QuiescedDispatch(c, s, a, held);
    } else if e.Release? {
      QuiescedRunner(c, s, e.runner, e.ok, a, held);
    } else if e.NotifyIdle? {
      QuiescedRunner(c, s, e.runner, true, a, held);
    } else if e.Settle? {
      QuiescedSettle(c, s, e.runner, a, held);
    } else {
      Frame(c, s, e);
      OthersKeepHeld(c, s, e, a);
      QuiescedFrame(s, Apply(c, s, e), a, held);
    }
  }

  lemma {:induction false} QuiescedForever(c: Config, s: State, es: seq<Event>, a: nat, held: Option<Task>)
    requires WellFormed(s) && Quiesced(s, a, held) && Run(c, s, es).Some?
    ensures Quiesced(Run(c, s, es).value, a, held)
    decreases |es|
  {
    if es != [] {
      WellFormedStep(c, s, es[0]);
      QuiescedStep(c, s, es[0], a, held);
      QuiescedForever(c, Apply(c, s, es[0]), es[1..], a, held);
    }
  }

  /** Every agent the drain loop means to remove as drained is quiesced. */
  ghost predicate DrainSafe(s: State) {
    s.drain.DrainScan? ==>
      forall i | 0 <= i < |s.drain.found| && s.drain.found[i].reason.Drained? ::
        Quiesced(s, s.drain.found[i].agent, s.drain.found[i].reason.held)
  }

  lemma CandidateIsQuiesced(c: Config, s: State)
    requires WellFormed(s) && Capacity(c, s) && Enabled(c, s, DrainReadLoad)
    requires var a := s.drain.todo[0]; s.handles[a].draining && s.handles[a].active == 0
    ensures var a := s.drain.todo[0]; Quiesced(DrainReadLoadOf(s), a, HeldDispatch(s, a))
  {
    var a := s.drain.todo[0];
    if exists i | 0 <= i < |s.runners| :: s.runners[i].Executing? && s.runners[i].agent == a {
      var i :| 0 <= i < |s.runners| && s.runners[i].Executing? && s.runners[i].agent == a;
      CapacityRelease(c, s, i, true);
      assert false;
    }
  }

  lemma DrainReadLoadKeepsSafe(c: Config, s: State)
    requires WellFormed(s) && Capacity(c, s) && DrainSafe(s) && Enabled(c, s, DrainReadLoad)
    ensures DrainSafe(DrainReadLoadOf(s))
  {
    var a := s.drain.todo[0];
    var s' := DrainReadLoadOf(s);
    if s.handles[a].draining && s.handles[a].active == 0 {
      CandidateIsQuiesced(c, s);
    }
    forall i | 0 <= i < |s.drain.found| && s.drain.found[i].reason.Drained?
      ensures Quiesced(s', s.drain.found[i].agent, s.drain.found[i].reason.held)
    {
      QuiescedFrame(s, s', s.drain.found[i].agent, s.drain.found[i].reason.held);
    }
  }

  lemma DrainReadHealthKeepsSafe(s: State)
    requires WellFormed(s) && DrainSafe(s) && s.drain.DrainScan? && s.drain.todo != []
    ensures DrainSafe(DrainReadHealthOf(s))
  {
    var s' := DrainReadHealthOf(s);
    forall i | 0 <= i < |s.drain.found| && s.drain.found[i].reason.Drained?
      ensures Quiesced(s', s.drain.found[i].agent, s.drain.found[i].reason.held)
    {
      QuiescedFrame(s, s', s.drain.found[i].agent, s.drain.found[i].reason.held);
    }
  }

  predicate MovesDrain(e: Event) {
    e.DrainSnapshot? || e.DrainReadHealth? || e.DrainReadLoad? || e.DrainNothing? || e.DrainRetain?
  }

  lemma FrameDrain(c: Config, s: State, e: Event)
    requires WellFormed(s) && Enabled(c, s, e) && !MovesDrain(e)
    ensures Apply(c, s, e).drain == s.drain
  {
  }

  lemma DrainSafeStep(c: Config, s: State, e: Event)
    requires WellFormed(s) && Enabled(c, s, e) && Capacity(c, s) && DrainSafe(s)
    ensures DrainSafe(Apply(c, s, e))
  {
    if e.DrainReadLoad? {
      DrainReadLoadKeepsSafe(c, s);
    } else if e.DrainReadHealth? {
      DrainReadHealthKeepsSafe(s);
    } else if !MovesDrain(e) && s.drain.DrainScan? {
      FrameDrain(c, s, e);
      forall i | 0 <= i < |s.drain.found| && s.drain.found[i].reason.Drained?
        ensures Quiesced(Apply(c, s, e), s.drain.found[i].agent, s.drain.found[i].reason.held)
      {
        QuiescedStep(c, s, e, s.drain.found[i].agent, s.drain.found[i].reason.held);
      }
    }
  }

  // ----- The exact condition -----

  ghost predicate CanRun(c: Config, s: State, a: nat)
    requires WellFormed(s)
  {
    exists es :: var r := Run(c, s, es); r.Some? && RunningOn(r.value.runners, a) > 0
  }

  lemma CanRunLater(c: Config, s: State, e: Event, a: nat)
    requires WellFormed(s) && Enabled(c, s, e)
    requires WellFormed(Apply(c, s, e)) && CanRun(c, Apply(c, s, e), a)
    ensures CanRun(c, s, a)
  {
    var es :| var r := Run(c, Apply(c, s, e), es); r.Some? && RunningOn(r.value.runners, a) > 0;
    RunStep(c, s, e, es);
    assert Run(c, s, [e] + es).Some?;
  }

  lemma ChosenCanRun(c: Config, s: State)
    requires WellFormed(s) && s.dispatcher.Chosen?
    ensures CanRun(c, s, s.dispatcher.agent)
  {
    RunningOnAppend(s.runners, Executing(s.dispatcher.agent, s.dispatcher.task), s.dispatcher.agent);
    RunStep(c, s, CountDispatch, []);
    assert Run(c, s, [CountDispatch] + []) == Some(CountedDispatch(s));
  }

  /** The health loop may find every later agent unhealthy just before the scan
      reads it, so the best agent of a scan can always become the chosen one. */
  lemma {:induction false} BestCanRun(c: Config, s: State)
    requires WellFormed(s) && s.dispatcher.Scanning? && s.dispatcher.best.Some? && s.health.HealthIdle?
    ensures CanRun(c, s, s.dispatcher.best.value.agent)
    decreases |s.agents| - s.dispatcher.next
  {
    var p := s.dispatcher.best.value;
    if s.dispatcher.next == |s.agents| {
      WellFormedStep(c, s, ScanEnd);
      ChosenCanRun(c, ScanEnded(s));
      CanRunLater(c, s, ScanEnd, p.agent);
    } else {
      var sick := StoreHealth(s.agents[s.dispatcher.next], false);
      WellFormedStep(c, s, sick);
      var s1 := Apply(c, s, sick);
      WellFormedStep(c, s1, ScanNext);
      BestCanRun(c, Apply(c, s1, ScanNext));
      CanRunLater(c, s1, ScanNext, p.agent);
      CanRunLater(c, s, sick, p.agent);
    }
  }

  lemma HeldCanRun(c: Config, s: State, a: nat)
    requires WellFormed(s) && HeldDispatch(s, a).Some?
    ensures CanRun(c, s, a)
  {
    if s.dispatcher.Chosen? {
      ChosenCanRun(c, s);
    } else if s.health.HealthIdle? {
      BestCanRun(c, s);
    } else {
      WellFormedStep(c, s, NotifyRecovery);
      BestCanRun(c, Apply(c, s, NotifyRecovery));
      CanRunLater(c, s, NotifyRecovery, a);
    }
  }

  /** When the drain loop takes an agent as drained, a task can run on that
      agent at any later time if and only if the dispatcher held a dispatch to
      it at that moment. */
  lemma DrainedAgentRunsIffHeld(c: Config, s: State)
    requires WellFormed(s) && Capacity(c, s) && Enabled(c, s, DrainReadLoad)
    requires var a := s.drain.todo[0]; s.handles[a].draining && s.handles[a].active == 0
    ensures WellFormed(Apply(c, s, DrainReadLoad))
    ensures var a := s.drain.todo[0]; CanRun(c, Apply(c, s, DrainReadLoad), a) <==> HeldDispatch(s, a).Some?
  {
    var a := s.drain.todo[0];
    WellFormedStep(c, s, DrainReadLoad);
    var s' := Apply(c, s, DrainReadLoad);
    if HeldDispatch(s, a).Some? {
      HeldCanRun(c, s', a);
    } else {
      CandidateIsQuiesced(c, s);
      if CanRun(c, s', a) {
        var es :| var r := Run(c, s', es); r.Some? && RunningOn(r.value.runners, a) > 0;
        QuiescedForever(c, s', es, a, None);
        assert false;
      }
    }
  }

  // ----- Removal -----

  ghost predicate UniqueIds(hs: seq<Handle>) {
    forall a, b :: 0 <= a < b < |hs| ==> hs[a].id != hs[b].id
  }

  /** An agent that is in the pool before the removal step and not after it. */
  ghost predicate Removes(s: State, a: nat)
    requires WellFormed(s) && s.drain.DrainScan?
  {
    a in s.agents && a !in Retained(s.handles, s.drain.found, s.agents)
  }

  /** Candidate `i` is agent `a` itself: it was read as unhealthy, or it is
      draining for good and runs at most the one dispatch that was held when
      its counter was read, none if none was held. */
  ghost predicate TakenAsCandidate(s: State, a: nat, i: nat)
    requires WellFormed(s) && s.drain.DrainScan? && i < |s.drain.found|
  {
    var found := s.drain.found[i];
    && found.agent == a < |s.handles|
    && (found.reason.Drained? ==>
          && s.handles[a].draining && s.handles[a].active as int <= Some01(found.reason.held)
          && Quiesced(s, a, found.reason.held))
  }

  /** Another agent's candidacy takes `a` along: the two have the same id. */
  ghost predicate TakenAlong(s: State, a: nat, i: nat)
    requires WellFormed(s) && s.drain.DrainScan? && i < |s.drain.found|
  {
    s.drain.found[i].agent != a && a < |s.handles| && s.handles[s.drain.found[i].agent].id == s.handles[a].id
  }

  /** Every agent the drain loop removes is taken safely, or along with another of its id. */
  lemma RemovalIsSafe(c: Config, s: State, a: nat)
    requires WellFormed(s) && Capacity(c, s) && DrainSafe(s)
    requires Enabled(c, s, DrainRetain) && Removes(s, a)
    ensures exists i | 0 <= i < |s.drain.found| :: TakenAsCandidate(s, a, i) || TakenAlong(s, a, i)
  {
    RetainedIsFilter(s.handles, s.drain.found, s.agents);
    assert NamedBy(s.handles, s.drain.found, a);
    var i :| 0 <= i < |s.drain.found| && s.handles[s.drain.found[i].agent].id == s.handles[a].id;
    if s.drain.found[i].agent == a {
      if s.drain.found[i].reason.Drained? {
        assert Quiesced(s, a, s.drain.found[i].reason.held);
      }
      assert TakenAsCandidate(s, a, i);
    } else {
      assert TakenAlong(s, a, i);
    }
  }
}
