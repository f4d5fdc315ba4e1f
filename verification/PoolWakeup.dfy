/** No wakeup of the dispatcher is lost, in either of its two waits. */
module PoolWakeup {
  import opened PoolModel
  import opened PoolRuns
  import opened PoolCapacity

  // ----- The empty-queue wait -----

  /** A dispatcher that waits for a signal with none buffered waits beside an empty queue. */
  ghost predicate TaskWakeup(s: State) {
    s.dispatcher.EmptyWait? && s.signals == 0 ==> s.queue == []
  }

  lemma TaskWakeupStep(c: Config, s: State, e: Event)
    requires WellFormed(s) && Enabled(c, s, e) && TaskWakeup(s)
    ensures TaskWakeup(Apply(c, s, e))
  {
  }

  // ----- The agent wait -----

  /** An agent no `notify_one` is needed for: unusable, or busy, so that its
      last completion will notify. */
  predicate Blocked(h: Handle) { !h.healthy || h.draining || h.active > 0 }

  ghost predicate AllBlocked(hs: seq<Handle>, agents: seq<nat>, n: nat)
    requires Below(agents, |hs|) && n <= |agents|
  {
    forall k | 0 <= k < n :: Blocked(hs[agents[k]])
  }

  ghost predicate RunnerOwes(rs: seq<Runner>) {
    exists i | 0 <= i < |rs| :: rs[i].Released? && rs[i].owes
  }

  /** A permit is stored, or some task is committed to storing one with its next step. */
  ghost predicate NotifyDue(s: State) {
    s.permit || s.health.HealthOwes? || RunnerOwes(s.runners)
  }

  /** What the dispatcher has concluded about the agents so far stays true
      until a notification is due. */
  ghost predicate AgentWakeup(s: State)
    requires WellFormed(s)
  {
    NotifyDue(s) ||
    match s.dispatcher
    case AgentWait => AllBlocked(s.handles, s.agents, |s.agents|)
    case Scanning(next, None) => AllBlocked(s.handles, s.agents, next)
    case _ => true
  }

  lemma OwedNotifyOutlivesExit(c: Config, s: State, j: nat)
    requires j < |s.runners| && s.runners[j].Released? && !s.runners[j].owes && RunnerOwes(s.runners)
    ensures RunnerOwes(SettledRunner(c, s, j).runners)
  {
    var i :| 0 <= i < |s.runners| && s.runners[i].Released? && s.runners[i].owes;
    assert SettledRunner(c, s, j).runners[if i < j then i else i - 1] == s.runners[i];
  }

  lemma OwedNotifyPersists(c: Config, s: State, e: Event)
    requires WellFormed(s) && Enabled(c, s, e) && RunnerOwes(s.runners)
    ensures NotifyDue(Apply(c, s, e))
  {
    if e.Settle? {
      OwedNotifyOutlivesExit(c, s, e.runner);
    } else if e.Release? || e.CountDispatch? {
      var i :| 0 <= i < |s.runners| && s.runners[i].Released? && s.runners[i].owes;
      assert Apply(c, s, e).runners[i] == s.runners[i];
    } else if !e.NotifyIdle? {
      Frame(c, s, e);
    }
  }

  lemma DueNotifyPersists(c: Config, s: State, e: Event)
    requires WellFormed(s) && Enabled(c, s, e) && NotifyDue(s) && !e.WakeByPermit?
    ensures NotifyDue(Apply(c, s, e))
  {
    if RunnerOwes(s.runners) {
      OwedNotifyPersists(c, s, e);
    }
  }

  lemma ReleaseLeavesBlocked(c: Config, s: State, i: nat, ok: bool, n: nat)
    requires WellFormed(s) && Capacity(c, s) && i < |s.runners| && s.runners[i].Executing?
    requires n <= |s.agents| && AllBlocked(s.handles, s.agents, n)
    ensures NotifyDue(ReleasedRunner(s, i, ok)) || AllBlocked(ReleasedRunner(s, i, ok).handles, s.agents, n)
  {
    CapacityRelease(c, s, i, ok);
    var s' := ReleasedRunner(s, i, ok);
    if s.handles[s.runners[i].agent].active == 1 {
      assert s'.runners[i].Released? && s'.runners[i].owes;
    }
  }

  lemma ScanLeavesBlocked(c: Config, s: State)
    requires WellFormed(s) && AgentWakeup(s) && c.maxConcurrent >= 1
    requires s.dispatcher.Scanning? && s.dispatcher.next < |s.agents|
    ensures WellFormed(ScannedNext(c, s)) && AgentWakeup(ScannedNext(c, s))
  {
    WellFormedDispatch(c, s);
  }

  /** Membership and flag changes either notify or leave the agents they keep blocked. */
  lemma MembershipLeavesBlocked(s: State, agents': seq<nat>)
    requires WellFormed(s) && AllBlocked(s.handles, s.agents, |s.agents|)
    requires Below(agents', |s.handles|) && forall a :: a in agents' ==> a in s.agents
    ensures AllBlocked(s.handles, agents', |agents'|)
  {
    forall k | 0 <= k < |agents'| ensures Blocked(s.handles[agents'[k]]) {
      assert agents'[k] in s.agents;
    }
  }

  lemma AgentsStepLeavesBlocked(c: Config, s: State, e: Event)
    requires WellFormed(s) && Enabled(c, s, e) && AgentWakeup(s) && !NotifyDue(s) && MovesAgents(e)
    ensures WellFormed(Apply(c, s, e)) && AgentWakeup(Apply(c, s, e))
  {
    WellFormedStep(c, s, e);
    if s.dispatcher.AgentWait? && !e.AddAgent? {
      if e.DrainRetain? {
        RetainedIsFilter(s.handles, s.drain.found, s.agents);
      }
      MembershipLeavesBlocked(s, Apply(c, s, e).agents);
    }
  }

  lemma FlagStepLeavesBlocked(c: Config, s: State, e: Event)
    requires WellFormed(s) && Enabled(c, s, e) && AgentWakeup(s) && !NotifyDue(s)
    requires e.StoreHealth? || e.MarkDraining?
    ensures WellFormed(Apply(c, s, e)) && AgentWakeup(Apply(c, s, e))
  {
    WellFormedStep(c, s, e);
  }

  lemma AgentWakeupFrame(s: State, s': State)
    requires WellFormed(s) && AgentWakeup(s) && !NotifyDue(s) && WellFormed(s')
    requires s'.dispatcher == s.dispatcher && s'.agents == s.agents && s'.handles == s.handles
    ensures AgentWakeup(s')
  {
  }

  lemma AgentWakeupDispatcher(c: Config, s: State, e: Event)
    requires WellFormed(s) && Enabled(c, s, e) && AgentWakeup(s) && c.maxConcurrent >= 1 && MovesDispatcher(e)
    ensures WellFormed(Apply(c, s, e)) && AgentWakeup(Apply(c, s, e))
  {
    WellFormedStep(c, s, e);
    if e.ScanNext? {
      ScanLeavesBlocked(c, s);
    }
  }

  lemma AgentWakeupRelease(c: Config, s: State, i: nat, ok: bool)
    requires WellFormed(s) && Capacity(c, s) && AgentWakeup(s) && !NotifyDue(s)
    requires i < |s.runners| && s.runners[i].Executing?
    ensures WellFormed(ReleasedRunner(s, i, ok)) && AgentWakeup(ReleasedRunner(s, i, ok))
  {
    WellFormedRunner(c, s, i, ok);
    match s.dispatcher
    case AgentWait => ReleaseLeavesBlocked(c, s, i, ok, |s.agents|);
    case Scanning(next, None) => ReleaseLeavesBlocked(c, s, i, ok, next);
    case _ =>
  }

  lemma AgentWakeupStep(c: Config, s: State, e: Event)
    requires WellFormed(s) && Enabled(c, s, e) && Capacity(c, s) && AgentWakeup(s) && c.maxConcurrent >= 1
    ensures WellFormed(Apply(c, s, e)) && AgentWakeup(Apply(c, s, e))
  {
    WellFormedStep(c, s, e);
    if MovesDispatcher(e) {
      AgentWakeupDispatcher(c, s, e);
    } else if NotifyDue(s) {
      DueNotifyPersists(c, s, e);
    } else if MovesAgents(e) {
      AgentsStepLeavesBlocked(c, s, e);
    } else if e.StoreHealth? || e.MarkDraining? {
      FlagStepLeavesBlocked(c, s, e);
    } else if e.Release? {
      AgentWakeupRelease(c, s, e.runner, e.ok);
    } else {
      Frame(c, s, e);
      FrameCells(c, s, e);
      AgentWakeupFrame(s, Apply(c, s, e));
    }
  }
}
