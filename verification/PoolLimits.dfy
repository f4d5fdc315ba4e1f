/** Where two hopes about the dispatcher end: the exact configurations, with
    runs that show it. */
module PoolLimits {
  import opened Common
  import opened PoolModel
  import opened PoolRuns
  import opened PoolWakeup
  import opened PoolBalance
  import opened PoolScenarios
  import opened PoolTheorems

  // ----- Asleep beside an agent with room -----

  /** The dispatcher sleeps, nothing is going to wake it, and yet its next scan
      would find an agent. */
  ghost predicate SleepsBesideRoom(c: Config, s: State)
    requires WellFormed(s)
  {
    && s.dispatcher.AgentWait? && s.signals == 0 && !NotifyDue(s)
    && exists k | 0 <= k < |s.agents| :: Eligible(c, s.handles[s.agents[k]])
  }

  /** One agent with `k` tasks, and nothing else going on. */
  ghost predicate Loaded(s: State, k: u32)
    requires WellFormed(s)
  {
    && s.agents == [0] && s.handles == [Handle("a", k, true, false)]
    && s.queue == [] && s.dispatcher.Awake? && s.arriving == {} && !s.shuttingDown && s.health.HealthIdle?
    && |s.runners| == k as int && forall i | 0 <= i < |s.runners| :: s.runners[i].Executing? && s.runners[i].agent == 0
  }

  lemma {:induction false} Load(c: Config, k: u32) returns (es: seq<Event>, s: State)
    requires c.maxQueue >= 1 && k <= c.maxConcurrent
    ensures WellFormed(s) && Reaches(c, es, s) && Loaded(s, k)
    decreases k
  {
    if k == 0 {
      es, s := Extend(c, [], Init(), AddAgent("a"));
    } else {
      es, s := Load(c, k - 1);
      assert ScanResult(c, s.handles, s.agents, 0, None) == Some(Pick(0, k - 1));
      es, s := SubmitAndDispatch(c, es, s, 0, k - 1);
    }
  }

  /** The agent is filled, the dispatcher falls asleep over the next task, and
      then one of several tasks completes: `fetch_sub` did not return 1. */
  lemma SleepsBesideRoomRun(c: Config) returns (es: seq<Event>, s: State)
    requires c.maxQueue >= 1 && c.maxConcurrent >= 2
    ensures WellFormed(s) && Reaches(c, es, s) && SleepsBesideRoom(c, s) && s.queue != []
  {
    es, s := Load(c, c.maxConcurrent);
    es, s := SubmitFrame(c, es, s);
    assert ScanResult(c, s.handles, s.agents, 0, None) == None;
    es, s := ScanOnce(c, es, s);
    es, s := SleepFast(c, es, s);
    es, s := Extend(c, es, s, Release(0, true));
    assert Eligible(c, s.handles[s.agents[0]]);
  }

  /** The dispatcher never sleeps on beside an agent with room if and only if
      agents run one task at a time (or none), or nothing is ever accepted. */
  lemma NeverSleepsBesideRoomIff(c: Config)
    ensures (forall es, s {:trigger Reaches(c, es, s)} ::
               Reaches(c, es, s) ==> WellFormed(s) && !SleepsBesideRoom(c, s))
            <==> c.maxConcurrent <= 1 || c.maxQueue == 0
  {
    if c.maxConcurrent <= 1 || c.maxQueue == 0 {
      forall es, s | Reaches(c, es, s) ensures WellFormed(s) && !SleepsBesideRoom(c, s) {
        ReachableIsSound(c, es, s);
        if c.maxQueue == 0 {
          ZeroQueueStaysIdle(c, Init(), es);
        }
      }
    } else {
      var es, s := SleepsBesideRoomRun(c);
      assert Reaches(c, es, s);
    }
  }

  // ----- A dispatch to an agent that is no longer least loaded -----

  lemma ScanThree(c: Config, hs: seq<Handle>)
    requires |hs| == 3
    ensures ScanResult(c, hs, [0, 1, 2], 0, None)
            == Better(c, hs[2], 2, Better(c, hs[1], 1, Better(c, hs[0], 0, None)))
  {
  }

  lemma TwoAgents(c: Config) returns (es: seq<Event>, s: State)
    ensures WellFormed(s) && Reaches(c, es, s)
    ensures s == Init().(agents := [0, 1], permit := true,
                         handles := [Handle("a", 0, true, false), Handle("b", 0, true, false)])
  {
    es, s := Extend(c, [], Init(), AddAgent("a"));
    es, s := Extend(c, es, s, AddAgent("b"));
  }

  lemma ThreeAgents(c: Config) returns (es: seq<Event>, s: State)
    ensures WellFormed(s) && Reaches(c, es, s) && s.agents == [0, 1, 2]
    ensures s.handles == [Handle("a", 0, true, false), Handle("b", 0, true, false), Handle("c", 0, false, false)]
    ensures s == Init().(agents := s.agents, handles := s.handles, permit := true)
  {
    es, s := TwoAgents(c);
    es, s := Extend(c, es, s, AddAgent("c"));
    es, s := Extend(c, es, s, StoreHealth(2, false));
  }

  /** Two agents with a task each, one idle but unhealthy, and a third task
      about to be counted on the first. */
  lemma ChosenAmongBusy(c: Config) returns (es: seq<Event>, s: State)
    requires c.maxQueue >= 1 && c.maxConcurrent >= 2
    ensures WellFormed(s) && Reaches(c, es, s) && s.agents == [0, 1, 2] && s.health.HealthIdle?
    ensures s.handles == [Handle("a", 1, true, false), Handle("b", 1, true, false), Handle("c", 0, false, false)]
    ensures s.dispatcher == Chosen(0, Task(3, 0)) && s.runners == [Executing(0, Task(1, 0)), Executing(1, Task(2, 0))]
  {
    es, s := ThreeAgents(c);
    ScanThree(c, s.handles);
    es, s := SubmitAndDispatch(c, es, s, 0, 0);
    ScanThree(c, s.handles);
    es, s := SubmitAndDispatch(c, es, s, 1, 0);
    es, s := SubmitFrame(c, es, s);
    ScanThree(c, s.handles);
    es, s := ScanOnce(c, es, s);
  }

  /** A completion, a recovery or a new agent between the scan and the
      `fetch_add`, each alone, makes the dispatch go to an agent that is not
      least loaded any more. */
  lemma EachLoweringUnbalances(c: Config, e: Event) returns (es: seq<Event>, s: State)
    requires c.maxQueue >= 1 && c.maxConcurrent >= 2
    requires e == Release(1, true) || e == StoreHealth(2, true) || e == AddAgent("d")
    ensures WellFormed(s) && Reaches(c, es, s) && Fair(s) && Enabled(c, s, e) && Lowers(e)
    ensures WellFormed(Apply(c, s, e)) && !Fair(Apply(c, s, e))
  {
    es, s := ChosenAmongBusy(c);
    WellFormedStep(c, s, e);
    var s' := Apply(c, s, e);
    var k := if e.Release? then 1 else if e.StoreHealth? then 2 else 3;
    assert Usable(s'.handles[s'.agents[k]]) && s'.handles[s'.agents[k]].active == 0;
  }

  /** Every dispatch goes to an agent that is still least loaded if and only if
      agents run one task at a time (or none), or nothing is ever accepted. */
  lemma AlwaysFairIff(c: Config)
    ensures (forall es, s {:trigger Reaches(c, es, s)} :: Reaches(c, es, s) ==> WellFormed(s) && Fair(s))
            <==> c.maxConcurrent <= 1 || c.maxQueue == 0
  {
    if c.maxConcurrent <= 1 || c.maxQueue == 0 {
      forall es, s | Reaches(c, es, s) ensures WellFormed(s) && Fair(s) {
        ReachableIsSound(c, es, s);
        if c.maxQueue == 0 {
          ZeroQueueStaysIdle(c, Init(), es);
        }
      }
    } else {
      var es, s := EachLoweringUnbalances(c, Release(1, true));
      es, s := Extend(c, es, s, Release(1, true));
      assert Reaches(c, es, s);
    }
  }
}
