/** What `metrics` reports of a pool, and what its task count means. */
module PoolMeasure {
  import opened PoolModel
  import opened PoolCapacity

  datatype PoolMetrics = PoolMetrics(
    queueSize: nat,
    agentCount: nat,
    healthyAgentCount: nat,
    activeTasks: nat,
    drainingAgentCount: nat,
    unhealthyAgentCount: nat)

  function ActiveOn(hs: seq<Handle>, agents: seq<nat>, i: nat): nat
    requires Below(agents, |hs|) && i <= |agents|
    decreases |agents| - i
  {
    if i == |agents| then 0 else hs[agents[i]].active + ActiveOn(hs, agents, i + 1)
  }

  function HealthyFrom(hs: seq<Handle>, agents: seq<nat>, i: nat): (n: nat)
    requires Below(agents, |hs|) && i <= |agents|
    ensures n <= |agents| - i
    decreases |agents| - i
  {
    if i == |agents| then 0 else (if hs[agents[i]].healthy then 1 else 0) + HealthyFrom(hs, agents, i + 1)
  }

  function DrainingFrom(hs: seq<Handle>, agents: seq<nat>, i: nat): nat
    requires Below(agents, |hs|) && i <= |agents|
    decreases |agents| - i
  {
    if i == |agents| then 0 else (if hs[agents[i]].draining then 1 else 0) + DrainingFrom(hs, agents, i + 1)
  }

  function MetricsOf(s: State): PoolMetrics
    requires Below(s.agents, |s.handles|)
  {
    var healthy := HealthyFrom(s.handles, s.agents, 0);
    PoolMetrics(|s.queue|, |s.agents|, healthy, ActiveOn(s.handles, s.agents, 0),
                DrainingFrom(s.handles, s.agents, 0), |s.agents| - healthy)
  }

  lemma {:induction false} HealthyAreCounted(hs: seq<Handle>, agents: seq<nat>, i: nat)
    requires Below(agents, |hs|) && i <= |agents|
    ensures HealthyFrom(hs, agents, i) == |set k | i <= k < |agents| && hs[agents[k]].healthy|
    decreases |agents| - i
  {
    var all := set k | i <= k < |agents| && hs[agents[k]].healthy;
    if i == |agents| {
      assert all == {};
    } else {
      var rest := set k | i + 1 <= k < |agents| && hs[agents[k]].healthy;
      HealthyAreCounted(hs, agents, i + 1);
      assert all == if hs[agents[i]].healthy then rest + {i} else rest;
    }
  }

  lemma {:induction false} DrainingAreCounted(hs: seq<Handle>, agents: seq<nat>, i: nat)
    requires Below(agents, |hs|) && i <= |agents|
    ensures DrainingFrom(hs, agents, i) == |set k | i <= k < |agents| && hs[agents[k]].draining|
    decreases |agents| - i
  {
    var all := set k | i <= k < |agents| && hs[agents[k]].draining;
    if i == |agents| {
      assert all == {};
    } else {
      var rest := set k | i + 1 <= k < |agents| && hs[agents[k]].draining;
      DrainingAreCounted(hs, agents, i + 1);
      assert all == if hs[agents[i]].draining then rest + {i} else rest;
    }
  }

  /** Tasks running on the agents listed from `i` on. */
  function RunningWithin(rs: seq<Runner>, agents: seq<nat>, i: nat): nat
    requires i <= |agents|
  {
    if rs == [] then 0
    else (if rs[0].Executing? && rs[0].agent in agents[i..] then 1 else 0) + RunningWithin(rs[1..], agents, i)
  }

  lemma {:induction false} RunningWithinSplit(rs: seq<Runner>, agents: seq<nat>, i: nat)
    requires i < |agents| && agents[i] !in agents[i + 1..]
    ensures RunningWithin(rs, agents, i) == RunningOn(rs, agents[i]) + RunningWithin(rs, agents, i + 1)
  {
    if rs != [] {
      RunningWithinSplit(rs[1..], agents, i);
      assert agents[i..] == [agents[i]] + agents[i + 1..];
    }
  }

  lemma {:induction false} ActiveIsRunning(c: Config, s: State, i: nat)
    requires WellFormed(s) && Capacity(c, s) && i <= |s.agents|
    ensures ActiveOn(s.handles, s.agents, i) == RunningWithin(s.runners, s.agents, i)
    decreases |s.agents| - i
  {
    if i == |s.agents| {
      NoneWithinNothing(s.runners, s.agents);
    } else {
      ActiveIsRunning(c, s, i + 1);
      forall k | i < k < |s.agents| ensures s.agents[k] != s.agents[i] {
        assert s.handles[s.agents[i]].id != s.handles[s.agents[k]].id;
      }
      RunningWithinSplit(s.runners, s.agents, i);
    }
  }

  lemma NoneWithinNothing(rs: seq<Runner>, agents: seq<nat>)
    ensures RunningWithin(rs, agents, |agents|) == 0
  {
  }

  /** `active_tasks` is the number of tasks running on the agents of the pool. */
  lemma MetricsCountRunningTasks(c: Config, s: State)
    requires WellFormed(s) && Capacity(c, s)
    ensures MetricsOf(s).activeTasks == RunningWithin(s.runners, s.agents, 0) <= |s.agents| * c.maxConcurrent
    ensures var m := MetricsOf(s);
      && m.queueSize == |s.queue| && m.agentCount == |s.agents|
      && m.healthyAgentCount == |set k | 0 <= k < |s.agents| && s.handles[s.agents[k]].healthy|
      && m.unhealthyAgentCount == |s.agents| - m.healthyAgentCount
      && m.drainingAgentCount == |set k | 0 <= k < |s.agents| && s.handles[s.agents[k]].draining|
  {
    HealthyAreCounted(s.handles, s.agents, 0);
    DrainingAreCounted(s.handles, s.agents, 0);
    ActiveIsRunning(c, s, 0);
    ActiveWithinCapacity(c, s, 0);
  }

  lemma {:induction false} ActiveWithinCapacity(c: Config, s: State, i: nat)
    requires WellFormed(s) && Capacity(c, s) && i <= |s.agents|
    ensures ActiveOn(s.handles, s.agents, i) <= (|s.agents| - i) * c.maxConcurrent
    decreases |s.agents| - i
  {
    if i < |s.agents| {
      ActiveWithinCapacity(c, s, i + 1);
      assert (|s.agents| - i) * c.maxConcurrent == (|s.agents| - (i + 1)) * c.maxConcurrent + c.maxConcurrent;
    }
  }
}
