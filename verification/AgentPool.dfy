/** The pool's shared objects and their atomic sections, in the source's own
    imperative form.

    A method is one atomic section. What a Rust task keeps in local variables
    between two of its sections is passed in and out; where that task stands is
    recorded in the ghost `model`, and every method moves `model` by exactly
    one event of PoolModel while `Valid()` ties the real fields to it. The ghost
    `trace` is the run so far, so that whatever PoolTheorems says of every
    reachable state holds of the object. */
module AgentPool {
  import opened Common
  import opened PoolModel
  import opened PoolRuns
  import PoolBalance
  import opened PoolFrames
  import PoolRetries
  import PoolWakeup
  import opened PoolCapacity
  import opened PoolHealth
  import opened PoolMeasure
  import opened PoolMembership
  import opened PoolTheorems

  /** The shared cells of an agent; `slot` is its place in `model.handles`. */
  class AgentHandle {
    const id: string
    ghost const slot: nat
    var activeTasks: u32
    var healthy: bool
    var consecutiveFailures: nat
    var shuttingDown: bool

    constructor (id: string, ghost slot: nat)
      ensures this.id == id && this.slot == slot && View() == Handle(id, 0, true, false)
      ensures HealthView() == Health(true, 0)
    {
      this.id := id;
      this.slot := slot;
      activeTasks, healthy, consecutiveFailures, shuttingDown := 0, true, 0, false;
    }

    function View(): Handle
      reads this
    {
      Handle(id, activeTasks, healthy, shuttingDown)
    }

    function HealthView(): Health
      reads this
    {
      Health(healthy, consecutiveFailures)
    }

    /** A heartbeat was answered or not; the result is what to store as `healthy`. */
    method Probe(alive: bool, threshold: nat) returns (passes: bool)
      modifies `consecutiveFailures
      ensures consecutiveFailures == Counted(old(consecutiveFailures), alive)
      ensures passes == Passes(old(consecutiveFailures), alive, threshold)
    {
      if alive {
        consecutiveFailures := 0;
        return true;
      }
      var failures := consecutiveFailures + 1;
      consecutiveFailures := failures;
      return failures < threshold;
    }
  }

  /** The element that `min_by_key` carries along. */
  type Best = Option<(AgentHandle, u32)>

  ghost function PickOf(b: Best): Option<Pick> {
    match b
    case None => None
    case Some((agent, load)) => Some(Pick(agent.slot, load))
  }

  ghost function SlotsOf(agents: seq<AgentHandle>): seq<nat> {
    seq(|agents|, k requires 0 <= k < |agents| => agents[k].slot)
  }

  lemma SlotsOfRest(agents: seq<AgentHandle>, p: nat)
    requires p < |agents|
    ensures SlotsOf(agents[..p] + agents[p + 1..]) == SlotsOf(agents)[..p] + SlotsOf(agents)[p + 1..]
  {
  }

  lemma PositionIsFirst(hs: seq<Handle>, agents: seq<nat>, id: string, i: nat)
    requires Below(agents, |hs|) && i < |agents| && hs[agents[i]].id == id
    requires forall k | 0 <= k < i :: hs[agents[k]].id != id
    ensures Position(hs, agents, id) == Some(i)
  {
    if i > 0 {
      PositionIsFirst(hs, agents[1..], id, i - 1);
    }
  }

  /** Some agent of the list has this id. */
  ghost predicate Listed(agents: seq<AgentHandle>, id: string) {
    exists k | 0 <= k < |agents| :: agents[k].id == id
  }

  /** `candidates.iter().any(|c| c.id == a.id)` */
  predicate SharesId(agent: AgentHandle, candidates: seq<AgentHandle>) {
    exists j | 0 <= j < |candidates| :: candidates[j].id == agent.id
  }

  function Unshared(agents: seq<AgentHandle>, candidates: seq<AgentHandle>): seq<AgentHandle> {
    if agents == [] then []
    else (if SharesId(agents[0], candidates) then [] else [agents[0]]) + Unshared(agents[1..], candidates)
  }

  lemma {:induction false} UnsharedInOrder(agents: seq<AgentHandle>, candidates: seq<AgentHandle>)
    ensures InOrder(SlotsOf(Unshared(agents, candidates)), SlotsOf(agents))
  {
    if agents != [] {
      var rest := Unshared(agents[1..], candidates);
      var ys, kept := SlotsOf(agents), SlotsOf(Unshared(agents, candidates));
      UnsharedInOrder(agents[1..], candidates);
      UnsharedMeans(agents[1..], candidates);
      assert ys[1..] == SlotsOf(agents[1..]);
      var skipped := |kept| - |rest|;
      forall i, j | 0 <= i < j < |kept| ensures Precedes(ys, kept[i], kept[j]) {
        assert kept[j] == SlotsOf(rest)[j - skipped] && rest[j - skipped] in agents[1..];
        var l :| 0 <= l < |agents[1..]| && agents[1..][l] == rest[j - skipped];
        assert ys[1..][l] == kept[j];
        assert i >= skipped ==> kept[i] == SlotsOf(rest)[i - skipped];
        PrecedesBehind(ys, kept[i], kept[j]);
      }
    }
  }

  lemma UnsharedFrom(agents: seq<AgentHandle>, candidates: seq<AgentHandle>, i: nat)
    requires i < |agents|
    ensures Unshared(agents[i..], candidates)
            == (if SharesId(agents[i], candidates) then [] else [agents[i]]) + Unshared(agents[i + 1..], candidates)
  {
    assert agents[i..][1..] == agents[i + 1..];
  }

  /** `retain(..)` */
  method KeepUnshared(agents: seq<AgentHandle>, candidates: seq<AgentHandle>) returns (kept: seq<AgentHandle>)
    ensures kept == Unshared(agents, candidates)
  {
    kept := [];
    for i := 0 to |agents|
      invariant kept + Unshared(agents[i..], candidates) == Unshared(agents, candidates)
    {
      ghost var rest := Unshared(agents[i + 1..], candidates);
      UnsharedFrom(agents, candidates, i);
      if SharesId(agents[i], candidates) {
        assert [] + rest == rest;
      } else {
        assert kept + ([agents[i]] + rest) == kept + [agents[i]] + rest;
        kept := kept + [agents[i]];
      }
    }
  }

  /** `hs` knows the ids of the listed handles. */
  ghost predicate IdsKnown(hs: seq<Handle>, agents: seq<AgentHandle>) {
    forall k | 0 <= k < |agents| :: agents[k].slot < |hs| && hs[agents[k].slot].id == agents[k].id
  }

  ghost predicate Lists(candidates: seq<AgentHandle>, found: seq<Candidate>) {
    |candidates| == |found| && forall i | 0 <= i < |candidates| :: candidates[i].slot == found[i].agent
  }

  lemma SharesIdIsNamedBy(hs: seq<Handle>, agent: AgentHandle, candidates: seq<AgentHandle>, found: seq<Candidate>)
    requires agent.slot < |hs| && hs[agent.slot].id == agent.id
    requires IdsKnown(hs, candidates) && Lists(candidates, found) && Known(found, |hs|)
    ensures SharesId(agent, candidates) == NamedBy(hs, found, agent.slot)
  {
    if SharesId(agent, candidates) {
      var j :| 0 <= j < |candidates| && candidates[j].id == agent.id;
      assert hs[found[j].agent].id == agent.id;
    }
  }

  /** `a` keeps its place among the agents: no candidate has its id. */
  ghost predicate Stays(a: AgentHandle, candidates: seq<AgentHandle>) {
    forall j | 0 <= j < |candidates| :: candidates[j].id != a.id
  }

  lemma UnsharedAreAgents(agents: seq<AgentHandle>, candidates: seq<AgentHandle>)
    ensures forall k | 0 <= k < |Unshared(agents, candidates)| :: Unshared(agents, candidates)[k] in agents
  {
  }

  lemma {:induction false} UnsharedMeans(agents: seq<AgentHandle>, candidates: seq<AgentHandle>)
    ensures forall a :: a in Unshared(agents, candidates) <==> a in agents && Stays(a, candidates)
  {
    if agents != [] {
      UnsharedMeans(agents[1..], candidates);
      assert agents == [agents[0]] + agents[1..];
    }
  }

  /** Removing handles by id does to the list what `Retained` does to the model's. */
  lemma {:induction false} UnsharedIsRetained(hs: seq<Handle>, agents: seq<AgentHandle>,
                                              candidates: seq<AgentHandle>, found: seq<Candidate>)
    requires IdsKnown(hs, agents) && IdsKnown(hs, candidates) && Lists(candidates, found) && Known(found, |hs|)
    ensures Below(SlotsOf(agents), |hs|)
    ensures SlotsOf(Unshared(agents, candidates)) == Retained(hs, found, SlotsOf(agents))
  {
    if agents != [] {
      assert IdsKnown(hs, agents[1..]);
      var rest := Unshared(agents[1..], candidates);
      UnsharedIsRetained(hs, agents[1..], candidates, found);
      SharesIdIsNamedBy(hs, agents[0], candidates, found);
      assert SlotsOf(agents) == [agents[0].slot] + SlotsOf(agents[1..]);
      assert SlotsOf([agents[0]] + rest) == [agents[0].slot] + SlotsOf(rest);
      assert [] + rest == rest;
    }
  }

  /** `answers` has no answer for this frame. */
  ghost predicate NotAnswered(frame: nat, answers: seq<Answer>) {
    forall k | 0 <= k < |answers| :: answers[k].frame != frame
  }

  lemma AnswersAreNew(c: Config, es: seq<Event>, s: State, before: seq<Answer>, sent: seq<Answer>)
    requires Reaches(c, es, s) && s.log.answers == before + sent
    ensures forall i | 0 <= i < |sent| :: NotAnswered(sent[i].frame, before + sent[..i])
  {
    forall i | 0 <= i < |sent| ensures NotAnswered(sent[i].frame, before + sent[..i]) {
      AnsweredAtMostOnce(c, es, s, |before| + i);
      assert forall k | 0 <= k < |before| + i :: (before + sent[..i])[k] == s.log.answers[k];
    }
  }

  lemma RoomForChosen(c: Config, es: seq<Event>, s: State)
    requires Reaches(c, es, s) && s.dispatcher.Chosen?
    ensures s.dispatcher.agent < |s.handles| && s.handles[s.dispatcher.agent].active < c.maxConcurrent
  {
    ReachableIsSound(c, es, s);
  }

  lemma RunningIsCounted(c: Config, es: seq<Event>, s: State, i: nat)
    requires Reaches(c, es, s) && i < |s.runners| && s.runners[i].Executing?
    ensures s.runners[i].agent < |s.handles| && s.handles[s.runners[i].agent].active > 0
  {
    ReachableIsSound(c, es, s);
    CapacityRelease(c, s, i, true);
  }

  lemma ArrivingIsNew(c: Config, es: seq<Event>, s: State, frame: nat)
    requires Reaches(c, es, s) && frame in s.arriving
    ensures frame !in s.log.accepted
  {
    ReachableIsSound(c, es, s);
  }

  lemma IntakeIsBounded(c: Config, es: seq<Event>, s: State)
    requires Reaches(c, es, s)
    ensures |FirstAttempts(s.queue)| <= c.maxQueue
  {
    FirstInFirstOut(c, es, s);
  }

  lemma RunnerIsUnanswered(c: Config, es: seq<Event>, s: State, i: nat)
    requires Reaches(c, es, s) && i < |s.runners|
    ensures NotAnswered(s.runners[i].task.frame, s.log.answers)
  {
    ReachableIsSound(c, es, s);
    PoolRetries.RunnerIsAlone(s, i);
  }

  class AgentPool {
    const config: Config
    var agents: seq<AgentHandle>
    var taskQueue: seq<Task>
    var nextFrameId: nat
    var taskSignals: nat         // messages buffered in the signal channel
    var agentAvailable: bool     // the permit stored in the `Notify`
    var shuttingDown: bool

    ghost var slots: seq<AgentHandle>
    ghost var model: State
    ghost var trace: seq<Event>

    ghost predicate Valid()
      reads this, slots
    {
      && WellFormed(model)
      && Reaches(config, trace, model)
      && |slots| == |model.handles|
      && (forall a | 0 <= a < |slots| :: slots[a].slot == a && slots[a].View() == model.handles[a])
      && (forall k | 0 <= k < |agents| :: agents[k] in slots)
      && SlotsOf(agents) == model.agents
      && taskQueue == model.queue
      && nextFrameId == model.nextFrame
      && taskSignals == model.signals
      && agentAvailable == model.permit
      && shuttingDown == model.shuttingDown
    }

    /** `agent` is one of the pool's handles, present or past. */
    ghost predicate Owns(agent: AgentHandle)
      reads this
    {
      agent in slots
    }

    constructor (config: Config)
      ensures Valid() && this.config == config && model == Init() && slots == []
      ensures agents == [] && taskQueue == [] && nextFrameId == 1 && taskSignals == 0
      ensures !agentAvailable && !shuttingDown
    {
      this.config := config;
      agents, taskQueue, nextFrameId, taskSignals := [], [], 1, 0;
      agentAvailable, shuttingDown := false, false;
      slots, model, trace := [], Init(), [];
    }

    /** The model's step of a section. */
    ghost method Advance(e: Event)
      requires WellFormed(model) && Reaches(config, trace, model) && Enabled(config, model, e)
      modifies this`model, this`trace
      ensures WellFormed(model) && Reaches(config, trace, model)
      ensures model == Apply(config, old(model), e)
    {
      trace, model := Extend(config, trace, model, e);
    }

    /** A dispatcher waiting for tasks with no signal in the channel has none to wait for. */
    lemma WaitsForTasks()
      requires Valid() && model.dispatcher.EmptyWait? && taskSignals == 0
      ensures taskQueue == []
    {
      NoLostTaskWakeup(config, trace, model);
    }

    /** A dispatcher waiting for agents with no permit stored and none owed has
        only agents that may not be used or that are busy. */
    lemma WaitsForAgents()
      requires Valid() && model.dispatcher.AgentWait? && config.maxConcurrent >= 1
      requires !agentAvailable && !model.health.HealthOwes? && !PoolWakeup.RunnerOwes(model.runners)
      ensures forall k | 0 <= k < |agents| ::
                !agents[k].healthy || agents[k].shuttingDown || agents[k].activeTasks > 0
    {
      ReachableIsSound(config, trace, model);
      AgentsHaveModelIds();
      forall k | 0 <= k < |agents| ensures !agents[k].healthy || agents[k].shuttingDown || agents[k].activeTasks > 0 {
        assert PoolWakeup.Blocked(model.handles[model.agents[k]]);
      }
    }

    // ----- submit -----

    method CheckOpen() returns (open: bool)
      requires Valid()
      modifies this`model, this`trace
      ensures Valid() && open == !shuttingDown
      ensures model == if open then Apply(config, old(model), PassOpenCheck) else old(model)
    {
      open := !shuttingDown;
      if open {
        Advance(PassOpenCheck);
      }
    }

    method TakeFrameId() returns (frame: nat)
      requires Valid() && Enabled(config, model, PoolModel.TakeFrameId)
      modifies this`nextFrameId, this`model, this`trace
      ensures Valid() && frame == old(nextFrameId) && nextFrameId == frame + 1
      ensures model == Apply(config, old(model), PoolModel.TakeFrameId)
    {
      frame := nextFrameId;
      nextFrameId := nextFrameId + 1;
      Advance(PoolModel.TakeFrameId);
    }

    /** The locked block of `submit`; false is `QueueFull`. */
    method Enqueue(frame: nat) returns (accepted: bool)
      requires Valid() && Enabled(config, model, PoolModel.Enqueue(frame))
      modifies this`taskQueue, this`taskSignals, this`model, this`trace
      ensures Valid() && accepted == (|old(taskQueue)| < config.maxQueue)
      ensures taskQueue == old(taskQueue) + (if accepted then [Task(frame, 0)] else [])
      ensures taskSignals == old(taskSignals) + (if accepted && old(taskQueue) == [] then 1 else 0)
      ensures model == Apply(config, old(model), PoolModel.Enqueue(frame))
      ensures frame !in old(model).log.accepted && |FirstAttempts(taskQueue)| <= config.maxQueue
    {
      ArrivingIsNew(config, trace, model, frame);
      Advance(PoolModel.Enqueue(frame));
      IntakeIsBounded(config, trace, model);
      if |taskQueue| >= config.maxQueue {
        return false;
      }
      var wasEmpty := taskQueue == [];
      taskQueue := taskQueue + [Task(frame, 0)];
      if wasEmpty {
        taskSignals := taskSignals + 1;
      }
      return true;
    }

    // ----- shutdown -----

    method BeginShutdown()
      requires Valid()
      modifies this`shuttingDown, this`model, this`trace
      ensures Valid() && shuttingDown && model == Apply(config, old(model), PoolModel.BeginShutdown)
    {
      shuttingDown := true;
      Advance(PoolModel.BeginShutdown);
    }

    /** Pops the whole queue under its lock, answering every task. */
    method RejectQueued() returns (sent: seq<Answer>)
      requires Valid() && Enabled(config, model, PoolModel.RejectQueued)
      modifies this`taskQueue, this`model, this`trace
      ensures Valid() && model == Apply(config, old(model), PoolModel.RejectQueued)
      ensures taskQueue == [] && |sent| == |old(taskQueue)|
      ensures forall i | 0 <= i < |sent| :: sent[i] == Answer(old(taskQueue)[i].frame, ShuttingDown)
      ensures model.log.answers == old(model).log.answers + sent
      ensures forall i | 0 <= i < |sent| :: NotAnswered(sent[i].frame, old(model).log.answers + sent[..i])
    {
      sent := [];
      while taskQueue != []
        invariant |sent| <= |old(taskQueue)| && taskQueue == old(taskQueue)[|sent|..]
        invariant forall i | 0 <= i < |sent| :: sent[i] == Answer(old(taskQueue)[i].frame, ShuttingDown)
        decreases |taskQueue|
        modifies this`taskQueue
      {
        var task := taskQueue[0];
        taskQueue := taskQueue[1..];
        sent := sent + [Answer(task.frame, ShuttingDown)];
      }
      RejectionFrames(old(taskQueue));
      assert sent == Rejections(old(taskQueue));
      Advance(PoolModel.RejectQueued);
      AnswersAreNew(config, trace, model, old(model).log.answers, sent);
    }

    method ClearAgents()
      requires Valid() && Enabled(config, model, PoolModel.ClearAgents)
      modifies this`agents, this`model, this`trace
      ensures Valid() && agents == [] && model == Apply(config, old(model), PoolModel.ClearAgents)
    {
      agents := [];
      Advance(PoolModel.ClearAgents);
    }

    // ----- the agent list -----

    method IndexOf(id: string) returns (r: Option<nat>)
      requires Valid()
      ensures r == Position(model.handles, model.agents, id)
      ensures r.Some? == Listed(agents, id)
      ensures r.Some? ==> r.value < |agents| && agents[r.value].id == id
    {
      var i := 0;
      while i < |agents|
        invariant i <= |agents|
        invariant forall k | 0 <= k < i :: agents[k].id != id && model.handles[model.agents[k]].id != id
      {
        assert model.agents[i] == agents[i].slot;
        if agents[i].id == id {
          PositionIsFirst(model.handles, model.agents, id, i);
          return Some(i);
        }
        i := i + 1;
      }
      return None;
    }

    method AddAgent(id: string)
      requires Valid() && Enabled(config, model, PoolModel.AddAgent(id))
      modifies this
      ensures Valid() && model == Apply(config, old(model), PoolModel.AddAgent(id))
      ensures old(slots) <= slots && fresh(slots[|old(slots)|..])
      ensures taskQueue == old(taskQueue) && shuttingDown == old(shuttingDown) && taskSignals == old(taskSignals)
      ensures Listed(old(agents), id) ==> agents == old(agents) && agentAvailable == old(agentAvailable)
      ensures !Listed(old(agents), id) ==>
                && agentAvailable && |agents| == |old(agents)| + 1 && old(agents) <= agents
                && agents[|old(agents)|].View() == Handle(id, 0, true, false)
                && agents[|old(agents)|].HealthView() == Health(true, 0)
    {
      var found := IndexOf(id);
      if found.None? {
        var agent := new AgentHandle(id, |slots|);
        Push(agent);
      }
    }

    method Push(agent: AgentHandle)
      requires Valid() && Unlocked(model) && Position(model.handles, model.agents, agent.id).None?
      requires agent.slot == |slots| && agent.View() == Handle(agent.id, 0, true, false)
      modifies this`agents, this`agentAvailable, this`slots, this`model, this`trace
      ensures Valid() && model == AddedAgent(old(model), agent.id)
      ensures slots == old(slots) + [agent] && agents == old(agents) + [agent] && agentAvailable
    {
      Advance(PoolModel.AddAgent(agent.id));
      agents := agents + [agent];
      agentAvailable := true;
      slots := slots + [agent];
    }

    method RemoveAgent(id: string) returns (removed: Option<AgentHandle>)
      requires Valid() && Enabled(config, model, PoolModel.RemoveAgent(id))
      modifies this`agents, this`model, this`trace
      ensures Valid() && model == Apply(config, old(model), PoolModel.RemoveAgent(id))
      ensures removed.Some? == Listed(old(agents), id)
      ensures removed.None? ==> agents == old(agents)
      ensures removed.Some? ==>
                exists p | 0 <= p < |old(agents)| ::
                  && old(agents)[p] == removed.value && removed.value.id == id
                  && agents == old(agents)[..p] + old(agents)[p + 1..]
    {
      var found := IndexOf(id);
      match found
      case None => removed := None;
      case Some(p) =>
        AgentsHaveModelIds();
        removed := Some(agents[p]);
        RemoveAt(id, p);
    }

    method RemoveAt(ghost id: string, p: nat)
      requires Valid() && Unlocked(model) && Position(model.handles, model.agents, id) == Some(p)
      modifies this`agents, this`model, this`trace
      ensures Valid() && model == RemovedAgent(old(model), id)
      ensures p < |old(agents)| && agents == old(agents)[..p] + old(agents)[p + 1..]
    {
      SlotsOfRest(agents, p);
      agents := agents[..p] + agents[p + 1..];
      Advance(PoolModel.RemoveAgent(id));
    }

    /** `shutting_down.store(true)` on the agent that was found. */
    method SetShuttingDown(agent: AgentHandle, ghost id: string)
      requires Valid() && Owns(agent)
      requires MarkedDraining(model, id)
               == model.(handles := model.handles[agent.slot := agent.View().(draining := true)])
      modifies this`model, this`trace, agent`shuttingDown
      ensures Valid() && model == Apply(config, old(model), MarkDraining(id))
    {
      Advance(MarkDraining(id));
      agent.shuttingDown := true;
    }

    /** Marks the agent; false is `AgentUnavailable`. */
    method ShutdownAgent(id: string) returns (found: bool)
      requires Valid()
      modifies this`model, this`trace, agents`shuttingDown
      ensures Valid() && model == Apply(config, old(model), MarkDraining(id))
      ensures found == Listed(agents, id)
      ensures forall k | 0 <= k < |agents| ::
                agents[k].shuttingDown == (old(agents[k].shuttingDown) || agents[k].id == id)
    {
      AgentsHaveModelIds();
      var p := IndexOf(id);
      if p.Some? {
        SetShuttingDown(agents[p.value], id);
      } else {
        Advance(MarkDraining(id));
      }
      return p.Some?;
    }

    lemma AgentsHaveModelIds()
      requires Valid()
      ensures forall k | 0 <= k < |agents| ::
                && model.agents[k] == agents[k].slot < |slots|
                && slots[agents[k].slot] == agents[k]
                && model.handles[model.agents[k]] == agents[k].View()
    {
      forall k | 0 <= k < |agents|
        ensures model.agents[k] == agents[k].slot < |slots| && slots[agents[k].slot] == agents[k]
      {
        assert SlotsOf(agents)[k] == agents[k].slot;
      }
    }

    // ----- the health loop -----

    /** Stores a probe's verdict; true means the agent recovered and a notification is owed. */
    method StoreHealth(agent: AgentHandle, healthy: bool) returns (recovered: bool)
      requires Valid() && Owns(agent) && Enabled(config, model, PoolModel.StoreHealth(agent.slot, healthy))
      modifies this`model, this`trace, agent`healthy, agent`consecutiveFailures
      ensures Valid() && model == Apply(config, old(model), PoolModel.StoreHealth(agent.slot, healthy))
      ensures agent.healthy == healthy && recovered == (!old(agent.healthy) && healthy)
      ensures recovered <==> model.health.HealthOwes?
      ensures agent.consecutiveFailures == if recovered then 0 else old(agent.consecutiveFailures)
    {
      recovered := !agent.healthy && healthy;
      agent.healthy := healthy;
      if recovered {
        agent.consecutiveFailures := 0;
      }
      Advance(PoolModel.StoreHealth(agent.slot, healthy));
    }

    /** One agent's share of a round of the health loop. */
    method CheckHealth(agent: AgentHandle, alive: bool, threshold: nat) returns (recovered: bool)
      requires Valid() && Owns(agent) && model.health.HealthIdle?
      modifies this`model, this`trace, agent`healthy, agent`consecutiveFailures
      ensures Valid() && model == Apply(config, old(model), PoolModel.StoreHealth(agent.slot, agent.healthy))
      ensures agent.HealthView() == Round(old(agent.HealthView()), alive, threshold)
      ensures recovered == (!old(agent.healthy) && agent.healthy)
    {
      var passes := agent.Probe(alive, threshold);
      recovered := StoreHealth(agent, passes);
    }

    method NotifyRecovery()
      requires Valid() && Enabled(config, model, PoolModel.NotifyRecovery)
      modifies this`agentAvailable, this`model, this`trace
      ensures Valid() && agentAvailable && model == Apply(config, old(model), PoolModel.NotifyRecovery)
    {
      agentAvailable := true;
      Advance(PoolModel.NotifyRecovery);
    }

    // ----- the drain loop -----

    method DrainSnapshot() returns (snapshot: seq<AgentHandle>)
      requires Valid() && Enabled(config, model, PoolModel.DrainSnapshot)
      modifies this`model, this`trace
      ensures Valid() && snapshot == agents
      ensures model == Apply(config, old(model), PoolModel.DrainSnapshot)
      ensures model.drain.DrainScan? && model.drain.todo == SlotsOf(snapshot)
    {
      snapshot := agents;
      Advance(PoolModel.DrainSnapshot);
    }

    /** First read of the filter; true means the agent is a candidate already. */
    method DrainReadHealth(agent: AgentHandle) returns (candidate: bool)
      requires Valid() && Owns(agent) && Enabled(config, model, PoolModel.DrainReadHealth)
      requires model.drain.todo[0] == agent.slot
      modifies this`model, this`trace
      ensures Valid() && model == Apply(config, old(model), PoolModel.DrainReadHealth)
      ensures candidate == !agent.healthy
      ensures candidate <==> model.drain.found == old(model).drain.found + [Candidate(agent.slot, Unhealthy)]
    {
      candidate := !agent.healthy;
      Advance(PoolModel.DrainReadHealth);
    }

    /** Second read of the filter: the agent is draining and has no active task. */
    method DrainReadLoad(agent: AgentHandle) returns (candidate: bool)
      requires Valid() && Owns(agent) && Enabled(config, model, PoolModel.DrainReadLoad)
      requires model.drain.todo[0] == agent.slot
      modifies this`model, this`trace
      ensures Valid() && model == Apply(config, old(model), PoolModel.DrainReadLoad)
      ensures candidate == (agent.shuttingDown && agent.activeTasks == 0)
      ensures candidate <==> |model.drain.found| == |old(model).drain.found| + 1
      ensures candidate ==> model.drain.found[|old(model).drain.found|].agent == agent.slot
    {
      candidate := agent.shuttingDown && agent.activeTasks == 0;
      Advance(PoolModel.DrainReadLoad);
    }

    /** The end of a round: without candidates nothing happens and no lock is
        taken, otherwise `retain` drops every agent that shares its id with one. */
    method DrainRetain(candidates: seq<AgentHandle>)
      requires Valid() && Enabled(config, model, if candidates == [] then DrainNothing else PoolModel.DrainRetain)
      requires Lists(candidates, model.drain.found) && forall i | 0 <= i < |candidates| :: Owns(candidates[i])
      modifies this`agents, this`model, this`trace
      ensures Valid()
      ensures model == Apply(config, old(model), if candidates == [] then DrainNothing else PoolModel.DrainRetain)
      ensures candidates == [] ==> agents == old(agents)
      ensures forall a :: a in agents <==> a in old(agents) && Stays(a, candidates)
      ensures candidates != [] ==> InOrder(SlotsOf(agents), SlotsOf(old(agents)))
    {
      if candidates == [] {
        Advance(DrainNothing);
      } else {
        UnsharedMeans(agents, candidates);
        UnsharedInOrder(agents, candidates);
        Retain(candidates);
      }
    }

    method Retain(candidates: seq<AgentHandle>)
      requires Valid() && Enabled(config, model, PoolModel.DrainRetain)
      requires Lists(candidates, model.drain.found) && forall i | 0 <= i < |candidates| :: Owns(candidates[i])
      modifies this`agents, this`model, this`trace
      ensures Valid() && model == Apply(config, old(model), PoolModel.DrainRetain)
      ensures agents == Unshared(old(agents), candidates)
    {
      AgentsHaveModelIds();
      UnsharedIsRetained(model.handles, agents, candidates, model.drain.found);
      UnsharedAreAgents(agents, candidates);
      agents := KeepUnshared(agents, candidates);
      Advance(PoolModel.DrainRetain);
    }

    // ----- the dispatcher -----

    /** Takes the queue lock, and the agents' read lock unless the queue is empty. */
    method CheckQueue() returns (empty: bool)
      requires Valid() && Enabled(config, model, PoolModel.CheckQueue)
      modifies this`model, this`trace
      ensures Valid() && empty == (taskQueue == [])
      ensures model == Apply(config, old(model), PoolModel.CheckQueue)
    {
      empty := taskQueue == [];
      Advance(PoolModel.CheckQueue);
    }

    method RecvSignal()
      requires Valid() && (Enabled(config, model, PoolModel.RecvSignal) || Enabled(config, model, WakeBySignal))
      modifies this`taskSignals, this`model, this`trace
      ensures Valid()
      ensures taskSignals == old(taskSignals) - 1
      ensures model == Apply(config, old(model),
                             if old(model).dispatcher.EmptyWait? then PoolModel.RecvSignal else WakeBySignal)
    {
      taskSignals := taskSignals - 1;
      Advance(if model.dispatcher.EmptyWait? then PoolModel.RecvSignal else WakeBySignal);
    }

    method WakeByPermit()
      requires Valid() && Enabled(config, model, PoolModel.WakeByPermit)
      modifies this`agentAvailable, this`model, this`trace
      ensures Valid() && !agentAvailable && model == Apply(config, old(model), PoolModel.WakeByPermit)
    {
      agentAvailable := false;
      Advance(PoolModel.WakeByPermit);
    }

    /** One agent of `filter(..).min_by_key(..)`. */
    method ScanNext(next: nat, best: Best) returns (best': Best)
      requires Valid() && Enabled(config, model, PoolModel.ScanNext)
      requires model.dispatcher == Scanning(next, PickOf(best))
      requires best.Some? ==> Owns(best.value.0)
      modifies this`model, this`trace
      ensures Valid() && model == Apply(config, old(model), PoolModel.ScanNext)
      ensures model.dispatcher == Scanning(next + 1, PickOf(best'))
      ensures best'.Some? ==> Owns(best'.value.0)
      ensures var a := agents[next];
              best' == if && a.healthy && !a.shuttingDown && a.activeTasks < config.maxConcurrent
                          && (best.None? || a.activeTasks < best.value.1)
                       then Some((a, a.activeTasks)) else best
    {
      AgentsHaveModelIds();
      var a := agents[next];
      best' := best;
      if a.healthy && !a.shuttingDown && a.activeTasks < config.maxConcurrent {
        if best.None? || a.activeTasks < best.value.1 {
          best' := Some((a, a.activeTasks));
        }
      }
      Advance(PoolModel.ScanNext);
    }

    /** Ends the scan and drops the locks; with an agent, the head of the queue goes to it. */
    method ScanEnd(best: Best) returns (picked: Option<(AgentHandle, Task)>)
      requires Valid() && Enabled(config, model, PoolModel.ScanEnd)
      requires model.dispatcher.best == PickOf(best)
      requires best.Some? ==> Owns(best.value.0)
      modifies this`taskQueue, this`model, this`trace
      ensures Valid() && model == Apply(config, old(model), PoolModel.ScanEnd)
      ensures picked.None? == best.None? && (picked.Some? ==> picked.value.0 == best.value.0)
      ensures picked.None? ==> model.dispatcher.AgentWait? && taskQueue == old(taskQueue)
      ensures picked.Some? ==> Owns(picked.value.0) && model.dispatcher == Chosen(picked.value.0.slot, picked.value.1)
      ensures picked.Some? ==>
                && old(taskQueue) == [picked.value.1] + taskQueue
                && picked.value.0.activeTasks < config.maxConcurrent
    {
      Advance(PoolModel.ScanEnd);
      if best.None? {
        return None;
      }
      RoomForChosen(config, trace, model);
      picked := Some((best.value.0, taskQueue[0]));
      taskQueue := taskQueue[1..];
    }

    /** `fetch_add(1)` and the spawn of the runner. */
    method CountDispatch(agent: AgentHandle, task: Task)
      requires Valid() && Owns(agent) && Enabled(config, model, PoolModel.CountDispatch)
      requires model.dispatcher == Chosen(agent.slot, task)
      modifies this`model, this`trace, agent`activeTasks
      ensures Valid() && model == Apply(config, old(model), PoolModel.CountDispatch)
      ensures agent.activeTasks as int == old(agent.activeTasks) + 1 <= config.maxConcurrent
    {
      RoomForChosen(config, trace, model);
      agent.activeTasks := WrappingInc(agent.activeTasks);
      Advance(PoolModel.CountDispatch);
    }

    // ----- a spawned runner -----

    /** `fetch_sub(1)` by the runner at index `i` of the model; true if it must notify. */
    method Release(agent: AgentHandle, ghost i: nat, ok: bool) returns (owes: bool)
      requires Valid() && Owns(agent) && Enabled(config, model, PoolModel.Release(i, ok))
      requires model.runners[i].agent == agent.slot
      modifies this`model, this`trace, agent`activeTasks
      ensures Valid() && model == Apply(config, old(model), PoolModel.Release(i, ok))
      ensures model.runners[i].Released? && model.runners[i].owes == owes
      ensures agent.activeTasks as int == old(agent.activeTasks) - 1 && owes == (agent.activeTasks == 0)
    {
      RunningIsCounted(config, trace, model, i);
      var prev := agent.activeTasks;
      agent.activeTasks := WrappingDec(prev);
      Advance(PoolModel.Release(i, ok));
      owes := prev == 1;
    }

    method NotifyIdle(ghost i: nat)
      requires Valid() && Enabled(config, model, PoolModel.NotifyIdle(i))
      modifies this`agentAvailable, this`model, this`trace
      ensures Valid() && agentAvailable && model == Apply(config, old(model), PoolModel.NotifyIdle(i))
    {
      agentAvailable := true;
      Advance(PoolModel.NotifyIdle(i));
    }

    /** The runner's last section: the answer it sends, or None on a requeue. */
    method Settle(ghost i: nat, task: Task, ok: bool) returns (answer: Option<Answer>)
      requires Valid() && Enabled(config, model, PoolModel.Settle(i))
      requires model.runners[i] == Released(task, ok, false)
      modifies this`taskQueue, this`taskSignals, this`model, this`trace
      ensures Valid() && model == Apply(config, old(model), PoolModel.Settle(i))
      ensures model.log.answers == old(model).log.answers + (if answer.Some? then [answer.value] else [])
      ensures answer ==
                if ok then Some(Answer(task.frame, Done))
                else if task.retries < config.maxRetries then None
                else Some(Answer(task.frame, MaxRetriesExceeded(task.retries)))
      ensures taskQueue == old(taskQueue) + (if answer.None? then [Task(task.frame, task.retries + 1)] else [])
      ensures taskSignals == old(taskSignals) + (if answer.None? then 1 else 0)
      ensures answer.Some? ==> NotAnswered(task.frame, old(model).log.answers)
    {
      RunnerIsUnanswered(config, trace, model, i);
      Advance(PoolModel.Settle(i));
      if ok {
        return Some(Answer(task.frame, Done));
      }
      if task.retries < config.maxRetries {
        taskQueue := taskQueue + [Task(task.frame, task.retries + 1)];
        taskSignals := taskSignals + 1;
        return None;
      }
      return Some(Answer(task.frame, MaxRetriesExceeded(task.retries)));
    }

    // ----- what the autoscaler reads -----

    lemma FlagsOfModel()
      requires Valid()
      ensures Below(model.agents, |model.handles|)
      ensures (set k | 0 <= k < |agents| && agents[k].healthy)
              == set k | 0 <= k < |model.agents| && model.handles[model.agents[k]].healthy
      ensures (set k | 0 <= k < |agents| && agents[k].shuttingDown)
              == set k | 0 <= k < |model.agents| && model.handles[model.agents[k]].draining
    {
      AgentsHaveModelIds();
    }

    /** `metrics`, taken while nothing moves. */
    method Metrics() returns (m: PoolMetrics)
      requires Valid()
      ensures m == MetricsOf(model)
      ensures m.queueSize == |taskQueue| && m.agentCount == |agents|
      ensures m.healthyAgentCount == |set k | 0 <= k < |agents| && agents[k].healthy|
      ensures m.unhealthyAgentCount == |agents| - m.healthyAgentCount
      ensures m.drainingAgentCount == |set k | 0 <= k < |agents| && agents[k].shuttingDown|
      ensures m.activeTasks == RunningWithin(model.runners, model.agents, 0) <= |agents| * config.maxConcurrent
    {
      AgentsHaveModelIds();
      ReachableIsSound(config, trace, model);
      MetricsCountRunningTasks(config, model);
      var active, healthy, draining, unhealthy := 0, 0, 0, 0;
      for i := 0 to |agents|
        invariant active + ActiveOn(model.handles, model.agents, i) == ActiveOn(model.handles, model.agents, 0)
        invariant healthy + HealthyFrom(model.handles, model.agents, i) == HealthyFrom(model.handles, model.agents, 0)
        invariant draining + DrainingFrom(model.handles, model.agents, i)
                  == DrainingFrom(model.handles, model.agents, 0)
        invariant healthy + unhealthy == i
      {
        active := active + agents[i].activeTasks;
        if agents[i].healthy { healthy := healthy + 1; }
        if agents[i].shuttingDown { draining := draining + 1; }
        if !agents[i].healthy { unhealthy := unhealthy + 1; }
      }
      m := PoolMetrics(|taskQueue|, |agents|, healthy, active, draining, unhealthy);
      FlagsOfModel();
    }

    /** The first least loaded agent that is healthy and not draining. */
    method FindLeastLoadedAgent() returns (r: Best)
      requires Valid()
      ensures r.None? <==> forall k | 0 <= k < |agents| :: !agents[k].healthy || agents[k].shuttingDown
      ensures r.Some? ==>
                && r.value.0 in agents && r.value.0.healthy && !r.value.0.shuttingDown
                && r.value.1 == r.value.0.activeTasks
                && PoolBalance.NoneBelow(model.handles, model.agents, |model.agents|, r.value.1)
                && (forall j | 0 <= j < |agents| && agents[j] == r.value.0 ::
                      PoolBalance.NoneBelow(model.handles, model.agents, j, r.value.1 + 1))
    {
      AgentsHaveModelIds();
      r := None;
      ghost var at := 0;
      for i := 0 to |agents|
        invariant r.None? ==> forall k | 0 <= k < i :: !agents[k].healthy || agents[k].shuttingDown
        invariant r.Some? ==>
                    && at < i && agents[at] == r.value.0 && r.value.0.healthy && !r.value.0.shuttingDown
                    && r.value.1 == r.value.0.activeTasks
                    && PoolBalance.NoneBelow(model.handles, model.agents, i, r.value.1)
                    && PoolBalance.NoneBelow(model.handles, model.agents, at, r.value.1 + 1)
      {
        var a := agents[i];
        if a.healthy && !a.shuttingDown && (r.None? || a.activeTasks < r.value.1) {
          r := Some((a, a.activeTasks));
          at := i;
        }
      }
    }
  }
}
