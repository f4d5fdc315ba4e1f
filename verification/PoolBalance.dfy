/** Dispatching balances: a task goes to an agent no usable one is less loaded
    than, and loads that were within one of each other stay so, until some
    load is lowered behind the scan's back. */
module PoolBalance {
  import opened Common
  import opened PoolModel
  import opened PoolRuns
  import opened PoolCapacity

  predicate Usable(h: Handle) { h.healthy && !h.draining }

  /** No usable agent among the first `n` is less loaded than `load`. */
  ghost predicate NoneBelow(hs: seq<Handle>, agents: seq<nat>, n: nat, load: int)
    requires Below(agents, |hs|) && n <= |agents|
  {
    forall k | 0 <= k < n && Usable(hs[agents[k]]) :: load <= hs[agents[k]].active
  }

  // ----- Least loaded -----

  /** Events that can put a usable agent below what the scan has read: a
      completion, a recovery, a new agent. */
  predicate Lowers(e: Event) {
    e.Release? || (e.StoreHealth? && e.healthy) || e.AddAgent?
  }

  /** The dispatch that is about to be counted goes to a least loaded agent, so
      it lifts no agent above the least load of the usable ones plus one. */
  ghost predicate Fair(s: State)
    requires WellFormed(s)
  {
    s.dispatcher.Chosen? ==> NoneBelow(s.handles, s.agents, |s.agents|, s.handles[s.dispatcher.agent].active)
  }

  /** Fairness is about the outcome: counting the dispatch lifts the agent to at
      most one above the load of every agent that was eligible. */
  lemma FairIsLowLift(c: Config, s: State)
    requires WellFormed(s) && Capacity(c, s) && s.dispatcher.Chosen?
    ensures var lifted := CountedDispatch(s).handles[s.dispatcher.agent].active;
      Fair(s) <==> forall k | 0 <= k < |s.agents| && Eligible(c, s.handles[s.agents[k]]) ::
                     lifted <= s.handles[s.agents[k]].active + 1
  {
    CountersNeverWrap(c, s, CountDispatch);
    forall k | 0 <= k < |s.agents| && Usable(s.handles[s.agents[k]]) && !Eligible(c, s.handles[s.agents[k]])
      ensures s.handles[s.dispatcher.agent].active <= s.handles[s.agents[k]].active
    {
    }
  }

  /** What a scan in progress has read is still so. */
  ghost predicate UpToDate(c: Config, s: State)
    requires WellFormed(s)
  {
    match s.dispatcher
    case Scanning(next, None) => NoneBelow(s.handles, s.agents, next, c.maxConcurrent)
    case Scanning(next, Some(p)) =>
      s.handles[p.agent].active == p.load < c.maxConcurrent && NoneBelow(s.handles, s.agents, next, p.load)
    case _ => true
  }

  /** Any two usable loads are within one of each other. */
  ghost predicate Even(hs: seq<Handle>, agents: seq<nat>)
    requires Below(agents, |hs|)
  {
    forall j, k | 0 <= j < |agents| && 0 <= k < |agents| && Usable(hs[agents[j]]) && Usable(hs[agents[k]]) ::
      hs[agents[j]].active <= hs[agents[k]].active + 1
  }

  /** Cells change only so that what is usable was usable before, with the same load. */
  ghost predicate OnlyLoses(hs: seq<Handle>, hs': seq<Handle>) {
    && |hs'| == |hs|
    && forall a | 0 <= a < |hs| :: hs'[a].active == hs[a].active && (Usable(hs'[a]) ==> Usable(hs[a]))
  }

  lemma OthersOnlyLose(c: Config, s: State, e: Event)
    requires WellFormed(s) && Enabled(c, s, e) && !Lowers(e) && !e.CountDispatch?
    ensures OnlyLoses(s.handles, Apply(c, s, e).handles)
  {
    if !MovesHandles(e) {
      FrameCells(c, s, e);
    }
  }

  lemma OthersKeepAgents(c: Config, s: State, e: Event)
    requires WellFormed(s) && Enabled(c, s, e) && !e.AddAgent?
    ensures forall a :: a in Apply(c, s, e).agents ==> a in s.agents
    ensures s.dispatcher.Scanning? ==> Apply(c, s, e).agents == s.agents
  {
    if e.DrainRetain? {
      RetainedIsFilter(s.handles, s.drain.found, s.agents);
    } else if !MovesAgents(e) {
      Frame(c, s, e);
    }
  }

  lemma FewerNoneBelow(hs: seq<Handle>, hs': seq<Handle>, agents: seq<nat>, agents': seq<nat>, load: int)
    requires Below(agents, |hs|) && Below(agents', |hs'|) && OnlyLoses(hs, hs')
    requires forall a :: a in agents' ==> a in agents
    requires NoneBelow(hs, agents, |agents|, load)
    ensures NoneBelow(hs', agents', |agents'|, load)
  {
    forall k | 0 <= k < |agents'| && Usable(hs'[agents'[k]]) ensures load <= hs'[agents'[k]].active {
      assert agents'[k] in agents;
    }
  }

  lemma UpToDateScan(c: Config, s: State)
    requires WellFormed(s) && Enabled(c, s, ScanNext) && UpToDate(c, s)
    ensures WellFormed(ScannedNext(c, s)) && UpToDate(c, ScannedNext(c, s))
  {
    WellFormedDispatch(c, s);
    var next, best := s.dispatcher.next, s.dispatcher.best;
    var load := if best.Some? then best.value.load else c.maxConcurrent;
    var h := s.handles[s.agents[next]];
    assert NoneBelow(s.handles, s.agents, next + 1, if Usable(h) then Min(load, h.active) else load);
  }

  lemma UpToDateStep(c: Config, s: State, e: Event)
    requires WellFormed(s) && Enabled(c, s, e) && UpToDate(c, s) && !Lowers(e)
    ensures WellFormed(Apply(c, s, e)) && UpToDate(c, Apply(c, s, e))
  {
    WellFormedStep(c, s, e);
    if e.ScanNext? {
      UpToDateScan(c, s);
    } else if !MovesDispatcher(e) {
      Frame(c, s, e);
      OthersOnlyLose(c, s, e);
      OthersKeepAgents(c, s, e);
    }
  }

  lemma FairStep(c: Config, s: State, e: Event)
    requires WellFormed(s) && Enabled(c, s, e) && UpToDate(c, s) && Fair(s) && !Lowers(e)
    ensures WellFormed(Apply(c, s, e)) && Fair(Apply(c, s, e))
  {
    WellFormedStep(c, s, e);
    if !MovesDispatcher(e) && s.dispatcher.Chosen? {
      Frame(c, s, e);
      OthersOnlyLose(c, s, e);
      OthersKeepAgents(c, s, e);
      var load := s.handles[s.dispatcher.agent].active;
      FewerNoneBelow(s.handles, Apply(c, s, e).handles, s.agents, Apply(c, s, e).agents, load);
    }
  }

  lemma CountStaysEven(c: Config, s: State)
    requires WellFormed(s) && s.dispatcher.Chosen? && Fair(s) && Even(s.handles, s.agents)
    requires s.handles[s.dispatcher.agent].active < c.maxConcurrent
    ensures Even(CountedDispatch(s).handles, s.agents)
  {
    var a := s.dispatcher.agent;
    var hs' := CountedDispatch(s).handles;
    forall j, k | 0 <= j < |s.agents| && 0 <= k < |s.agents| && Usable(hs'[s.agents[j]]) && Usable(hs'[s.agents[k]])
      ensures hs'[s.agents[j]].active <= hs'[s.agents[k]].active + 1
    {
      assert Usable(s.handles[s.agents[j]]) && Usable(s.handles[s.agents[k]]);
      assert s.handles[a].active <= s.handles[s.agents[k]].active;
      assert s.handles[s.agents[j]].active <= s.handles[s.agents[k]].active + 1;
    }
  }

  lemma FewerEven(hs: seq<Handle>, hs': seq<Handle>, agents: seq<nat>, agents': seq<nat>)
    requires Below(agents, |hs|) && Below(agents', |hs'|) && OnlyLoses(hs, hs')
    requires forall a :: a in agents' ==> a in agents
    requires Even(hs, agents)
    ensures Even(hs', agents')
  {
    forall j, k | 0 <= j < |agents'| && 0 <= k < |agents'| && Usable(hs'[agents'[j]]) && Usable(hs'[agents'[k]])
      ensures hs'[agents'[j]].active <= hs'[agents'[k]].active + 1
    {
      assert agents'[j] in agents && agents'[k] in agents;
    }
  }

  lemma EvenStep(c: Config, s: State, e: Event)
    requires WellFormed(s) && Capacity(c, s) && Enabled(c, s, e) && Fair(s) && !Lowers(e) && Even(s.handles, s.agents)
    ensures WellFormed(Apply(c, s, e)) && Even(Apply(c, s, e).handles, Apply(c, s, e).agents)
  {
    WellFormedStep(c, s, e);
    if e.CountDispatch? {
      CountStaysEven(c, s);
    } else {
      OthersOnlyLose(c, s, e);
      OthersKeepAgents(c, s, e);
      FewerEven(s.handles, Apply(c, s, e).handles, s.agents, Apply(c, s, e).agents);
    }
  }

  /** No scan is under way that has read anything yet, and no dispatch is held. */
  predicate BetweenScans(s: State) {
    !s.dispatcher.Chosen? && (s.dispatcher.Scanning? ==> s.dispatcher == Scanning(0, None))
  }

  lemma {:induction false} BalancedRun(c: Config, s: State, es: seq<Event>)
    requires WellFormed(s) && Capacity(c, s) && UpToDate(c, s) && Fair(s) && Run(c, s, es).Some?
    requires forall i | 0 <= i < |es| :: !Lowers(es[i])
    ensures Fair(Run(c, s, es).value)
    ensures Even(s.handles, s.agents) ==> Even(Run(c, s, es).value.handles, Run(c, s, es).value.agents)
    decreases |es|
  {
    if es != [] {
      UpToDateStep(c, s, es[0]);
      FairStep(c, s, es[0]);
      if Even(s.handles, s.agents) {
        EvenStep(c, s, es[0]);
      }
      CapacityStep(c, s, es[0]);
      BalancedRun(c, Apply(c, s, es[0]), es[1..]);
    }
  }

  /** From any state, as long as nothing lowers a load: every dispatch goes to a
      least loaded agent, and even loads stay even, however many agents become
      unusable or leave on the way. */
  lemma DispatchBalances(c: Config, s: State, es: seq<Event>)
    requires WellFormed(s) && Capacity(c, s) && BetweenScans(s) && Run(c, s, es).Some?
    requires forall i | 0 <= i < |es| :: !Lowers(es[i])
    ensures Fair(Run(c, s, es).value)
    ensures Even(s.handles, s.agents) ==> Even(Run(c, s, es).value.handles, Run(c, s, es).value.agents)
  {
    BalancedRun(c, s, es);
  }

  // ----- First of the least loaded -----

  /** Events that neither finish a task nor change which agents may be used. */
  predicate Calm(e: Event) {
    !e.Release? && !e.StoreHealth? && !e.MarkDraining? && !MovesAgents(e)
  }

  /** `best` is the first least loaded of the eligible agents among the first `n`. */
  ghost predicate FirstLeast(c: Config, hs: seq<Handle>, agents: seq<nat>, n: nat, best: Option<Pick>)
    requires Below(agents, |hs|) && n <= |agents|
  {
    match best
    case None => NoneBelow(hs, agents, n, c.maxConcurrent)
    case Some(p) =>
      && (exists j | 0 <= j < n :: agents[j] == p.agent && NoneBelow(hs, agents, j, p.load + 1))
      && p.agent < |hs| && Usable(hs[p.agent]) && hs[p.agent].active == p.load < c.maxConcurrent
      && NoneBelow(hs, agents, n, p.load)
  }

  ghost predicate PicksFirstLeast(c: Config, s: State)
    requires WellFormed(s)
  {
    match s.dispatcher
    case Scanning(next, best) => FirstLeast(c, s.handles, s.agents, next, best)
    case Chosen(a, _) => FirstLeast(c, s.handles, s.agents, |s.agents|, Some(Pick(a, s.handles[a].active)))
    case _ => true
  }

  lemma BetterIsFirstLeast(c: Config, hs: seq<Handle>, agents: seq<nat>, n: nat, best: Option<Pick>)
    requires Below(agents, |hs|) && n < |agents| && FirstLeast(c, hs, agents, n, best)
    ensures FirstLeast(c, hs, agents, n + 1, Better(c, hs[agents[n]], agents[n], best))
  {
    var best' := Better(c, hs[agents[n]], agents[n], best);
    if best' == best && best.Some? {
      var j :| 0 <= j < n && agents[j] == best.value.agent && NoneBelow(hs, agents, j, best.value.load + 1);
      assert agents[j] == best'.value.agent && NoneBelow(hs, agents, j, best'.value.load + 1);
    } else if best'.Some? {
      assert agents[n] == best'.value.agent && NoneBelow(hs, agents, n, best'.value.load + 1);
    }
  }

  lemma FirstLeastStep(c: Config, s: State, e: Event)
    requires WellFormed(s) && Enabled(c, s, e) && PicksFirstLeast(c, s) && Calm(e)
    ensures WellFormed(Apply(c, s, e)) && PicksFirstLeast(c, Apply(c, s, e))
  {
    WellFormedStep(c, s, e);
    Frame(c, s, e);
    if e.ScanNext? {
      BetterIsFirstLeast(c, s.handles, s.agents, s.dispatcher.next, s.dispatcher.best);
    } else if !e.CountDispatch? {
      FrameCells(c, s, e);
    }
  }

  lemma {:induction false} FirstLeastRun(c: Config, s: State, es: seq<Event>)
    requires WellFormed(s) && PicksFirstLeast(c, s) && Run(c, s, es).Some?
    requires forall i | 0 <= i < |es| :: Calm(es[i])
    ensures PicksFirstLeast(c, Run(c, s, es).value)
    decreases |es|
  {
    if es != [] {
      FirstLeastStep(c, s, es[0]);
      FirstLeastRun(c, Apply(c, s, es[0]), es[1..]);
    }
  }

  /** A scan during which no task finishes and no flag or membership changes
      picks the first least loaded agent with room, from any state of the pool,
      or finds that no usable agent has room. */
  lemma ScanPicksFirstLeast(c: Config, s: State, es: seq<Event>)
    requires WellFormed(s) && BetweenScans(s) && Run(c, s, es).Some?
    requires forall i | 0 <= i < |es| :: Calm(es[i])
    ensures var s' := Run(c, s, es).value;
      && (s'.dispatcher.Chosen? ==>
            var a := s'.dispatcher.agent;
            FirstLeast(c, s'.handles, s'.agents, |s'.agents|, Some(Pick(a, s'.handles[a].active))))
      && (s'.dispatcher.Scanning? ==> FirstLeast(c, s'.handles, s'.agents, s'.dispatcher.next, s'.dispatcher.best))
  {
    FirstLeastRun(c, s, es);
  }
}
