/** Every event keeps the state well formed; runs of the pool. */
module PoolRuns {
  import opened Common
  import opened PoolModel

  lemma RetainedIsFilter(hs: seq<Handle>, found: seq<Candidate>, agents: seq<nat>)
    requires Below(agents, |hs|) && Known(found, |hs|)
    ensures forall a :: a in Retained(hs, found, agents) <==> a in agents && a < |hs| && !NamedBy(hs, found, a)
    ensures Below(Retained(hs, found, agents), |hs|)
  {
    if agents != [] {
      RetainedIsFilter(hs, found, agents[1..]);
      assert agents == [agents[0]] + agents[1..];
    }
  }

  lemma {:induction false} RetainedKeepsDistinctIds(hs: seq<Handle>, found: seq<Candidate>, agents: seq<nat>)
    requires Below(agents, |hs|) && Known(found, |hs|) && DistinctIds(hs, agents)
    ensures Below(Retained(hs, found, agents), |hs|)
    ensures DistinctIds(hs, Retained(hs, found, agents))
  {
    if agents != [] {
      RetainedIsFilter(hs, found, agents);
      RetainedKeepsDistinctIds(hs, found, agents[1..]);
      RetainedIsFilter(hs, found, agents[1..]);
      var rest := Retained(hs, found, agents[1..]);
      forall k | 0 <= k < |rest| ensures hs[agents[0]].id != hs[rest[k]].id {
        assert rest[k] in agents[1..];
        var m :| 0 <= m < |agents[1..]| && agents[1..][m] == rest[k];
        assert agents[m + 1] == rest[k];
      }
    }
  }

  lemma WellFormedAdd(s: State, id: string)
    requires WellFormed(s) && Unlocked(s)
    ensures WellFormed(AddedAgent(s, id))
  {
    var s' := AddedAgent(s, id);
    assert RunnersKnown(s'.runners, |s'.handles|);
    assert DrainKnown(s'.drain, |s'.handles|);
    assert Below(s'.agents, |s'.handles|);
    assert DistinctIds(s'.handles, s'.agents);
  }

  lemma WellFormedRemove(s: State, id: string)
    requires WellFormed(s) && Unlocked(s)
    ensures WellFormed(RemovedAgent(s, id))
  {
    var agents' := RemovedAgent(s, id).agents;
    assert Below(agents', |s.handles|);
    assert DistinctIds(s.handles, agents');
  }

  lemma SameIdsStayDistinct(hs: seq<Handle>, hs': seq<Handle>, agents: seq<nat>)
    requires Below(agents, |hs|) && DistinctIds(hs, agents)
    requires |hs| == |hs'| && forall a | 0 <= a < |hs| :: hs'[a].id == hs[a].id
    ensures DistinctIds(hs', agents)
  {
  }

  lemma WellFormedFlags(s: State, id: string, a: nat, healthy: bool)
    requires WellFormed(s)
    ensures WellFormed(MarkedDraining(s, id))
    ensures a < |s.handles| ==> WellFormed(StoredHealth(s, a, healthy))
  {
    SameIdsStayDistinct(s.handles, MarkedDraining(s, id).handles, s.agents);
    if a < |s.handles| {
      SameIdsStayDistinct(s.handles, StoredHealth(s, a, healthy).handles, s.agents);
    }
  }

  lemma WellFormedRunner(c: Config, s: State, i: nat, ok: bool)
    requires WellFormed(s) && i < |s.runners|
    ensures s.runners[i].Executing? ==> WellFormed(ReleasedRunner(s, i, ok))
    ensures s.runners[i].Released? ==> WellFormed(NotifiedIdle(s, i))
    ensures s.runners[i].Released? && (Requeues(c, s.runners[i]) ==> Unlocked(s)) ==> WellFormed(SettledRunner(c, s, i))
  {
    if s.runners[i].Executing? {
      SameIdsStayDistinct(s.handles, ReleasedRunner(s, i, ok).handles, s.agents);
    }
  }

  lemma WellFormedDrainRead(s: State)
    requires WellFormed(s) && s.drain.DrainScan? && s.drain.todo != []
    ensures !s.drain.healthRead ==> WellFormed(DrainReadHealthOf(s))
    ensures s.drain.healthRead ==> WellFormed(DrainReadLoadOf(s))
  {
    assert Below(s.drain.todo[1..], |s.handles|);
  }

  lemma WellFormedRetain(s: State)
    requires WellFormed(s) && s.drain.DrainScan? && Unlocked(s)
    ensures WellFormed(s.(agents := Retained(s.handles, s.drain.found, s.agents), drain := DrainIdle))
  {
    RetainedKeepsDistinctIds(s.handles, s.drain.found, s.agents);
  }

  lemma WellFormedDispatch(c: Config, s: State)
    requires WellFormed(s)
    ensures s.dispatcher.Scanning? && s.dispatcher.next < |s.agents| ==> WellFormed(ScannedNext(c, s))
    ensures s.dispatcher.Scanning? ==> WellFormed(ScanEnded(s))
    ensures s.dispatcher.Chosen? ==> WellFormed(CountedDispatch(s))
  {
    if s.dispatcher.Chosen? {
      SameIdsStayDistinct(s.handles, CountedDispatch(s).handles, s.agents);
    }
  }

  lemma WellFormedStep(c: Config, s: State, e: Event)
    requires WellFormed(s) && Enabled(c, s, e)
    ensures WellFormed(Apply(c, s, e))
  {
    match e
    case AddAgent(id) => WellFormedAdd(s, id);
    case RemoveAgent(id) => WellFormedRemove(s, id);
    case MarkDraining(id) => WellFormedFlags(s, id, 0, true);
    case StoreHealth(a, healthy) => WellFormedFlags(s, "", a, healthy);
    case DrainRetain => WellFormedRetain(s);
    case DrainReadHealth => WellFormedDrainRead(s);
    case DrainReadLoad => WellFormedDrainRead(s);
    case ScanNext => WellFormedDispatch(c, s);
    case ScanEnd => WellFormedDispatch(c, s);
    case CountDispatch => WellFormedDispatch(c, s);
    case Release(i, ok) => WellFormedRunner(c, s, i, ok);
    case NotifyIdle(i) => WellFormedRunner(c, s, i, true);
    case Settle(i) => WellFormedRunner(c, s, i, true);
    case _ =>
  }

  predicate MovesRunner(e: Event) { e.CountDispatch? || e.Release? || e.NotifyIdle? || e.Settle? }

  predicate MovesDispatcher(e: Event) {
    e.CheckQueue? || e.RecvSignal? || e.ScanNext? || e.ScanEnd? || e.WakeByPermit? || e.WakeBySignal?
    || e.CountDispatch?
  }

  predicate MovesQueue(e: Event) { e.Enqueue? || e.RejectQueued? || e.ScanEnd? || e.Settle? }

  predicate MovesAgents(e: Event) { e.AddAgent? || e.RemoveAgent? || e.ClearAgents? || e.DrainRetain? }

  /** What `hs'` keeps of `hs`: handles are never dropped, ids never change,
      and an agent that is draining stays so. */
  ghost predicate Evolves(hs: seq<Handle>, hs': seq<Handle>) {
    && |hs| <= |hs'|
    && forall a | 0 <= a < |hs| :: hs'[a].id == hs[a].id && (hs[a].draining ==> hs'[a].draining)
  }

  /** What an event leaves alone. */
  lemma Frame(c: Config, s: State, e: Event)
    requires WellFormed(s) && Enabled(c, s, e)
    ensures var s' := Apply(c, s, e);
      && (!MovesRunner(e) ==> s'.runners == s.runners)
      && (!MovesDispatcher(e) ==> s'.dispatcher == s.dispatcher)
      && (!MovesQueue(e) ==> s'.queue == s.queue)
      && (!MovesAgents(e) ==> s'.agents == s.agents)
      && (!MovesQueue(e) && !MovesRunner(e) ==> s'.log == s.log)
      && Evolves(s.handles, s'.handles)
  {
    FrameEvolves(c, s, e);
  }

  predicate MovesHandles(e: Event) {
    e.AddAgent? || e.MarkDraining? || e.StoreHealth? || e.CountDispatch? || e.Release?
  }

  lemma FrameCells(c: Config, s: State, e: Event)
    requires WellFormed(s) && Enabled(c, s, e) && !MovesHandles(e)
    ensures Apply(c, s, e).handles == s.handles
  {
  }

  lemma FrameEvolves(c: Config, s: State, e: Event)
    requires WellFormed(s) && Enabled(c, s, e)
    ensures Evolves(s.handles, Apply(c, s, e).handles)
  {
    if !MovesHandles(e) {
      FrameCells(c, s, e);
    }
  }

  lemma FrameHandles(c: Config, s: State, e: Event)
    requires WellFormed(s) && Enabled(c, s, e)
    ensures var hs := s.handles; var hs' := Apply(c, s, e).handles;
      && |hs| <= |hs'|
      && (!e.AddAgent? ==> |hs'| == |hs|)
      && (forall a | |hs| <= a < |hs'| :: hs'[a].active == 0)
      && (!e.CountDispatch? && !e.Release? ==> forall a | 0 <= a < |hs| :: hs'[a].active == hs[a].active)
      && (!e.StoreHealth? ==> forall a | 0 <= a < |hs| :: hs'[a].healthy == hs[a].healthy)
      && (!e.MarkDraining? ==> forall a | 0 <= a < |hs| :: hs'[a].draining == hs[a].draining)
  {
    if !MovesHandles(e) {
      FrameCells(c, s, e);
    }
  }

  /** The state after the events `es`, if every one of them was enabled in turn. */
  ghost function Run(c: Config, s: State, es: seq<Event>): (r: Option<State>)
    requires WellFormed(s)
    ensures r.Some? ==> WellFormed(r.value)
    decreases |es|
  {
    if es == [] then Some(s)
    else if !Enabled(c, s, es[0]) then None
    else
      WellFormedStep(c, s, es[0]);
      Run(c, Apply(c, s, es[0]), es[1..])
  }

  lemma RunStep(c: Config, s: State, e: Event, es: seq<Event>)
    requires WellFormed(s) && Enabled(c, s, e)
    ensures WellFormed(Apply(c, s, e))
    ensures Run(c, s, [e] + es) == Run(c, Apply(c, s, e), es)
  {
    WellFormedStep(c, s, e);
    assert ([e] + es)[1..] == es;
  }

  /** `es` is a run of the pool from its creation that ends in `s`. */
  ghost predicate Reaches(c: Config, es: seq<Event>, s: State) {
    Run(c, Init(), es) == Some(s)
  }

  lemma {:induction false} RunSnoc(c: Config, s: State, es: seq<Event>, m: State, e: Event)
    requires WellFormed(s) && Run(c, s, es) == Some(m)
    requires WellFormed(m) && Enabled(c, m, e)
    ensures Run(c, s, es + [e]) == Some(Apply(c, m, e))
    decreases |es|
  {
    if es == [] {
      RunStep(c, s, e, []);
      assert [] + [e] == [e] + [];
    } else {
      WellFormedStep(c, s, es[0]);
      RunSnoc(c, Apply(c, s, es[0]), es[1..], m, e);
      assert es + [e] == [es[0]] + (es[1..] + [e]);
      RunStep(c, s, es[0], es[1..] + [e]);
    }
  }

  /** Extends a run by one enabled event. */
  lemma Extend(c: Config, es: seq<Event>, s: State, e: Event) returns (es': seq<Event>, s': State)
    requires Reaches(c, es, s) && WellFormed(s) && Enabled(c, s, e)
    ensures es' == es + [e] && s' == Apply(c, s, e)
    ensures WellFormed(s') && Reaches(c, es', s')
  {
    es', s' := es + [e], Apply(c, s, e);
    RunSnoc(c, Init(), es, s, e);
    WellFormedStep(c, s, e);
  }
}
