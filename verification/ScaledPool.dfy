/** The autoscaler together with the pool it scales: agents are created
    asynchronously and leave at any time. */
module ScaledPool {
  import opened Common
  import opened PoolMeasure
  import opened ScalerDecisions
  import opened AutoScalerLoop

  /** `draining` agents are marked and still in the list; `pending` is a decision not yet carried out. */
  datatype World = World(
    agents: nat,
    draining: nat,
    creating: nat,
    pending: Action,
    control: Control)

  datatype Event =
    | Observe(now: int, queueSize: nat, activeTasks: nat, healthy: nat, unhealthy: nat, candidate: bool)
    | SpawnCreations
    | MarkAgent(found: bool)       // false: the agent had left the pool before it could be marked
    | CreationLands
    | CreationFails
    | MarkedAgentLeaves
    | OtherAgentLeaves

  function Seen(w: World, e: Event): Observation
    requires e.Observe?
  {
    var metrics := PoolMetrics(e.queueSize, w.agents, e.healthy, e.activeTasks, w.draining, e.unhealthy);
    Observation(metrics, e.now, e.candidate)
  }

  predicate Enabled(w: World, e: Event) {
    match e
    case Observe(_, _, _, _, _, _) => w.pending.Stay?
    case SpawnCreations => w.pending.Create?
    case MarkAgent(found) => w.pending.MarkOne? && (found ==> w.draining < w.agents)
    case CreationLands => w.creating > 0
    case CreationFails => w.creating > 0
    case MarkedAgentLeaves => 0 < w.draining <= w.agents
    case OtherAgentLeaves => w.draining < w.agents
  }

  function Apply(c: ScalerConfig, w: World, e: Event): World
    requires Enabled(w, e)
  {
    match e
    case Observe(_, _, _, _, _, _) =>
      w.(pending := Decide(c, w.control, Seen(w, e)), control := Ticked(c, w.control, Seen(w, e)))
    case SpawnCreations => w.(creating := w.creating + w.pending.count, pending := Stay)
    case MarkAgent(found) => w.(draining := if found then w.draining + 1 else w.draining, pending := Stay)
    case CreationLands => w.(agents := w.agents + 1, creating := w.creating - 1)
    case CreationFails => w.(creating := w.creating - 1)
    case MarkedAgentLeaves => w.(agents := w.agents - 1, draining := w.draining - 1)
    case OtherAgentLeaves => w.(agents := w.agents - 1)
  }

  /** `es` can be carried out from `w`; at most `creating` creations are in
      flight at each observation, at most `draining` marked agents are left at
      each one that marks, and unmarked agents leave only if `others`. */
  ghost predicate Possible(c: ScalerConfig, w: World, es: seq<Event>, creating: nat, draining: nat, others: bool)
    decreases |es|
  {
    es == [] ||
    (&& Enabled(w, es[0])
     && (es[0].Observe? ==> w.creating <= creating)
     && (es[0].Observe? && Decide(c, w.control, Seen(w, es[0])).MarkOne? ==> w.draining <= draining)
     && (es[0].OtherAgentLeaves? ==> others)
     && Possible(c, Apply(c, w, es[0]), es[1..], creating, draining, others))
  }

  function End(c: ScalerConfig, w: World, es: seq<Event>): World
    decreases |es|
  {
    if es == [] || !Enabled(w, es[0]) then w else End(c, Apply(c, w, es[0]), es[1..])
  }

  function Planned(w: World): nat { if w.pending.Create? then w.pending.count else 0 }

  /** Agents there are, on their way or ordered. */
  function Total(w: World): nat { w.agents + w.creating + Planned(w) }

  /** What the events do to the agents there are, those that will stay, and all
      together with those on their way. */
  lemma EventMeans(c: ScalerConfig, w: World, e: Event)
    requires Enabled(w, e)
    ensures var w' := Apply(c, w, e);
      match e
      case Observe(_, _, _, _, _, _) =>
        && w'.agents == w.agents && w'.draining == w.draining && w'.creating == w.creating
        && w'.pending == Decide(c, w.control, Seen(w, e)) && w'.control == Ticked(c, w.control, Seen(w, e))
        && Seen(w, e).metrics.agentCount == w.agents && Seen(w, e).metrics.drainingAgentCount == w.draining
      case SpawnCreations =>
        Total(w') == Total(w) && w'.agents == w.agents && w'.pending == Stay
      case MarkAgent(found) =>
        Remaining(w') == Remaining(w) + (if found then 0 else 1) && w'.agents == w.agents && w'.pending == Stay
      case CreationLands => w'.agents == w.agents + 1 && Total(w') == Total(w) && Remaining(w') == Remaining(w) + 1
      case CreationFails => w'.agents == w.agents && Total(w') == Total(w) - 1
      case MarkedAgentLeaves =>
        w'.agents == w.agents - 1 && Total(w') == Total(w) - 1 && Remaining(w') == Remaining(w)
      case OtherAgentLeaves =>
        w'.agents == w.agents - 1 && Total(w') == Total(w) - 1 && Remaining(w') == Remaining(w) - 1
  {
  }

  lemma CreateStaysBelowMax(c: ScalerConfig, k: Control, o: Observation)
    ensures Decide(c, k, o).Create? ==> o.metrics.agentCount + Decide(c, k, o).count <= c.maxAgents
  {
  }

  /** If no more than `p` creations are in flight whenever the scaler looks,
      agents and creations together never exceed `max_agents + p`. */
  lemma {:induction false} OvershootBounded(c: ScalerConfig, w: World, es: seq<Event>, p: nat, d: nat, others: bool)
    requires Possible(c, w, es, p, d, others)
    requires Total(w) <= c.maxAgents + p
    ensures Total(End(c, w, es)) <= c.maxAgents + p
    decreases |es|
  {
    if es != [] {
      if es[0].Observe? {
        CreateStaysBelowMax(c, w.control, Seen(w, es[0]));
      }
      OvershootBounded(c, Apply(c, w, es[0]), es[1..], p, d, others);
    }
  }

  /** Agents that stay once every mark made or decided on has taken effect. */
  function Remaining(w: World): int { w.agents - w.draining - if w.pending.MarkOne? then 1 else 0 }

  /** If at most `d` marked agents are still there whenever one more is marked,
      and only marked agents leave, no fewer than `min_agents - d` remain. */
  lemma {:induction false} UndershootBounded(c: ScalerConfig, w: World, es: seq<Event>, p: nat, d: nat)
    requires Possible(c, w, es, p, d, false)
    requires Remaining(w) >= c.minAgents - d
    ensures Remaining(End(c, w, es)) >= c.minAgents - d
    ensures End(c, w, es).agents >= c.minAgents - d
    decreases |es|
  {
    if es != [] {
      UndershootBounded(c, Apply(c, w, es[0]), es[1..], p, d);
    }
  }

  // ----- Runs, put together -----

  lemma FirstStep(c: ScalerConfig, w: World, e: Event, es: seq<Event>, p: nat, d: nat, others: bool)
    requires Enabled(w, e) && (e.OtherAgentLeaves? ==> others)
    requires e.Observe? ==> w.creating <= p && (Decide(c, w.control, Seen(w, e)).MarkOne? ==> w.draining <= d)
    requires Possible(c, Apply(c, w, e), es, p, d, others)
    ensures Possible(c, w, [e] + es, p, d, others)
    ensures End(c, w, [e] + es) == End(c, Apply(c, w, e), es)
  {
    assert ([e] + es)[1..] == es;
  }

  lemma {:induction false} Then(c: ScalerConfig, w: World, es: seq<Event>, es': seq<Event>,
                                p: nat, d: nat, others: bool)
    requires Possible(c, w, es, p, d, others) && Possible(c, End(c, w, es), es', p, d, others)
    ensures Possible(c, w, es + es', p, d, others)
    ensures End(c, w, es + es') == End(c, End(c, w, es), es')
    decreases |es|
  {
    if es == [] {
      assert es + es' == es';
    } else {
      Then(c, Apply(c, w, es[0]), es[1..], es', p, d, others);
      FirstStep(c, w, es[0], es[1..] + es', p, d, others);
      assert es + es' == [es[0]] + (es[1..] + es');
    }
  }

  /** When the next observation may be made after `e`: one tick later. */
  function NextDue(c: ScalerConfig, e: Event, due: int): int {
    if e.Observe? then e.now + Nanos(c.checkIntervalSecs) else due
  }

  function Due(c: ScalerConfig, es: seq<Event>, due: int): int {
    if es == [] then due else Due(c, es[1..], NextDue(c, es[0], due))
  }

  /** The observations of `es` are made one tick of the loop apart or more, the
      first not before `due`. */
  predicate Ticking(c: ScalerConfig, es: seq<Event>, due: int) {
    es == [] || ((es[0].Observe? ==> due <= es[0].now) && Ticking(c, es[1..], NextDue(c, es[0], due)))
  }

  lemma FirstTick(c: ScalerConfig, e: Event, es: seq<Event>, due: int)
    requires (e.Observe? ==> due <= e.now) && Ticking(c, es, NextDue(c, e, due))
    ensures Ticking(c, [e] + es, due) && Due(c, [e] + es, due) == Due(c, es, NextDue(c, e, due))
  {
    assert ([e] + es)[1..] == es;
  }

  lemma {:induction false} LaterIsTicking(c: ScalerConfig, es: seq<Event>, due: int, due': int)
    requires Ticking(c, es, due) && due' <= due
    ensures Ticking(c, es, due')
  {
    if es != [] {
      LaterIsTicking(c, es[1..], NextDue(c, es[0], due), NextDue(c, es[0], due'));
    }
  }

  lemma {:induction false} ThenTicking(c: ScalerConfig, es: seq<Event>, es': seq<Event>, due: int)
    requires Ticking(c, es, due) && Ticking(c, es', Due(c, es, due))
    ensures Ticking(c, es + es', due)
  {
    if es == [] {
      assert es + es' == es';
    } else {
      ThenTicking(c, es[1..], es', NextDue(c, es[0], due));
      assert es + es' == [es[0]] + (es[1..] + es');
      FirstTick(c, es[0], es[1..] + es', due);
    }
  }

  /** A time by which a cooldown that starts at `now` is over and the next tick is due. */
  function Rested(c: ScalerConfig, now: int, cooldown: nat): int {
    now + Nanos(Max(c.checkIntervalSecs, cooldown))
  }

  function Look(now: int, queueSize: nat): Event { Observe(now, queueSize, 0, 0, 0, true) }

  lemma CooldownOver(now: int, last: int, cooldown: nat)
    requires last + Nanos(cooldown) <= now
    ensures SecondsSince(now, last) >= cooldown
  {
  }

  lemma RestedIsOver(c: ScalerConfig, now: int, cooldown: nat)
    ensures now + Nanos(c.checkIntervalSecs) <= Rested(c, now, cooldown)
    ensures now + Nanos(cooldown) <= Rested(c, now, cooldown)
  {
  }

  // ----- Above the maximum -----

  /** The configuration lets the scaler create agents at all. */
  predicate CanCreate(c: ScalerConfig) {
    c.maxConcurrentPerAgent > 0 && c.maxAgents > 0 && c.maxScaleUpBatch > 0
  }

  lemma FullQueueWantsOne(c: ScalerConfig, m: PoolMetrics, velocity: real)
    requires CanCreate(c) && m.agentCount == c.maxAgents - 1
    requires m.queueSize == c.maxAgents * c.maxConcurrentPerAgent
    ensures ScaleUpDecision(m, velocity, c) == 1
  {
    DivCeilCovers(Demand(m, velocity, c), c.maxConcurrentPerAgent);
  }

  /** A look at the full queue, with one agent missing, orders one. */
  lemma OrderOne(c: ScalerConfig, w: World, now: int)
    requires CanCreate(c) && w.agents == c.maxAgents - 1
    requires w.control.lastScaleUp + Nanos(c.scaleUpCooldownSecs) <= now
    ensures Decide(c, w.control, Seen(w, Look(now, c.maxAgents * c.maxConcurrentPerAgent))) == Create(1)
  {
    var o := Seen(w, Look(now, c.maxAgents * c.maxConcurrentPerAgent));
    CooldownOver(now, w.control.lastScaleUp, c.scaleUpCooldownSecs);
    FullQueueWantsOne(c, o.metrics, PerSecond(TickVelocity(c, w.control, o), c.checkIntervalSecs));
  }

  /** With one agent missing and a full queue, each look a cooldown after the
      last one orders one more agent, however many are already on their way. */
  lemma {:induction false} OrderAgain(c: ScalerConfig, w: World, k: nat, p: nat, d: nat,
                                      due: int) returns (es: seq<Event>)
    requires CanCreate(c) && w.pending.Stay? && w.agents == c.maxAgents - 1
    requires w.creating + k <= p + 1 && w.control.lastScaleUp + Nanos(c.scaleUpCooldownSecs) <= due
    ensures Possible(c, w, es, p, d, false) && Ticking(c, es, due)
    ensures var w' := End(c, w, es);
            w'.agents == w.agents && w'.creating == w.creating + k && w'.pending.Stay?
    decreases k
  {
    es := [];
    if k > 0 {
      var look := Look(due, c.maxAgents * c.maxConcurrentPerAgent);
      OrderOne(c, w, due);
      var w1 := Apply(c, w, look);
      var w2 := Apply(c, w1, SpawnCreations);
      var next := Rested(c, due, c.scaleUpCooldownSecs);
      RestedIsOver(c, due, c.scaleUpCooldownSecs);
      es := OrderAgain(c, w2, k - 1, p, d, next);
      FirstStep(c, w1, SpawnCreations, es, p, d, false);
      FirstStep(c, w, look, [SpawnCreations] + es, p, d, false);
      LaterIsTicking(c, es, next, NextDue(c, look, due));
      FirstTick(c, SpawnCreations, es, NextDue(c, look, due));
      FirstTick(c, look, [SpawnCreations] + es, due);
      es := [look] + ([SpawnCreations] + es);
    }
  }

  /** The bound is tight: whatever `p` is, a freshly started scaler one agent
      short of the maximum can order `p + 1` more of them, ticking as it does. */
  lemma OvershootReached(c: ScalerConfig, p: nat, d: nat) returns (es: seq<Event>)
    requires CanCreate(c)
    ensures var w := World(c.maxAgents - 1, 0, 0, Stay, Started(c, 0));
            && Possible(c, w, es, p, d, false) && Ticking(c, es, 0)
            && Total(End(c, w, es)) == c.maxAgents + p
  {
    es := OrderAgain(c, World(c.maxAgents - 1, 0, 0, Stay, Started(c, 0)), p + 1, p, d, 0);
  }

  lemma {:induction false} NothingCreated(c: ScalerConfig, w: World, es: seq<Event>, p: nat, d: nat, others: bool)
    requires !CanCreate(c) && Possible(c, w, es, p, d, others)
    ensures Total(End(c, w, es)) <= Total(w)
    decreases |es|
  {
    if es != [] {
      NothingCreated(c, Apply(c, w, es[0]), es[1..], p, d, others);
    }
  }

  ghost predicate StaysWithinMax(c: ScalerConfig, w: World, es: seq<Event>, p: nat, d: nat, others: bool,
                                 ticking: bool)
  {
    Possible(c, w, es, p, d, others) && (ticking ==> Ticking(c, es, 0)) && Total(w) <= c.maxAgents ==>
      Total(End(c, w, es)) <= c.maxAgents
  }

  /** Agents and creations stay within `max_agents` in every run if and only if
      no creation is in flight when the scaler looks, or it never creates any;
      and so it is with the runs that keep to the ticker. */
  lemma NeverAboveMaxIff(c: ScalerConfig, p: nat, d: nat, ticking: bool)
    ensures (forall w, es, others :: StaysWithinMax(c, w, es, p, d, others, ticking)) <==> p == 0 || !CanCreate(c)
  {
    if p == 0 || !CanCreate(c) {
      forall w, es, others | Possible(c, w, es, p, d, others) && Total(w) <= c.maxAgents
        ensures StaysWithinMax(c, w, es, p, d, others, ticking)
      {
        if p == 0 {
          OvershootBounded(c, w, es, p, d, others);
        } else {
          NothingCreated(c, w, es, p, d, others);
        }
      }
    } else {
      var es := OvershootReached(c, p, d);
      assert !StaysWithinMax(c, World(c.maxAgents - 1, 0, 0, Stay, Started(c, 0)), es, p, d, false, ticking);
    }
  }

  // ----- Below the minimum -----

  /** An idle pool above the minimum, with nothing left of the queue's past. */
  predicate IdleAbove(c: ScalerConfig, w: World) {
    w.pending.Stay? && w.agents > c.minAgents && w.control.velocity == 0.0 && w.control.prevQueueSize == 0
  }

  lemma IdleLook(c: ScalerConfig, w: World, now: int)
    requires IdleAbove(c, w) && c.scaleDownUtilization > 0.0
    ensures var o := Seen(w, Look(now, 0));
      && Wanted(c, w.control, o) == 0 && Low(o.metrics, c) && Ticked(c, w.control, o).velocity == 0.0
  {
    var o := Seen(w, Look(now, 0));
    assert c.emaAlpha * 0.0 == 0.0 && (1.0 - c.emaAlpha) * 0.0 == 0.0;
    assert TickVelocity(c, w.control, o) == 0.0;
    assert PerSecond(0.0, c.checkIntervalSecs) == 0.0;
    assert Demand(o.metrics, 0.0, c) == 0;
  }

  /** Looks one tick apart, as many as the confirmation still needs, and then a mark. */
  lemma {:induction false} MarkOnce(c: ScalerConfig, w: World, p: nat, d: nat, due: int) returns (es: seq<Event>)
    requires IdleAbove(c, w) && c.scaleDownUtilization > 0.0
    requires w.control.lastScaleDown + Nanos(c.scaleDownCooldownSecs) <= due
    requires w.creating <= p && w.draining <= d && w.draining < w.agents
    ensures Possible(c, w, es, p, d, false) && Ticking(c, es, due)
    ensures var w' := End(c, w, es);
      && IdleAbove(c, w') && w'.agents == w.agents && w'.creating == w.creating
      && w'.draining == w.draining + 1
      && Due(c, es, due) == w'.control.lastScaleDown + Nanos(c.checkIntervalSecs)
    decreases c.scaleDownConfirmTicks - w.control.confirm
  {
    var look := Look(due, 0);
    var w1 := Apply(c, w, look);
    IdleLook(c, w, due);
    CooldownOver(due, w.control.lastScaleDown, c.scaleDownCooldownSecs);
    if w.control.confirm + 1 >= c.scaleDownConfirmTicks {
      FirstStep(c, w1, MarkAgent(true), [], p, d, false);
      FirstTick(c, MarkAgent(true), [], NextDue(c, look, due));
      es := [MarkAgent(true)] + [];
    } else {
      es := MarkOnce(c, w1, p, d, NextDue(c, look, due));
    }
    FirstStep(c, w, look, es, p, d, false);
    FirstTick(c, look, es, due);
    es := [look] + es;
  }

  lemma {:induction false} MarkAgain(c: ScalerConfig, w: World, k: nat, p: nat, d: nat,
                                     due: int) returns (es: seq<Event>)
    requires IdleAbove(c, w) && c.scaleDownUtilization > 0.0 && w.creating <= p
    requires w.control.lastScaleDown + Nanos(c.scaleDownCooldownSecs) <= due
    requires w.draining + k <= d + 1 && w.draining + k <= w.agents
    ensures Possible(c, w, es, p, d, false) && Ticking(c, es, due)
    ensures var w' := End(c, w, es);
            w'.agents == w.agents && w'.draining == w.draining + k && w'.creating == w.creating
    decreases k
  {
    es := [];
    if k > 0 {
      es := MarkOnce(c, w, p, d, due);
      var w1 := End(c, w, es);
      var next := Rested(c, w1.control.lastScaleDown, c.scaleDownCooldownSecs);
      RestedIsOver(c, w1.control.lastScaleDown, c.scaleDownCooldownSecs);
      var rest := MarkAgain(c, w1, k - 1, p, d, next);
      LaterIsTicking(c, rest, next, Due(c, es, due));
      ThenTicking(c, es, rest, due);
      Then(c, w, es, rest, p, d, false);
      es := es + rest;
    }
  }

  lemma {:induction false} MarkedLeave(c: ScalerConfig, w: World, k: nat, p: nat, d: nat,
                                       due: int) returns (es: seq<Event>)
    requires k <= w.draining <= w.agents
    ensures Possible(c, w, es, p, d, false) && Ticking(c, es, due)
    ensures End(c, w, es) == w.(agents := w.agents - k, draining := w.draining - k)
    decreases k
  {
    es := [];
    if k > 0 {
      es := MarkedLeave(c, Apply(c, w, MarkedAgentLeaves), k - 1, p, d, due);
      FirstStep(c, w, MarkedAgentLeaves, es, p, d, false);
      FirstTick(c, MarkedAgentLeaves, es, due);
      es := [MarkedAgentLeaves] + es;
    }
  }

  /** This bound is tight as well: draining agents are still counted, so `d + 1`
      of one agent more than the minimum can be marked before any has left, by a
      scaler that ticks and waits for every confirmation. */
  lemma UndershootReached(c: ScalerConfig, p: nat, d: nat, k: nat) returns (es: seq<Event>)
    requires c.scaleDownUtilization > 0.0 && k <= d && k <= c.minAgents
    ensures var w := World(c.minAgents + 1, 0, 0, Stay, Started(c, 0));
            && Possible(c, w, es, p, d, false) && Ticking(c, es, 0)
            && End(c, w, es).agents == c.minAgents - k
  {
    var w := World(c.minAgents + 1, 0, 0, Stay, Started(c, 0));
    es := MarkAgain(c, w, k + 1, p, d, 0);
    var w1 := End(c, w, es);
    var rest := MarkedLeave(c, w1, k + 1, p, d, Due(c, es, 0));
    ThenTicking(c, es, rest, 0);
    Then(c, w, es, rest, p, d, false);
    es := es + rest;
  }

  lemma NeverLow(m: PoolMetrics, c: ScalerConfig)
    requires c.scaleDownUtilization <= 0.0
    ensures !Low(m, c)
  {
    var capacity := Max(SaturatingSub(m.agentCount, m.drainingAgentCount), 1) as real * c.maxConcurrentPerAgent as real;
    assert capacity > 0.0 ==> m.activeTasks as real / capacity >= 0.0;
  }

  lemma {:induction false} NothingMarked(c: ScalerConfig, w: World, es: seq<Event>, p: nat, d: nat)
    requires c.scaleDownUtilization <= 0.0 && Possible(c, w, es, p, d, false)
    ensures Remaining(End(c, w, es)) >= Remaining(w)
    decreases |es|
  {
    if es != [] {
      if es[0].Observe? {
        NeverLow(Seen(w, es[0]).metrics, c);
      }
      NothingMarked(c, Apply(c, w, es[0]), es[1..], p, d);
    }
  }

  ghost predicate StaysAboveMin(c: ScalerConfig, w: World, es: seq<Event>, p: nat, d: nat, ticking: bool) {
    Possible(c, w, es, p, d, false) && (ticking ==> Ticking(c, es, 0)) && Remaining(w) >= c.minAgents ==>
      End(c, w, es).agents >= c.minAgents
  }

  /** While only marked agents leave, no run falls below `min_agents` if and only
      if every mark has taken effect before the next one, or the minimum is 0,
      or no utilization counts as low; and so it is with the runs that keep to
      the ticker. */
  lemma NeverBelowMinIff(c: ScalerConfig, p: nat, d: nat, ticking: bool)
    ensures (forall w, es :: StaysAboveMin(c, w, es, p, d, ticking))
            <==> d == 0 || c.minAgents == 0 || c.scaleDownUtilization <= 0.0
  {
    if d == 0 || c.minAgents == 0 || c.scaleDownUtilization <= 0.0 {
      forall w, es | Possible(c, w, es, p, d, false) && Remaining(w) >= c.minAgents
        ensures StaysAboveMin(c, w, es, p, d, ticking)
      {
        if d == 0 {
          UndershootBounded(c, w, es, p, d);
        } else if c.scaleDownUtilization <= 0.0 {
          NothingMarked(c, w, es, p, d);
        }
      }
    } else {
      var es := UndershootReached(c, p, d, 1);
      assert !StaysAboveMin(c, World(c.minAgents + 1, 0, 0, Stay, Started(c, 0)), es, p, d, ticking);
    }
  }
}
