/** The autoscaler's control loop: cooldowns and the confirmation counter. */
module AutoScalerLoop {
  import opened Common
  import opened PoolMeasure
  import opened ScalerDecisions

  /** Instants are whole nanoseconds; `as_secs` rounds down. */
  function Nanos(secs: nat): nat { secs * 1_000_000_000 }

  function SecondsSince(now: int, earlier: int): nat {
    if now < earlier then 0 else (now - earlier) / 1_000_000_000
  }

  /** The variables of `AutoScaler::run`. */
  datatype Control = Control(
    lastScaleUp: int,
    lastScaleDown: int,
    prevQueueSize: nat,
    velocity: real,
    confirm: nat)

  /** What one tick sees; `candidate`: an agent fit to be drained was found. */
  datatype Observation = Observation(metrics: PoolMetrics, now: int, candidate: bool)

  datatype Action = Stay | Create(count: nat) | MarkOne

  function Started(c: ScalerConfig, start: int): Control {
    Control(start - Nanos(c.scaleUpCooldownSecs), start - Nanos(c.scaleDownCooldownSecs), 0, 0.0, 0)
  }

  function TickVelocity(c: ScalerConfig, k: Control, o: Observation): real {
    NextVelocity(c.emaAlpha, k.velocity, k.prevQueueSize, o.metrics.queueSize)
  }

  function Wanted(c: ScalerConfig, k: Control, o: Observation): nat {
    ScaleUpDecision(o.metrics, PerSecond(TickVelocity(c, k, o), c.checkIntervalSecs), c)
  }

  function Decide(c: ScalerConfig, k: Control, o: Observation): Action {
    var wanted := Wanted(c, k, o);
    if wanted > 0 then
      if SecondsSince(o.now, k.lastScaleUp) < c.scaleUpCooldownSecs then Stay else Create(wanted)
    else if !ScaleDownDecision(o.metrics, c, k.confirm).0 then Stay
    else if SecondsSince(o.now, k.lastScaleDown) < c.scaleDownCooldownSecs || !o.candidate then Stay
    else MarkOne
  }

  function Ticked(c: ScalerConfig, k: Control, o: Observation): Control {
    Control(
      if Decide(c, k, o).Create? then o.now else k.lastScaleUp,
      if Decide(c, k, o).MarkOne? then o.now else k.lastScaleDown,
      o.metrics.queueSize,
      TickVelocity(c, k, o),
      if Wanted(c, k, o) > 0 then k.confirm else ScaleDownDecision(o.metrics, c, k.confirm).1)
  }

  /** The loop itself. Its body follows the source; `View()` is its abstract value. */
  class AutoScaler {
    const config: ScalerConfig
    const tracker: QueueVelocityTracker
    var lastScaleUp: int
    var lastScaleDown: int
    var confirmCounter: nat

    ghost predicate Valid()
      reads this, tracker
    {
      tracker.alpha == config.emaAlpha && tracker.checkIntervalSecs == config.checkIntervalSecs
    }

    function View(): Control
      reads this, tracker
    {
      Control(lastScaleUp, lastScaleDown, tracker.prevQueueSize, tracker.velocity, confirmCounter)
    }

    constructor (config: ScalerConfig, start: int)
      ensures Valid() && this.config == config && fresh(tracker)
      ensures View() == Started(config, start)
    {
      this.config := config;
      lastScaleUp := start - Nanos(config.scaleUpCooldownSecs);
      lastScaleDown := start - Nanos(config.scaleDownCooldownSecs);
      tracker := new QueueVelocityTracker(config.emaAlpha, config.checkIntervalSecs);
      confirmCounter := 0;
    }

    method Tick(o: Observation) returns (action: Action)
      requires Valid()
      modifies this, tracker
      ensures Valid()
      ensures action == Decide(config, old(View()), o)
      ensures View() == Ticked(config, old(View()), o)
    {
      var velocity := tracker.Update(o.metrics.queueSize);
      var needed := ScaleUpDecision(o.metrics, velocity, config);
      action := Stay;
      if needed > 0 {
        if SecondsSince(o.now, lastScaleUp) >= config.scaleUpCooldownSecs {
          lastScaleUp := o.now;
          action := Create(needed);
        }
      } else {
        var (shouldScaleDown, counter) := ScaleDownDecision(o.metrics, config, confirmCounter);
        confirmCounter := counter;
        if shouldScaleDown {
          if SecondsSince(o.now, lastScaleDown) >= config.scaleDownCooldownSecs {
            if o.candidate {
              lastScaleDown := o.now;
              confirmCounter := 0;
              action := MarkOne;
            }
          }
        }
      }
    }
  }

  // ----- What a tick does -----

  predicate Elapsed(now: int, since: int, secs: nat) { secs == 0 || now - since >= secs * 1_000_000_000 }

  /** What is missing to the least number of agents `n` that covers the demand,
      cut off by the batch size and by what is left to the maximum. */
  function Missing(c: ScalerConfig, m: PoolMetrics, n: nat): int {
    if c.maxConcurrentPerAgent == 0 then 0
    else Min(Min(n - m.agentCount, c.maxScaleUpBatch), Max(c.maxAgents - m.agentCount, 0))
  }

  /** The action of a tick: agents are created exactly when some are missing and
      the cooldown is over, and as many as are missing; an agent is marked exactly
      when none is missing, utilization is low and confirmed, the cooldown is over
      and an agent was found; otherwise nothing is done. */
  lemma ActionMeans(c: ScalerConfig, k: Control, o: Observation, n: nat)
    requires var perSecond := PerSecond(TickVelocity(c, k, o), c.checkIntervalSecs);
             c.maxConcurrentPerAgent > 0 ==>
               LeastCovering(n, o.metrics.agentCount, Demand(o.metrics, perSecond, c), c.maxConcurrentPerAgent)
    ensures var missing, action := Missing(c, o.metrics, n), Decide(c, k, o);
      && (forall j: nat :: action == Create(j) <==>
            j == missing > 0 && Elapsed(o.now, k.lastScaleUp, c.scaleUpCooldownSecs))
      && (action == MarkOne <==>
            && missing == 0 && Low(o.metrics, c) && k.confirm + 1 >= c.scaleDownConfirmTicks
            && Elapsed(o.now, k.lastScaleDown, c.scaleDownCooldownSecs) && o.candidate)
  {
    var perSecond := PerSecond(TickVelocity(c, k, o), c.checkIntervalSecs);
    ScaleUpIsLeast(o.metrics, perSecond, c, n);
    ElapsedMeans(o.now, k.lastScaleUp, c.scaleUpCooldownSecs);
    ElapsedMeans(o.now, k.lastScaleDown, c.scaleDownCooldownSecs);
  }

  lemma ElapsedMeans(now: int, since: int, secs: nat)
    ensures SecondsSince(now, since) >= secs <==> Elapsed(now, since, secs)
  {
  }

  lemma ConfirmMeans(c: ScalerConfig, k: Control, o: Observation, n: nat)
    requires var perSecond := PerSecond(TickVelocity(c, k, o), c.checkIntervalSecs);
             c.maxConcurrentPerAgent > 0 ==>
               LeastCovering(n, o.metrics.agentCount, Demand(o.metrics, perSecond, c), c.maxConcurrentPerAgent)
    ensures Ticked(c, k, o).confirm
            == if Missing(c, o.metrics, n) > 0 then k.confirm
               else if Low(o.metrics, c) && k.confirm + 1 < c.scaleDownConfirmTicks then k.confirm + 1
               else 0
  {
    ScaleUpIsLeast(o.metrics, PerSecond(TickVelocity(c, k, o), c.checkIntervalSecs), c, n);
  }

  /** What a tick remembers: the time of its action, the queue size and one step
      of the moving average; and, by ConfirmMeans, how many low evaluations still
      count. */
  lemma TickedMeans(c: ScalerConfig, k: Control, o: Observation)
    ensures var k', action := Ticked(c, k, o), Decide(c, k, o);
      && k'.lastScaleUp == (if action.Create? then o.now else k.lastScaleUp)
      && k'.lastScaleDown == (if action == MarkOne then o.now else k.lastScaleDown)
      && k'.prevQueueSize == o.metrics.queueSize
      && k'.velocity == c.emaAlpha * (o.metrics.queueSize as real - k.prevQueueSize as real)
                        + (1.0 - c.emaAlpha) * k.velocity
  {
  }

  // ----- Runs of the loop -----

  /** The control state before tick `n`. */
  function After(c: ScalerConfig, k: Control, os: seq<Observation>, n: nat): Control
    requires n <= |os|
  {
    if n == 0 then k else Ticked(c, After(c, k, os, n - 1), os[n - 1])
  }

  /** The loop over a finite sequence of ticks does what the specification says at each. */
  method RunFor(c: ScalerConfig, start: int, os: seq<Observation>) returns (actions: seq<Action>)
    ensures |actions| == |os|
    ensures forall i | 0 <= i < |os| :: actions[i] == ActionAt(c, Started(c, start), os, i)
  {
    var scaler := new AutoScaler(c, start);
    actions := [];
    for i := 0 to |os|
      invariant fresh(scaler) && fresh(scaler.tracker) && scaler.Valid() && scaler.config == c
      invariant scaler.View() == After(c, Started(c, start), os, i)
      invariant |actions| == i && forall k | 0 <= k < i :: actions[k] == ActionAt(c, Started(c, start), os, k)
    {
      var action := scaler.Tick(os[i]);
      actions := actions + [action];
    }
  }

  function ActionAt(c: ScalerConfig, k: Control, os: seq<Observation>, n: nat): Action
    requires n < |os|
  {
    Decide(c, After(c, k, os, n), os[n])
  }

  /** The verdicts of the scale-down evaluations in the first `n` ticks; a tick
      that wants more agents evaluates nothing. */
  function Evaluations(c: ScalerConfig, k: Control, os: seq<Observation>, n: nat): seq<bool>
    requires n <= |os|
  {
    if n == 0 then []
    else
      Evaluations(c, k, os, n - 1)
      + if Wanted(c, After(c, k, os, n - 1), os[n - 1]) > 0 then [] else [Low(os[n - 1].metrics, c)]
  }

  predicate EndsLow(evals: seq<bool>, n: nat) {
    n <= |evals| && forall i | |evals| - n <= i < |evals| :: evals[i]
  }

  lemma {:induction false} CounterCountsLowEvaluations(c: ScalerConfig, start: int, os: seq<Observation>, n: nat)
    requires n <= |os|
    ensures EndsLow(Evaluations(c, Started(c, start), os, n), After(c, Started(c, start), os, n).confirm)
  {
    if n > 0 {
      CounterCountsLowEvaluations(c, start, os, n - 1);
    }
  }

  /** An agent is marked only when the last `scale_down_confirm_ticks`
      evaluations, and in any case the last one, were all low. */
  lemma MarkedOnlyAfterConfirmation(c: ScalerConfig, start: int, os: seq<Observation>, n: nat)
    requires n < |os| && ActionAt(c, Started(c, start), os, n).MarkOne?
    ensures EndsLow(Evaluations(c, Started(c, start), os, n + 1), Max(1, c.scaleDownConfirmTicks))
    ensures os[n].metrics.agentCount > c.minAgents
  {
    CounterCountsLowEvaluations(c, start, os, n);
  }

  /** How many evaluations in a row have been low last. */
  function LowRun(evals: seq<bool>): (n: nat)
    ensures n <= |evals| && forall i | |evals| - n <= i < |evals| :: evals[i]
    ensures n < |evals| ==> !evals[|evals| - n - 1]
  {
    if evals == [] || !evals[|evals| - 1] then 0 else LowRun(evals[..|evals| - 1]) + 1
  }

  lemma MulApart(t: nat, d: int)
    ensures d >= 1 ==> t * d >= t
    ensures d <= -1 ==> t * d + t <= 0
  {
    if d >= 1 {
      assert t * d == t + t * (d - 1);
    } else if d <= -1 {
      assert t * d + t == t * (d + 1);
    }
  }

  /** A number has one quotient and one remainder. */
  lemma OneRemainder(t: nat, q: int, r: int, q': int, r': int)
    requires t * q + r == t * q' + r' && 0 <= r < t && 0 <= r' < t
    ensures r == r'
  {
    assert t * (q - q') == t * q - t * q';
    MulApart(t, q - q');
  }

  lemma ModStep(x: nat, t: nat)
    requires t > 0
    ensures (x + 1) % t == if x % t + 1 >= t then 0 else x % t + 1
  {
    var q := x / t;
    assert x == t * q + x % t && x + 1 == t * ((x + 1) / t) + (x + 1) % t;
    if x % t + 1 >= t {
      assert t * (q + 1) == t * q + t;
      OneRemainder(t, q + 1, 0, (x + 1) / t, (x + 1) % t);
    } else {
      OneRemainder(t, q, x % t + 1, (x + 1) / t, (x + 1) % t);
    }
  }

  lemma LowRunStep(evals: seq<bool>, low: bool)
    ensures LowRun(evals + [low]) == if low then LowRun(evals) + 1 else 0
  {
    assert (evals + [low])[..|evals|] == evals;
  }

  /** What a tick adds to the evaluations. */
  function Evaluated(c: ScalerConfig, k: Control, o: Observation): seq<bool> {
    if Wanted(c, k, o) > 0 then [] else [Low(o.metrics, c)]
  }

  /** One evaluation, in numbers only: `run` is the low run before it. */
  lemma CountLow(run: nat, ticks: nat, low: bool) returns (next: nat, confirmed: bool)
    ensures next == if low then run + 1 else 0
    ensures confirmed == (low && run % Max(1, ticks) + 1 >= ticks)
    ensures next % Max(1, ticks) == if low && !confirmed then run % Max(1, ticks) + 1 else 0
    ensures confirmed <==> low && next % Max(1, ticks) == 0
  {
    ModStep(run, Max(1, ticks));
    next := if low then run + 1 else 0;
    confirmed := low && run % Max(1, ticks) + 1 >= ticks;
  }

  lemma DecisionByCount(c: ScalerConfig, m: PoolMetrics, confirm: nat)
    ensures var (confirmed, next) := ScaleDownDecision(m, c, confirm);
      && confirmed == (Low(m, c) && confirm + 1 >= c.scaleDownConfirmTicks)
      && next == if Low(m, c) && !confirmed then confirm + 1 else 0
  {
  }

  lemma ConfirmStep(c: ScalerConfig, k: Control, o: Observation, evals: seq<bool>)
    requires k.confirm == LowRun(evals) % Max(1, c.scaleDownConfirmTicks)
    ensures Ticked(c, k, o).confirm == LowRun(evals + Evaluated(c, k, o)) % Max(1, c.scaleDownConfirmTicks)
    ensures Wanted(c, k, o) == 0 ==>
              (ScaleDownDecision(o.metrics, c, k.confirm).0 <==>
                 Low(o.metrics, c) && LowRun(evals + [true]) % Max(1, c.scaleDownConfirmTicks) == 0)
  {
    if Wanted(c, k, o) > 0 {
      assert evals + [] == evals;
    } else {
      var low := Low(o.metrics, c);
      var next, confirmed := CountLow(LowRun(evals), c.scaleDownConfirmTicks, low);
      LowRunStep(evals, low);
      DecisionByCount(c, o.metrics, k.confirm);
      assert Evaluated(c, k, o) == [low];
    }
  }

  lemma EvaluationsStep(c: ScalerConfig, k: Control, os: seq<Observation>, n: nat)
    requires n < |os|
    ensures Evaluations(c, k, os, n + 1) == Evaluations(c, k, os, n) + Evaluated(c, After(c, k, os, n), os[n])
    ensures After(c, k, os, n + 1) == Ticked(c, After(c, k, os, n), os[n])
  {
  }

  /** The counter is the length of the current run of low evaluations, less the
      confirmations it has already been good for. */
  lemma {:induction false} CounterIsLowRun(c: ScalerConfig, start: int, os: seq<Observation>, n: nat)
    requires n <= |os|
    ensures After(c, Started(c, start), os, n).confirm
            == LowRun(Evaluations(c, Started(c, start), os, n)) % Max(1, c.scaleDownConfirmTicks)
  {
    if n > 0 {
      var k := Started(c, start);
      CounterIsLowRun(c, start, os, n - 1);
      EvaluationsStep(c, k, os, n - 1);
      ConfirmStep(c, After(c, k, os, n - 1), os[n - 1], Evaluations(c, k, os, n - 1));
    }
  }

  /** Over runs: an agent is marked exactly when the tick wants none created, its
      evaluation completes another `scale_down_confirm_ticks` low ones in a row,
      the cooldown is over and an agent was found. */
  lemma MarkedIff(c: ScalerConfig, start: int, os: seq<Observation>, n: nat)
    requires n < |os|
    ensures var k := After(c, Started(c, start), os, n);
            var run := LowRun(Evaluations(c, Started(c, start), os, n + 1));
      ActionAt(c, Started(c, start), os, n) == MarkOne <==>
        && Wanted(c, k, os[n]) == 0
        && run > 0 && run % Max(1, c.scaleDownConfirmTicks) == 0
        && Elapsed(os[n].now, k.lastScaleDown, c.scaleDownCooldownSecs) && os[n].candidate
  {
    var k := After(c, Started(c, start), os, n);
    var evals := Evaluations(c, Started(c, start), os, n);
    ElapsedMeans(os[n].now, k.lastScaleDown, c.scaleDownCooldownSecs);
    CounterIsLowRun(c, start, os, n);
    EvaluationsStep(c, Started(c, start), os, n);
    ConfirmStep(c, k, os[n], evals);
    LowRunStep(evals, Low(os[n].metrics, c));
  }

  ghost predicate TimesRise(start: int, os: seq<Observation>) {
    (forall i | 0 <= i < |os| :: start <= os[i].now) && (forall i, j | 0 <= i < j < |os| :: os[i].now <= os[j].now)
  }

  lemma {:induction false} LastTimes(c: ScalerConfig, start: int, os: seq<Observation>, m: nat, n: nat)
    requires m < n <= |os| && TimesRise(start, os)
    ensures var k := Started(c, start);
      && (ActionAt(c, k, os, m).MarkOne? ==> os[m].now <= After(c, k, os, n).lastScaleDown)
      && (ActionAt(c, k, os, m).Create? ==> os[m].now <= After(c, k, os, n).lastScaleUp)
  {
    if m < n - 1 {
      LastTimes(c, start, os, m, n - 1);
    }
  }

  lemma CooldownElapsed(now: int, last: int, cooldown: nat)
    requires SecondsSince(now, last) >= cooldown && now >= last
    ensures now - last >= Nanos(cooldown)
  {
  }

  /** Two marks, and two scale-ups, are at least their cooldown apart. */
  lemma CooldownsKept(c: ScalerConfig, start: int, os: seq<Observation>, m: nat, n: nat)
    requires m < n < |os| && TimesRise(start, os)
    ensures var k := Started(c, start);
      && (ActionAt(c, k, os, m).MarkOne? && ActionAt(c, k, os, n).MarkOne? ==>
            os[n].now - os[m].now >= Nanos(c.scaleDownCooldownSecs))
      && (ActionAt(c, k, os, m).Create? && ActionAt(c, k, os, n).Create? ==>
            os[n].now - os[m].now >= Nanos(c.scaleUpCooldownSecs))
  {
    LastTimes(c, start, os, m, n);
    LastTimesPast(c, start, os, n);
    var k := After(c, Started(c, start), os, n);
    if ActionAt(c, Started(c, start), os, n).MarkOne? {
      CooldownElapsed(os[n].now, k.lastScaleDown, c.scaleDownCooldownSecs);
    }
    if ActionAt(c, Started(c, start), os, n).Create? {
      CooldownElapsed(os[n].now, k.lastScaleUp, c.scaleUpCooldownSecs);
    }
  }

  lemma {:induction false} LastTimesPast(c: ScalerConfig, start: int, os: seq<Observation>, n: nat)
    requires n < |os| && TimesRise(start, os)
    ensures After(c, Started(c, start), os, n).lastScaleDown <= os[n].now
    ensures After(c, Started(c, start), os, n).lastScaleUp <= os[n].now
  {
    if n > 0 {
      LastTimesPast(c, start, os, n - 1);
    }
  }
}
