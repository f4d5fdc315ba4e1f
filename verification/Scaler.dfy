/** The autoscaler's arithmetic: queue velocity and the two decisions. `f64` is
    read as `real`. */
module ScalerDecisions {
  import opened Common
  import opened PoolMeasure

  datatype ScalerConfig = ScalerConfig(
    minAgents: nat,
    maxAgents: nat,
    scaleDownUtilization: real,
    scaleUpCooldownSecs: nat,
    scaleDownCooldownSecs: nat,
    checkIntervalSecs: nat,
    provisionTimeSecs: nat,
    maxScaleUpBatch: nat,
    scaleDownConfirmTicks: nat,
    emaAlpha: real,
    maxConcurrentPerAgent: nat)

  function SaturatingSub(a: nat, b: nat): nat { if a < b then 0 else a - b }

  // ----- Queue velocity -----

  /** One step of the moving average; the velocity is kept per tick. */
  function NextVelocity(alpha: real, velocity: real, previous: nat, size: nat): real {
    alpha * (size as real - previous as real) + (1.0 - alpha) * velocity
  }

  function PerSecond(velocity: real, checkIntervalSecs: nat): (r: real)
    ensures checkIntervalSecs > 0 ==> r * checkIntervalSecs as real == velocity
    ensures checkIntervalSecs == 0 ==> r == 0.0
  {
    if checkIntervalSecs > 0 then velocity / checkIntervalSecs as real else 0.0
  }

  /** `QueueVelocityTracker` */
  class QueueVelocityTracker {
    var prevQueueSize: nat
    var velocity: real
    const alpha: real
    const checkIntervalSecs: nat

    constructor (alpha: real, checkIntervalSecs: nat)
      ensures this.alpha == alpha && this.checkIntervalSecs == checkIntervalSecs
      ensures prevQueueSize == 0 && velocity == 0.0
    {
      prevQueueSize, velocity := 0, 0.0;
      this.alpha, this.checkIntervalSecs := alpha, checkIntervalSecs;
    }

    method Update(queueSize: nat) returns (perSecond: real)
      modifies this
      ensures prevQueueSize == queueSize
      ensures velocity == NextVelocity(alpha, old(velocity), old(prevQueueSize), queueSize)
      ensures perSecond == PerSecond(velocity, checkIntervalSecs)
    {
      var delta := queueSize as real - prevQueueSize as real;
      velocity := alpha * delta + (1.0 - alpha) * velocity;
      prevQueueSize := queueSize;
      perSecond := if checkIntervalSecs > 0 then velocity / checkIntervalSecs as real else 0.0;
    }
  }

  // ----- Decisions -----

  /** `x.ceil() as usize` for a positive `x` */
  function Ceil(x: real): (r: nat)
    requires x > 0.0
    ensures r as real - 1.0 < x <= r as real
  {
    -((-x).Floor)
  }

  function DivCeil(a: nat, b: nat): nat
    requires b > 0
  {
    (a + b - 1) / b
  }

  function Demand(m: PoolMetrics, velocity: real, c: ScalerConfig): nat {
    var buffered := velocity * c.provisionTimeSecs as real;
    m.activeTasks + m.queueSize + if velocity > 0.0 && buffered > 0.0 then Ceil(buffered) else 0
  }

  function ScaleUpDecision(m: PoolMetrics, velocity: real, c: ScalerConfig): nat {
    if c.maxConcurrentPerAgent == 0 then 0
    else
      var need := SaturatingSub(DivCeil(Demand(m, velocity, c), c.maxConcurrentPerAgent), m.agentCount);
      Min(Min(need, c.maxScaleUpBatch), SaturatingSub(c.maxAgents, m.agentCount))
  }

  /** Utilization below the threshold while more than the minimum of agents exist. */
  predicate Low(m: PoolMetrics, c: ScalerConfig) {
    var effective := Max(SaturatingSub(m.agentCount, m.drainingAgentCount), 1);
    var capacity := effective as real * c.maxConcurrentPerAgent as real;
    var utilization := if capacity > 0.0 then m.activeTasks as real / capacity else 0.0;
    utilization < c.scaleDownUtilization && m.agentCount > c.minAgents
  }

  function ScaleDownDecision(m: PoolMetrics, c: ScalerConfig, confirm: nat): (bool, nat) {
    if Low(m, c) then
      if confirm + 1 >= c.scaleDownConfirmTicks then (true, 0) else (false, confirm + 1)
    else (false, 0)
  }

  /** The demand is the tasks there are, and the least whole number that covers
      what a growing queue gains while an agent is provisioned. */
  lemma DemandMeans(m: PoolMetrics, velocity: real, c: ScalerConfig) returns (buffer: nat)
    ensures Demand(m, velocity, c) == m.activeTasks + m.queueSize + buffer
    ensures velocity > 0.0 ==>
              && velocity * c.provisionTimeSecs as real <= buffer as real
              && (buffer > 0 ==> buffer as real - 1.0 < velocity * c.provisionTimeSecs as real)
    ensures velocity <= 0.0 ==> buffer == 0
  {
    buffer := Demand(m, velocity, c) - m.activeTasks - m.queueSize;
  }

  /** Low means: more agents than the minimum, and fewer active tasks than the
      threshold's share of what the agents that are not draining, or one agent
      if all are, could hold. With no capacity at all any positive threshold does. */
  lemma LowIsBelowShare(m: PoolMetrics, c: ScalerConfig)
    ensures var capacity := Max(m.agentCount - m.drainingAgentCount, 1) as real * c.maxConcurrentPerAgent as real;
            Low(m, c) <==>
              && m.agentCount > c.minAgents
              && if c.maxConcurrentPerAgent == 0 then c.scaleDownUtilization > 0.0
                 else m.activeTasks as real < c.scaleDownUtilization * capacity
  {
    var capacity := Max(m.agentCount - m.drainingAgentCount, 1) as real * c.maxConcurrentPerAgent as real;
    if c.maxConcurrentPerAgent > 0 {
      assert capacity > 0.0;
      Shares(m.activeTasks as real, capacity, c.scaleDownUtilization);
    }
  }

  lemma Shares(x: real, y: real, share: real)
    requires y > 0.0
    ensures x / y < share <==> x < share * y
  {
    assert x / y * y == x;
  }

  /** `n` agents cover the demand and no smaller number from `count` on does. */
  ghost predicate LeastCovering(n: nat, count: nat, demand: nat, capacity: nat) {
    && count <= n && n * capacity >= demand
    && forall k | count <= k < n :: k * capacity < demand
  }

  lemma DivCeilCovers(a: nat, b: nat)
    requires b > 0
    ensures DivCeil(a, b) * b >= a
    ensures forall k: nat | k < DivCeil(a, b) :: k * b < a
  {
    var q := DivCeil(a, b);
    assert q * b <= a + b - 1 < q * b + b;
    forall k: nat | k < q ensures k * b < a {
      assert (k + 1) * b <= q * b;
      assert (k + 1) * b == k * b + b;
    }
  }

  lemma LeastCoveringIsUnique(n: nat, n': nat, count: nat, demand: nat, capacity: nat)
    requires LeastCovering(n, count, demand, capacity) && LeastCovering(n', count, demand, capacity)
    ensures n == n'
  {
  }

  /** Such a number exists, so the lemma below covers every observation. */
  lemma DivCeilIsLeast(count: nat, demand: nat, capacity: nat)
    requires capacity > 0
    ensures LeastCovering(Max(DivCeil(demand, capacity), count), count, demand, capacity)
  {
    var q := DivCeil(demand, capacity);
    DivCeilCovers(demand, capacity);
    if q < count {
      assert count * capacity >= q * capacity;
    }
  }

  /** Scaling up goes for the least sufficient number of agents, cut off by the
      batch size and by what is left to `max_agents`, or for none if an agent
      holds no task; it never takes the observed count above the maximum. */
  lemma ScaleUpIsLeast(m: PoolMetrics, velocity: real, c: ScalerConfig, n: nat)
    requires c.maxConcurrentPerAgent > 0 ==>
               LeastCovering(n, m.agentCount, Demand(m, velocity, c), c.maxConcurrentPerAgent)
    ensures var up := ScaleUpDecision(m, velocity, c);
      && m.agentCount + up <= Max(m.agentCount, c.maxAgents)
      && up == if c.maxConcurrentPerAgent == 0 then 0
               else Min(Min(n - m.agentCount, c.maxScaleUpBatch), Max(c.maxAgents - m.agentCount, 0))
  {
    if c.maxConcurrentPerAgent > 0 {
      var demand := Demand(m, velocity, c);
      var least := Max(DivCeil(demand, c.maxConcurrentPerAgent), m.agentCount);
      DivCeilIsLeast(m.agentCount, demand, c.maxConcurrentPerAgent);
      LeastCoveringIsUnique(least, n, m.agentCount, demand, c.maxConcurrentPerAgent);
    }
  }
}

/** The velocity tracker computes an exponential moving average of the queue's growth. */
module QueueVelocity {
  import opened ScalerDecisions

  function Size(sizes: seq<nat>, i: int): nat { if 0 <= i < |sizes| then sizes[i] else 0 }

  /** Growth of the queue at tick `i`; the tracker starts from an empty queue. */
  function Delta(sizes: seq<nat>, i: nat): real { Size(sizes, i) as real - Size(sizes, i - 1) as real }

  /** The tracker's velocity after updates with the first `n` of the sizes; `beta` is `1 - alpha`. */
  function Velocity(alpha: real, beta: real, sizes: seq<nat>, n: nat): real {
    if n == 0 then 0.0
    else alpha * Delta(sizes, n - 1) + beta * Velocity(alpha, beta, sizes, n - 1)
  }

  function Pow(x: real, n: nat): real { if n == 0 then 1.0 else x * Pow(x, n - 1) }

  /** What the growth at tick `i` weighs after `n` ticks, when each tick fades the past by `beta`. */
  function Term(alpha: real, beta: real, sizes: seq<nat>, n: nat, i: nat): real
    requires i < n
  {
    alpha * Delta(sizes, i) * Pow(beta, n - 1 - i)
  }

  function Terms(alpha: real, beta: real, sizes: seq<nat>, n: nat): seq<real> {
    seq(n, i requires 0 <= i < n => Term(alpha, beta, sizes, n, i))
  }

  function Sum(ts: seq<real>): real { if ts == [] then 0.0 else Sum(ts[..|ts| - 1]) + ts[|ts| - 1] }

  lemma Commute(x: real, b: real, p: real)
    ensures x * (b * p) == b * (x * p)
  {
  }

  lemma TermAges(alpha: real, beta: real, sizes: seq<nat>, n: nat, i: nat)
    requires i < n
    ensures Term(alpha, beta, sizes, n + 1, i) == beta * Term(alpha, beta, sizes, n, i)
  {
    Commute(alpha * Delta(sizes, i), beta, Pow(beta, n - 1 - i));
  }

  lemma Distribute(b: real, x: real, y: real)
    ensures b * (x + y) == b * x + b * y
  {
  }

  lemma {:induction false} SumScaled(ts: seq<real>, ts': seq<real>, b: real)
    requires |ts| == |ts'| && forall i | 0 <= i < |ts| :: ts'[i] == b * ts[i]
    ensures Sum(ts') == b * Sum(ts)
  {
    if ts != [] {
      var m := |ts| - 1;
      SumScaled(ts[..m], ts'[..m], b);
      Distribute(b, Sum(ts[..m]), ts[m]);
    }
  }

  lemma NewestTerm(alpha: real, beta: real, sizes: seq<nat>, n: nat)
    requires n > 0
    ensures Term(alpha, beta, sizes, n, n - 1) == alpha * Delta(sizes, n - 1)
  {
    assert Pow(beta, 0) == 1.0;
  }

  /** `ts'` is `ts` faded by one tick, followed by a new term. */
  ghost predicate Fades(ts: seq<real>, ts': seq<real>, beta: real, newest: real) {
    && |ts'| == |ts| + 1 && ts'[|ts|] == newest
    && forall i | 0 <= i < |ts| :: ts'[i] == beta * ts[i]
  }

  lemma TermsFade(alpha: real, beta: real, sizes: seq<nat>, n: nat)
    ensures Fades(Terms(alpha, beta, sizes, n), Terms(alpha, beta, sizes, n + 1), beta, alpha * Delta(sizes, n))
  {
    forall i: nat | i < n {
      TermAges(alpha, beta, sizes, n, i);
    }
    NewestTerm(alpha, beta, sizes, n + 1);
  }

  lemma SumFades(ts: seq<real>, ts': seq<real>, beta: real, newest: real)
    requires Fades(ts, ts', beta, newest)
    ensures Sum(ts') == newest + beta * Sum(ts)
  {
    SumScaled(ts, ts'[..|ts|], beta);
  }

  lemma VelocityStep(alpha: real, beta: real, sizes: seq<nat>, n: nat, v: real)
    requires Velocity(alpha, beta, sizes, n) == v
    ensures Velocity(alpha, beta, sizes, n + 1) == alpha * Delta(sizes, n) + beta * v
  {
  }

  lemma StepAgrees(alpha: real, beta: real, sizes: seq<nat>, n: nat, ts: seq<real>, ts': seq<real>)
    requires Velocity(alpha, beta, sizes, n) == Sum(ts) && Fades(ts, ts', beta, alpha * Delta(sizes, n))
    ensures Velocity(alpha, beta, sizes, n + 1) == Sum(ts')
  {
    VelocityStep(alpha, beta, sizes, n, Sum(ts));
    SumFades(ts, ts', beta, alpha * Delta(sizes, n));
  }

  /** The recurrence equals the exponentially weighted sum of all growths. */
  lemma {:induction false} VelocityIsWeightedSum(alpha: real, beta: real, sizes: seq<nat>, n: nat)
    ensures Velocity(alpha, beta, sizes, n) == Sum(Terms(alpha, beta, sizes, n))
  {
    if n > 0 {
      VelocityIsWeightedSum(alpha, beta, sizes, n - 1);
      TermsFade(alpha, beta, sizes, n - 1);
      StepAgrees(alpha, beta, sizes, n - 1, Terms(alpha, beta, sizes, n - 1), Terms(alpha, beta, sizes, n));
    }
  }

  lemma MulMonotone(a: real, x: real, y: real)
    requires a >= 0.0 && x <= y
    ensures a * x <= a * y
  {
  }

  lemma Partition(alpha: real, beta: real, x: real)
    requires alpha + beta == 1.0
    ensures alpha * x + beta * x == x
  {
    assert alpha * x + beta * x == (alpha + beta) * x;
  }

  lemma WeightedMonotone(alpha: real, beta: real, x: real, y: real, z: real)
    requires 0.0 <= alpha && 0.0 <= beta
    ensures x <= z && y <= z ==> alpha * x + beta * y <= alpha * z + beta * z
    ensures z <= x && z <= y ==> alpha * z + beta * z <= alpha * x + beta * y
  {
    if x <= z && y <= z {
      MulMonotone(alpha, x, z);
      MulMonotone(beta, y, z);
    }
    if z <= x && z <= y {
      MulMonotone(alpha, z, x);
      MulMonotone(beta, z, y);
    }
  }

  lemma Convex(alpha: real, beta: real, x: real, y: real, bound: real)
    requires 0.0 <= alpha && 0.0 <= beta && alpha + beta == 1.0
    requires -bound <= x <= bound && -bound <= y <= bound
    ensures -bound <= alpha * x + beta * y <= bound
  {
    WeightedMonotone(alpha, beta, x, y, bound);
    WeightedMonotone(alpha, beta, x, y, -bound);
    Partition(alpha, beta, bound);
    Partition(alpha, beta, -bound);
  }

  lemma StepBounded(alpha: real, beta: real, sizes: seq<nat>, n: nat, bound: real)
    requires 0.0 <= alpha && 0.0 <= beta && alpha + beta == 1.0
    requires -bound <= Delta(sizes, n) <= bound && -bound <= Velocity(alpha, beta, sizes, n) <= bound
    ensures -bound <= Velocity(alpha, beta, sizes, n + 1) <= bound
  {
    var x, v := Delta(sizes, n), Velocity(alpha, beta, sizes, n);
    Convex(alpha, beta, x, v, bound);
    VelocityStep(alpha, beta, sizes, n, v);
  }

  /** The velocity never exceeds the largest growth seen. */
  lemma {:induction false} VelocityBounded(alpha: real, beta: real, sizes: seq<nat>, n: nat, bound: real)
    requires 0.0 <= alpha <= 1.0 && beta == 1.0 - alpha && bound >= 0.0
    requires forall i: nat | i < n :: -bound <= Delta(sizes, i) <= bound
    ensures -bound <= Velocity(alpha, beta, sizes, n) <= bound
  {
    if n > 0 {
      VelocityBounded(alpha, beta, sizes, n - 1, bound);
      assert -bound <= Delta(sizes, n - 1) <= bound;
      StepBounded(alpha, beta, sizes, n - 1, bound);
    }
  }

  lemma MulAssoc(a: real, b: real, c: real)
    ensures a * (b * c) == (a * b) * c
  {
  }

  /** Over `k` ticks of unchanged queue size it decays by `(1 - alpha)^k`. */
  lemma {:induction false} VelocityDecays(alpha: real, beta: real, sizes: seq<nat>, n: nat, k: nat)
    requires forall i: nat | n <= i < n + k :: Delta(sizes, i) == 0.0
    ensures Velocity(alpha, beta, sizes, n + k) == Pow(beta, k) * Velocity(alpha, beta, sizes, n)
  {
    if k > 0 {
      VelocityDecays(alpha, beta, sizes, n, k - 1);
      assert Delta(sizes, n + k - 1) == 0.0;
      MulAssoc(beta, Pow(beta, k - 1), Velocity(alpha, beta, sizes, n));
    }
  }

  /** A tracker fed the sizes one by one holds exactly that average. */
  method Feed(alpha: real, interval: nat, sizes: seq<nat>) returns (velocity: real)
    ensures velocity == Sum(Terms(alpha, 1.0 - alpha, sizes, |sizes|))
  {
    var tracker := new QueueVelocityTracker(alpha, interval);
    for i := 0 to |sizes|
      invariant fresh(tracker) && tracker.alpha == alpha
      invariant tracker.velocity == Velocity(alpha, 1.0 - alpha, sizes, i)
      invariant tracker.prevQueueSize == Size(sizes, i - 1)
    {
      var _ := tracker.Update(sizes[i]);
    }
    velocity := tracker.velocity;
    VelocityIsWeightedSum(alpha, 1.0 - alpha, sizes, |sizes|);
  }
}
