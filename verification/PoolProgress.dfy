/** Every accepted task causes only a bounded number of dispatching steps. */
module PoolProgress {
  import opened Common
  import opened PoolModel
  import opened PoolRuns

  /** Retries a task still has. */
  function Left(c: Config, t: Task): nat { if t.retries < c.maxRetries then c.maxRetries - t.retries else 0 }

  /** The longest life of a task: five steps an attempt. */
  function Budget(c: Config): nat { 5 * c.maxRetries + 5 }

  function QueueWork(c: Config, q: seq<Task>): nat {
    if q == [] then 0 else 5 * Left(c, q[0]) + 5 + QueueWork(c, q[1..])
  }

  function Weight(c: Config, r: Runner): nat {
    5 * Left(c, r.task) + (if r.Executing? then 3 else if r.owes then 2 else 1)
  }

  function RunnerWork(c: Config, rs: seq<Runner>): nat {
    if rs == [] then 0 else Weight(c, rs[0]) + RunnerWork(c, rs[1..])
  }

  /** The steps that outstanding tasks can still cause at most. */
  function Work(c: Config, s: State): nat {
    QueueWork(c, s.queue) + RunnerWork(c, s.runners)
    + (if s.dispatcher.Chosen? then 5 * Left(c, s.dispatcher.task) + 4 else 0)
  }

  /** Choosing, counting, finishing, notifying, and requeueing or answering. */
  predicate IsProgress(s: State, e: Event) {
    (e.ScanEnd? && s.dispatcher.Scanning? && s.dispatcher.best.Some?)
    || e.CountDispatch? || e.Release? || e.NotifyIdle? || e.Settle?
  }

  /** Submissions accepted between two states of a run. */
  function Accepted(s: State, s': State): int { |s'.log.accepted| - |s.log.accepted| }

  lemma {:induction false} QueueWorkPush(c: Config, q: seq<Task>, t: Task)
    ensures QueueWork(c, q + [t]) == QueueWork(c, q) + 5 * Left(c, t) + 5
  {
    if q == [] {
      assert q + [t] == [t];
    } else {
      assert (q + [t])[1..] == q[1..] + [t];
      QueueWorkPush(c, q[1..], t);
    }
  }

  lemma {:induction false} RunnerWorkSpawn(c: Config, rs: seq<Runner>, r: Runner)
    ensures RunnerWork(c, rs + [r]) == RunnerWork(c, rs) + Weight(c, r)
  {
    if rs == [] {
      assert rs + [r] == [r];
    } else {
      assert (rs + [r])[1..] == rs[1..] + [r];
      RunnerWorkSpawn(c, rs[1..], r);
    }
  }

  lemma {:induction false} RunnerWorkChange(c: Config, rs: seq<Runner>, i: nat, r: Runner)
    requires i < |rs|
    ensures RunnerWork(c, rs[i := r]) + Weight(c, rs[i]) == RunnerWork(c, rs) + Weight(c, r)
    ensures RunnerWork(c, rs[..i] + rs[i + 1..]) + Weight(c, rs[i]) == RunnerWork(c, rs)
  {
    var rest := rs[..i] + rs[i + 1..];
    if i == 0 {
      assert rs[0 := r][1..] == rs[1..];
      assert rest == rs[1..];
    } else {
      assert rs[i := r][1..] == rs[1..][i - 1 := r];
      assert rest[0] == rs[0] && rest[1..] == rs[1..][..i - 1] + rs[1..][i..];
      RunnerWorkChange(c, rs[1..], i - 1, r);
    }
  }

  lemma SettleWork(c: Config, s: State, i: nat)
    requires i < |s.runners| && s.runners[i].Released? && !s.runners[i].owes
    ensures Work(c, SettledRunner(c, s, i)) < Work(c, s)
  {
    var t := s.runners[i].task;
    RunnerWorkChange(c, s.runners, i, s.runners[i]);
    if Requeues(c, s.runners[i]) {
      QueueWorkPush(c, s.queue, Task(t.frame, t.retries + 1));
    }
  }

  lemma RunnerStepWork(c: Config, s: State, i: nat, ok: bool)
    requires WellFormed(s) && i < |s.runners|
    ensures s.runners[i].Executing? ==> Work(c, ReleasedRunner(s, i, ok)) < Work(c, s)
    ensures s.runners[i].Released? && s.runners[i].owes ==> Work(c, NotifiedIdle(s, i)) < Work(c, s)
  {
    if s.runners[i].Executing? {
      RunnerWorkChange(c, s.runners, i, ReleasedRunner(s, i, ok).runners[i]);
    } else {
      RunnerWorkChange(c, s.runners, i, NotifiedIdle(s, i).runners[i]);
    }
  }

  lemma DispatchWork(c: Config, s: State)
    requires WellFormed(s)
    ensures s.dispatcher.Scanning? && s.dispatcher.best.Some? ==> Work(c, ScanEnded(s)) < Work(c, s)
    ensures s.dispatcher.Scanning? && s.dispatcher.best.None? ==> Work(c, ScanEnded(s)) == Work(c, s)
    ensures s.dispatcher.Chosen? ==> Work(c, CountedDispatch(s)) < Work(c, s)
  {
    if s.dispatcher.Chosen? {
      RunnerWorkSpawn(c, s.runners, Executing(s.dispatcher.agent, s.dispatcher.task));
    }
  }

  lemma EnqueueWork(c: Config, s: State, frame: nat)
    ensures Work(c, Enqueued(c, s, frame)) == Work(c, s) + (if |s.queue| < c.maxQueue then Budget(c) else 0)
  {
    QueueWorkPush(c, s.queue, Task(frame, 0));
  }

  lemma RunnerWorkStep(c: Config, s: State, e: Event)
    requires WellFormed(s) && Enabled(c, s, e) && (e.Release? || e.NotifyIdle? || e.Settle?)
    ensures Work(c, Apply(c, s, e)) < Work(c, s)
    ensures Accepted(s, Apply(c, s, e)) == 0
  {
    match e
    case Release(i, ok) => RunnerStepWork(c, s, i, ok);
    case NotifyIdle(i) => RunnerStepWork(c, s, i, true);
    case Settle(i) => SettleWork(c, s, i);
  }

  lemma OthersKeepWork(c: Config, s: State, e: Event)
    requires WellFormed(s) && Enabled(c, s, e) && !MovesQueue(e) && !MovesRunner(e)
    ensures Work(c, Apply(c, s, e)) == Work(c, s) && Accepted(s, Apply(c, s, e)) == 0
  {
    Frame(c, s, e);
    assert s.dispatcher.Chosen? ==> Apply(c, s, e).dispatcher == s.dispatcher;
  }

  /** A progress step uses up work; only an accepted submission brings more. */
  lemma WorkStep(c: Config, s: State, e: Event)
    requires WellFormed(s) && Enabled(c, s, e)
    ensures 0 <= Accepted(s, Apply(c, s, e)) <= 1
    ensures Work(c, Apply(c, s, e)) + (if IsProgress(s, e) then 1 else 0)
            <= Work(c, s) + (if Accepted(s, Apply(c, s, e)) == 1 then Budget(c) else 0)
  {
    if e.Enqueue? {
      EnqueueWork(c, s, e.frame);
    } else if e.ScanEnd? || e.CountDispatch? {
      DispatchWork(c, s);
    } else if MovesRunner(e) {
      RunnerWorkStep(c, s, e);
    } else if !e.RejectQueued? {
      OthersKeepWork(c, s, e);
    }
  }

  /** One step, in numbers only. */
  lemma WorkStepCost(c: Config, s: State, e: Event) returns (p: nat, d: nat, w1: nat, w: nat)
    requires WellFormed(s) && Enabled(c, s, e)
    ensures p == (if IsProgress(s, e) then 1 else 0) && d == Accepted(s, Apply(c, s, e)) <= 1
    ensures w == Work(c, s) && w1 == Work(c, Apply(c, s, e)) && w1 + p <= w + (if d == 1 then Budget(c) else 0)
  {
    WorkStep(c, s, e);
    p, d := if IsProgress(s, e) then 1 else 0, Accepted(s, Apply(c, s, e));
    w1, w := Work(c, Apply(c, s, e)), Work(c, s);
  }

  ghost function ProgressSteps(c: Config, s: State, es: seq<Event>): nat
    requires WellFormed(s) && Run(c, s, es).Some?
    decreases |es|
  {
    if es == [] then 0
    else
      WellFormedStep(c, s, es[0]);
      (if IsProgress(s, es[0]) then 1 else 0) + ProgressSteps(c, Apply(c, s, es[0]), es[1..])
  }

  lemma Telescope(b: nat, n: nat, d: nat, p: nat, rest: nat, w': nat, w1: nat, w: nat)
    requires d <= 1 && w1 + p <= w + (if d == 1 then b else 0)
    requires rest + w' <= w1 + b * n
    ensures p + rest + w' <= w + b * (n + d)
  {
  }

  /** Over any run, from any state: progress steps are paid for by the work
      there was and by the submissions accepted on the way. */
  lemma {:induction false} ProgressBounded(c: Config, s: State, es: seq<Event>)
    requires WellFormed(s) && Run(c, s, es).Some?
    ensures var s' := Run(c, s, es).value;
      && Accepted(s, s') >= 0
      && ProgressSteps(c, s, es) + Work(c, s') <= Work(c, s) + Budget(c) * Accepted(s, s')
    decreases |es|
  {
    if es != [] {
      var s1 := Apply(c, s, es[0]);
      WellFormedStep(c, s, es[0]);
      var p, d, w1, w := WorkStepCost(c, s, es[0]);
      ProgressBounded(c, s1, es[1..]);
      var s' := Run(c, s, es).value;
      assert Run(c, s1, es[1..]) == Some(s');
      Telescope(Budget(c), Accepted(s1, s'), d, p, ProgressSteps(c, s1, es[1..]), Work(c, s'), w1, w);
    }
  }

  /** No work is left exactly when no task is queued, chosen or with a runner. */
  lemma WorkIsZeroIffIdle(c: Config, s: State)
    ensures Work(c, s) == 0 <==> s.queue == [] && s.runners == [] && !s.dispatcher.Chosen?
  {
  }

  /** A task that has left the queue can always make its next step; only a
      requeue may have to wait for the end of the running scan. */
  lemma InFlightCanProgress(c: Config, s: State, i: nat) returns (e: Event)
    requires WellFormed(s) && i < |s.runners|
    requires Unlocked(s) || s.runners[i].Executing? || s.runners[i].owes || !Requeues(c, s.runners[i])
    ensures Enabled(c, s, e) && IsProgress(s, e) && Work(c, Apply(c, s, e)) < Work(c, s)
    ensures MovesRunner(e) && !e.CountDispatch? && e.runner == i
  {
    var r := s.runners[i];
    e := if r.Executing? then Release(i, true) else if r.owes then NotifyIdle(i) else Settle(i);
    WorkStep(c, s, e);
  }
}
