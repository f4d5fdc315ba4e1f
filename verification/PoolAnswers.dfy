/** What the pool owes its submitters: left alone beside one agent that may be
    used, it comes to rest after a bounded number of steps, and then every
    accepted frame has its answer. */
module PoolAnswers {
  import opened PoolModel
  import opened PoolRuns
  import opened PoolCapacity
  import opened PoolWakeup
  import opened PoolProgress
  import opened PoolTheorems

  /** The pool's own work: the steps of the dispatcher and of the runners, and
      the notification that the health loop owes. */
  predicate Internal(e: Event) { MovesDispatcher(e) || MovesRunner(e) || e.NotifyRecovery? }

  ghost predicate InternalRun(c: Config, s: State, es: seq<Event>)
    requires WellFormed(s)
  {
    (forall i | 0 <= i < |es| :: Internal(es[i])) && Run(c, s, es).Some?
  }

  /** Nothing is left to do without outside help. */
  ghost predicate Quiet(c: Config, s: State)
    requires WellFormed(s)
  {
    forall e: Event :: Enabled(c, s, e) ==> !Internal(e)
  }

  /** Some agent of the pool may be given tasks. */
  ghost predicate HasUsableAgent(s: State)
    requires WellFormed(s)
  {
    exists k | 0 <= k < |s.agents| :: s.handles[s.agents[k]].healthy && !s.handles[s.agents[k]].draining
  }

  lemma InternalFrame(c: Config, s: State, e: Event)
    requires WellFormed(s) && Enabled(c, s, e) && Internal(e)
    ensures Apply(c, s, e).agents == s.agents && Apply(c, s, e).log.accepted == s.log.accepted
  {
    Frame(c, s, e);
  }

  lemma InternalKeepsUsable(c: Config, s: State, e: Event)
    requires WellFormed(s) && Enabled(c, s, e) && Internal(e) && HasUsableAgent(s)
    ensures WellFormed(Apply(c, s, e)) && HasUsableAgent(Apply(c, s, e))
  {
    WellFormedStep(c, s, e);
    InternalFrame(c, s, e);
    FrameHandles(c, s, e);
    var k :| 0 <= k < |s.agents| && s.handles[s.agents[k]].healthy && !s.handles[s.agents[k]].draining;
    var s' := Apply(c, s, e);
    assert s'.handles[s'.agents[k]].healthy && !s'.handles[s'.agents[k]].draining;
  }

  // ----- It comes to rest -----

  /** Wakeups in store: signals, the permit, and what will become one. */
  function Wakeups(s: State): nat {
    s.signals + (if s.permit then 1 else 0) + (if s.health.HealthOwes? then 2 else 0)
  }

  /** Steps to the end of the dispatcher's current round. */
  function RoundLeft(s: State): nat
    requires DispatcherKnown(s.dispatcher, s.queue != [], |s.agents|, |s.handles|)
  {
    match s.dispatcher
    case Awake => |s.agents| + 2
    case Scanning(next, _) => |s.agents| - next + 1
    case _ => 0
  }

  /** What drives rounds of the dispatcher; each task step may store one wakeup. */
  function Drive(c: Config, s: State): nat { 2 * Work(c, s) + Wakeups(s) }

  /** How many internal steps there can still be at most. */
  function Patience(c: Config, s: State): nat
    requires WellFormed(s)
  {
    Drive(c, s) * (|s.agents| + 3) + RoundLeft(s)
  }

  lemma TaskStepWakeups(c: Config, s: State, e: Event)
    requires WellFormed(s) && Enabled(c, s, e) && (MovesRunner(e) || e.ScanEnd?)
    ensures WellFormed(Apply(c, s, e)) && Wakeups(Apply(c, s, e)) <= Wakeups(s) + (if IsProgress(s, e) then 1 else 0)
    ensures !IsProgress(s, e) ==> RoundLeft(Apply(c, s, e)) < RoundLeft(s)
  {
    WellFormedStep(c, s, e);
  }

  lemma WaitStepWakeups(c: Config, s: State, e: Event)
    requires WellFormed(s) && Enabled(c, s, e) && Internal(e) && !MovesRunner(e) && !e.ScanEnd?
    ensures WellFormed(Apply(c, s, e)) && !IsProgress(s, e)
    ensures var s' := Apply(c, s, e);
            Wakeups(s') < Wakeups(s) || (Wakeups(s') == Wakeups(s) && RoundLeft(s') < RoundLeft(s))
  {
    WellFormedStep(c, s, e);
  }

  lemma InternalDrive(c: Config, s: State, e: Event)
    requires WellFormed(s) && Enabled(c, s, e) && Internal(e)
    ensures WellFormed(Apply(c, s, e))
    ensures var s' := Apply(c, s, e);
            Drive(c, s') < Drive(c, s) || (Drive(c, s') == Drive(c, s) && RoundLeft(s') < RoundLeft(s))
  {
    WellFormedStep(c, s, e);
    InternalFrame(c, s, e);
    WorkStep(c, s, e);
    if MovesRunner(e) || e.ScanEnd? {
      TaskStepWakeups(c, s, e);
    } else {
      WaitStepWakeups(c, s, e);
    }
  }

  lemma Lower(d': nat, d: nat, a: nat, r': nat, r: nat)
    requires r' < a
    requires d' < d || (d' == d && r' < r)
    ensures d' * a + r' < d * a + r
  {
    if d' < d {
      assert (d' + 1) * a <= d * a;
      assert (d' + 1) * a == d' * a + a;
    }
  }

  lemma InternalStepEnds(c: Config, s: State, e: Event)
    requires WellFormed(s) && Enabled(c, s, e) && Internal(e)
    ensures WellFormed(Apply(c, s, e)) && Patience(c, Apply(c, s, e)) < Patience(c, s)
  {
    InternalDrive(c, s, e);
    InternalFrame(c, s, e);
    var s' := Apply(c, s, e);
    Lower(Drive(c, s'), Drive(c, s), |s.agents| + 3, RoundLeft(s'), RoundLeft(s));
  }

  /** No internal run, from any state, is longer than the patience it starts with. */
  lemma {:induction false} InternalRunsEnd(c: Config, s: State, es: seq<Event>)
    requires WellFormed(s) && InternalRun(c, s, es)
    ensures |es| + Patience(c, Run(c, s, es).value) <= Patience(c, s)
    decreases |es|
  {
    if es != [] {
      InternalStepEnds(c, s, es[0]);
      InternalRunsEnd(c, Apply(c, s, es[0]), es[1..]);
    }
  }

  lemma {:induction false} RunToQuiet(c: Config, s: State) returns (es: seq<Event>)
    requires WellFormed(s)
    ensures InternalRun(c, s, es) && Quiet(c, Run(c, s, es).value)
    decreases Patience(c, s)
  {
    es := [];
    if !Quiet(c, s) {
      var e: Event :| Enabled(c, s, e) && Internal(e);
      InternalStepEnds(c, s, e);
      es := RunToQuiet(c, Apply(c, s, e));
      RunStep(c, s, e, es);
      es := [e] + es;
    }
  }

  lemma {:induction false} RunKeepsUsable(c: Config, s: State, es: seq<Event>)
    requires WellFormed(s) && InternalRun(c, s, es) && HasUsableAgent(s)
    ensures HasUsableAgent(Run(c, s, es).value)
    decreases |es|
  {
    if es != [] {
      WellFormedStep(c, s, es[0]);
      InternalKeepsUsable(c, s, es[0]);
      RunKeepsUsable(c, Apply(c, s, es[0]), es[1..]);
    }
  }

  // ----- At rest, all is answered -----

  lemma QuietHasNoRunner(c: Config, s: State)
    requires WellFormed(s) && Quiet(c, s) && Unlocked(s)
    ensures s.runners == [] && s.health.HealthIdle?
  {
    assert !Enabled(c, s, NotifyRecovery);
    assert !Enabled(c, s, Release(0, true)) && !Enabled(c, s, NotifyIdle(0)) && !Enabled(c, s, Settle(0));
  }

  /** A dispatcher waiting unnotified beside a usable agent waits for a task that runs. */
  lemma UnnotifiedIsRunning(c: Config, s: State)
    requires Sound(c, s) && HasUsableAgent(s) && c.maxConcurrent >= 1
    requires s.dispatcher.AgentWait? && !NotifyDue(s)
    ensures s.runners != []
  {
    var k :| 0 <= k < |s.agents| && s.handles[s.agents[k]].healthy && !s.handles[s.agents[k]].draining;
    assert Blocked(s.handles[s.agents[k]]);
    assert RunningOn(s.runners, s.agents[k]) > 0;
  }

  /** A pool at rest beside a usable agent has no work: if the dispatcher still
      waited for an agent, that one would be busy, and its runner not at rest. */
  lemma QuietIsIdle(c: Config, s: State)
    requires Sound(c, s) && Quiet(c, s) && HasUsableAgent(s) && c.maxConcurrent >= 1
    ensures s.queue == [] && s.runners == [] && s.dispatcher.EmptyWait?
  {
    StuckMeans(c, s);
    QuietHasNoRunner(c, s);
    if s.dispatcher.AgentWait? {
      UnnotifiedIsRunning(c, s);
      assert false;
    }
  }

  /** Every run of internal steps from here that comes to rest has then answered
      every accepted frame. */
  ghost predicate ServesAll(c: Config, s: State)
    requires WellFormed(s)
  {
    forall es | InternalRun(c, s, es) && Quiet(c, Run(c, s, es).value) :: AllAnswered(Run(c, s, es).value)
  }

  lemma SoundServesAll(c: Config, s: State)
    requires Sound(c, s) && HasUsableAgent(s) && c.maxConcurrent >= 1
    ensures ServesAll(c, s)
  {
    forall es | InternalRun(c, s, es) && Quiet(c, Run(c, s, es).value) ensures AllAnswered(Run(c, s, es).value) {
      var s' := Run(c, s, es).value;
      SoundRun(c, s, es);
      RunKeepsUsable(c, s, es);
      QuietIsIdle(c, s');
      IdleIsAnswered(s');
    }
  }

  // ----- Without capacity -----

  /** Nothing was dispatched and nothing answered. */
  predicate Undispatched(s: State) {
    && s.runners == [] && s.log.answers == []
    && !s.dispatcher.Chosen? && (s.dispatcher.Scanning? ==> s.dispatcher.best.None?)
  }

  lemma UndispatchedStep(c: Config, s: State, e: Event)
    requires WellFormed(s) && Undispatched(s) && c.maxConcurrent == 0 && Enabled(c, s, e) && Internal(e)
    ensures Undispatched(Apply(c, s, e)) && Apply(c, s, e).log.accepted == s.log.accepted
  {
    InternalFrame(c, s, e);
  }

  lemma {:induction false} StaysUndispatched(c: Config, s: State, es: seq<Event>)
    requires WellFormed(s) && Undispatched(s) && c.maxConcurrent == 0 && InternalRun(c, s, es)
    ensures Undispatched(Run(c, s, es).value) && Run(c, s, es).value.log.accepted == s.log.accepted
    decreases |es|
  {
    if es != [] {
      WellFormedStep(c, s, es[0]);
      UndispatchedStep(c, s, es[0]);
      StaysUndispatched(c, Apply(c, s, es[0]), es[1..]);
    }
  }

  lemma UnservedRun(c: Config) returns (es: seq<Event>, s: State)
    requires c.maxConcurrent == 0 && c.maxQueue >= 1
    ensures WellFormed(s) && Reaches(c, es, s) && HasUsableAgent(s) && !ServesAll(c, s)
  {
    es, s := OneFrameOneAgent(c);
    assert s.handles[s.agents[0]].healthy;
    var es' := RunToQuiet(c, s);
    StaysUndispatched(c, s, es');
    assert 1 in Run(c, s, es').value.log.accepted;
    assert !Answered(Run(c, s, es').value, 1);
  }

  ghost predicate ServesReachable(c: Config, s: State) {
    WellFormed(s) && (HasUsableAgent(s) ==> ServesAll(c, s))
  }

  /** From every reachable state with a usable agent the pool's own steps, in
      whatever order they are taken, end with every accepted frame answered, if
      and only if agents may run a task or nothing is ever accepted. That they
      do end is InternalRunsEnd. */
  lemma AnswerableIff(c: Config)
    ensures (forall es, s {:trigger Reaches(c, es, s)} :: Reaches(c, es, s) ==> ServesReachable(c, s))
            <==> c.maxConcurrent >= 1 || c.maxQueue == 0
  {
    if c.maxConcurrent >= 1 || c.maxQueue == 0 {
      forall es, s | Reaches(c, es, s) ensures ServesReachable(c, s) {
        ReachableIsSound(c, es, s);
        if c.maxConcurrent >= 1 {
          if HasUsableAgent(s) {
            SoundServesAll(c, s);
          }
        } else {
          NothingAcceptedServesAll(c, es, s);
        }
      }
    } else {
      var es, s := UnservedRun(c);
      assert !ServesReachable(c, s);
    }
  }

  lemma NothingAcceptedServesAll(c: Config, es: seq<Event>, s: State)
    requires Reaches(c, es, s) && c.maxQueue == 0
    ensures WellFormed(s) && ServesAll(c, s)
  {
    ReachableIsSound(c, es, s);
    ZeroQueueStaysIdle(c, Init(), es);
    forall es' | InternalRun(c, s, es') ensures AllAnswered(Run(c, s, es').value) {
      ZeroQueueStaysIdle(c, s, es');
    }
  }

  // ----- From any state, with one new agent -----

  /** An id longer than, and so different from, the id of every handle. */
  function NewId(hs: seq<Handle>): string {
    if hs == [] then "a" else hs[0].id + NewId(hs[1..])
  }

  lemma {:induction false} NewIdNotEmpty(hs: seq<Handle>)
    ensures |NewId(hs)| > 0
  {
    if hs != [] {
      NewIdNotEmpty(hs[1..]);
    }
  }

  lemma {:induction false} NewIdIsLong(hs: seq<Handle>, a: nat)
    requires a < |hs|
    ensures |hs[a].id| < |NewId(hs)|
  {
    if a > 0 {
      NewIdIsLong(hs[1..], a - 1);
    } else {
      NewIdNotEmpty(hs[1..]);
    }
  }

  lemma NewAgentIsUsable(s: State)
    requires WellFormed(s) && Unlocked(s)
    ensures var s' := AddedAgent(s, NewId(s.handles)); WellFormed(s') && HasUsableAgent(s')
  {
    var p := Position(s.handles, s.agents, NewId(s.handles));
    if p.Some? {
      NewIdIsLong(s.handles, s.agents[p.value]);
      assert false;
    }
    WellFormedAdd(s, NewId(s.handles));
    var s' := AddedAgent(s, NewId(s.handles));
    assert s'.handles[s'.agents[|s.agents|]].healthy;
  }

  /** No accepted frame is ever beyond reach: from every reachable state, once
      the steps at hand are done, one new agent is enough to have all answered. */
  lemma OneAgentServesAll(c: Config, es: seq<Event>, s: State) returns (before: seq<Event>, e: Event, s1: State)
    requires Reaches(c, es, s) && c.maxConcurrent >= 1
    ensures WellFormed(s) && InternalRun(c, s, before) && e.AddAgent?
    ensures var w := Run(c, s, before).value; Enabled(c, w, e) && s1 == Apply(c, w, e)
    ensures WellFormed(s1) && HasUsableAgent(s1) && ServesAll(c, s1)
  {
    ReachableIsSound(c, es, s);
    before := RunToQuiet(c, s);
    var w := Run(c, s, before).value;
    SoundRun(c, s, before);
    StuckMeans(c, w);
    e := AddAgent(NewId(w.handles));
    s1 := Apply(c, w, e);
    SoundStep(c, w, e);
    NewAgentIsUsable(w);
    SoundServesAll(c, s1);
  }
}
