/** The dispatcher never spins: every scan that finds no agent is paid for by a
    wakeup, and wakeups by what happens to tasks and agents. */
module PoolScans {
  import opened PoolModel
  import opened PoolRuns
  import opened PoolProgress
  import opened PoolTheorems

  /** A scan ends without an agent. */
  predicate Fruitless(s: State, e: Event) {
    e.ScanEnd? && s.dispatcher.Scanning? && s.dispatcher.best.None?
  }

  /** Scans the dispatcher can still start on the wakeups in store. */
  function Credit(s: State): nat {
    s.signals + (if s.permit then 1 else 0) + (if s.dispatcher.AgentWait? then 0 else 1)
  }

  /** Signals sent and permits stored in a step. */
  function Sent(s: State, s': State): nat {
    (if s'.signals > s.signals then s'.signals - s.signals else 0) + (if s'.permit && !s.permit then 1 else 0)
  }

  lemma CreditDispatcher(c: Config, s: State, e: Event)
    requires WellFormed(s) && Enabled(c, s, e) && MovesDispatcher(e)
    ensures (if Fruitless(s, e) then 1 else 0) + Credit(Apply(c, s, e)) <= Credit(s)
  {
  }

  lemma CreditStep(c: Config, s: State, e: Event)
    requires WellFormed(s) && Enabled(c, s, e)
    ensures (if Fruitless(s, e) then 1 else 0) + Credit(Apply(c, s, e)) <= Credit(s) + Sent(s, Apply(c, s, e))
  {
    if MovesDispatcher(e) {
      CreditDispatcher(c, s, e);
    } else {
      Frame(c, s, e);
    }
  }

  /** Events from outside that wake the dispatcher. */
  predicate Rouses(e: Event) { e.AddAgent? || e.NotifyRecovery? }

  lemma SentStep(c: Config, s: State, e: Event)
    requires WellFormed(s) && Enabled(c, s, e)
    ensures 0 <= Accepted(s, Apply(c, s, e))
    ensures Sent(s, Apply(c, s, e))
            <= (if IsProgress(s, e) then 1 else 0) + Accepted(s, Apply(c, s, e)) + (if Rouses(e) then 1 else 0)
  {
    WorkStep(c, s, e);
    if MovesDispatcher(e) {
      SentByNone(c, s, e);
    }
  }

  lemma SentByNone(c: Config, s: State, e: Event)
    requires WellFormed(s) && Enabled(c, s, e) && MovesDispatcher(e)
    ensures Sent(s, Apply(c, s, e)) == 0
  {
  }

  ghost function FruitlessScans(c: Config, s: State, es: seq<Event>): nat
    requires WellFormed(s) && Run(c, s, es).Some?
    decreases |es|
  {
    if es == [] then 0
    else
      WellFormedStep(c, s, es[0]);
      (if Fruitless(s, es[0]) then 1 else 0) + FruitlessScans(c, Apply(c, s, es[0]), es[1..])
  }

  ghost function SentIn(c: Config, s: State, es: seq<Event>): nat
    requires WellFormed(s) && Run(c, s, es).Some?
    decreases |es|
  {
    if es == [] then 0
    else
      WellFormedStep(c, s, es[0]);
      Sent(s, Apply(c, s, es[0])) + SentIn(c, Apply(c, s, es[0]), es[1..])
  }

  function Rousings(es: seq<Event>): nat {
    if es == [] then 0 else (if Rouses(es[0]) then 1 else 0) + Rousings(es[1..])
  }

  /** Over any run, from any state: the fruitless scans are at most the wakeups
      there were, and one, plus the signals sent and permits stored on the way. */
  lemma {:induction false} FruitlessScansArePaid(c: Config, s: State, es: seq<Event>)
    requires WellFormed(s) && Run(c, s, es).Some?
    ensures FruitlessScans(c, s, es) + Credit(Run(c, s, es).value) <= Credit(s) + SentIn(c, s, es)
    decreases |es|
  {
    if es != [] {
      WellFormedStep(c, s, es[0]);
      CreditStep(c, s, es[0]);
      FruitlessScansArePaid(c, Apply(c, s, es[0]), es[1..]);
    }
  }

  /** And these are at most the steps taken for tasks, the submissions accepted,
      the agents added and the recoveries. */
  lemma {:induction false} SentIsCaused(c: Config, s: State, es: seq<Event>)
    requires WellFormed(s) && Run(c, s, es).Some?
    ensures SentIn(c, s, es) <= ProgressSteps(c, s, es) + Accepted(s, Run(c, s, es).value) + Rousings(es)
    decreases |es|
  {
    if es != [] {
      WellFormedStep(c, s, es[0]);
      SentStep(c, s, es[0]);
      SentIsCaused(c, Apply(c, s, es[0]), es[1..]);
    }
  }

  /** From the pool's creation on, fruitless scans are bounded by the accepted
      tasks, the agents added and the recoveries. */
  lemma NoSpinning(c: Config, es: seq<Event>, s: State)
    requires Reaches(c, es, s)
    ensures FruitlessScans(c, Init(), es) <= 1 + (Budget(c) + 1) * |s.log.accepted| + Rousings(es)
  {
    FruitlessScansArePaid(c, Init(), es);
    SentIsCaused(c, Init(), es);
    StepsPerAcceptedTask(c, es, s);
    assert (Budget(c) + 1) * |s.log.accepted| == Budget(c) * |s.log.accepted| + |s.log.accepted|;
  }
}
