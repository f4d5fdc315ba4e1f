/** What shutdown's rejection of the queue achieves: whether a task can still
    enter the queue afterwards, and so be left without an answer once the
    agents are gone. */
module PoolShutdown {
  import opened Common
  import opened PoolModel
  import opened PoolRuns
  import opened PoolFrames

  /** Rejecting the queue empties it and answers every task that was in it, in
      order, that the pool is shutting down; nothing else changes. */
  lemma RejectionAnswersAll(c: Config, s: State)
    requires WellFormed(s) && Enabled(c, s, RejectQueued)
    ensures var s' := Apply(c, s, RejectQueued);
      && s'.queue == [] && Rejected(s')
      && |s'.log.answers| == |s.log.answers| + |s.queue| && s.log.answers <= s'.log.answers
      && (forall i | 0 <= i < |s.queue| ::
            s'.log.answers[|s.log.answers| + i] == Answer(s.queue[i].frame, ShuttingDown))
      && s' == s.(queue := [], log := s'.log)
  {
    RejectionFrames(s.queue);
  }

  predicate RetriesLeft(c: Config, t: Task) { t.retries < c.maxRetries }

  predicate MayRequeue(c: Config, r: Runner) { RetriesLeft(c, r.task) && (r.Executing? || !r.ok) }

  /** A submitter past the shutdown check, or a task in flight with a retry left. */
  ghost predicate Refillable(c: Config, s: State) {
    || (c.maxQueue > 0 && (s.checked > 0 || s.arriving != {}))
    || (s.dispatcher.Chosen? && RetriesLeft(c, s.dispatcher.task))
    || (exists i | 0 <= i < |s.runners| :: MayRequeue(c, s.runners[i]))
  }

  ghost predicate Rejected(s: State) { s.shuttingDown && s.queue == [] }

  lemma RunnerStaysDrained(c: Config, s: State, e: Event)
    requires WellFormed(s) && Enabled(c, s, e) && Rejected(s) && !Refillable(c, s) && MovesRunner(e)
    ensures Rejected(Apply(c, s, e)) && !Refillable(c, Apply(c, s, e))
  {
    var s' := Apply(c, s, e);
    match e
    case Settle(j) =>
      forall i | 0 <= i < |s'.runners| ensures !MayRequeue(c, s'.runners[i]) {
        assert s'.runners[i] == s.runners[if i < j then i else i + 1];
      }
    case Release(j, ok) =>
      forall i | 0 <= i < |s'.runners| ensures !MayRequeue(c, s'.runners[i]) {
        assert !MayRequeue(c, s.runners[i]);
      }
    case NotifyIdle(j) =>
      forall i | 0 <= i < |s'.runners| ensures !MayRequeue(c, s'.runners[i]) {
        assert !MayRequeue(c, s.runners[i]);
      }
    case CountDispatch =>
  }

  lemma StaysDrained(c: Config, s: State, e: Event)
    requires WellFormed(s) && Enabled(c, s, e) && Rejected(s) && !Refillable(c, s)
    ensures Rejected(Apply(c, s, e)) && !Refillable(c, Apply(c, s, e))
  {
    if MovesRunner(e) {
      RunnerStaysDrained(c, s, e);
    } else {
      Frame(c, s, e);
    }
  }

  ghost predicate CanFill(c: Config, s: State)
    requires WellFormed(s)
  {
    exists es :: var r := Run(c, s, es); r.Some? && r.value.queue != []
  }

  lemma CanFillLater(c: Config, s: State, e: Event)
    requires WellFormed(s) && Enabled(c, s, e)
    requires WellFormed(Apply(c, s, e)) && CanFill(c, Apply(c, s, e))
    ensures CanFill(c, s)
  {
    var es :| var r := Run(c, Apply(c, s, e), es); r.Some? && r.value.queue != [];
    RunStep(c, s, e, es);
    assert Run(c, s, [e] + es).Some?;
  }

  lemma CanFillNow(c: Config, s: State)
    requires WellFormed(s) && s.queue != []
    ensures CanFill(c, s)
  {
    assert Run(c, s, []) == Some(s);
  }

  lemma SubmitterCanFill(c: Config, s: State)
    requires WellFormed(s) && s.queue == [] && c.maxQueue > 0 && (s.checked > 0 || s.arriving != {})
    ensures CanFill(c, s)
    decreases s.arriving == {}
  {
    if s.arriving != {} {
      var f :| f in s.arriving;
      WellFormedStep(c, s, Enqueue(f));
      CanFillNow(c, Apply(c, s, Enqueue(f)));
      CanFillLater(c, s, Enqueue(f));
    } else {
      WellFormedStep(c, s, TakeFrameId);
      SubmitterCanFill(c, Apply(c, s, TakeFrameId));
      CanFillLater(c, s, TakeFrameId);
    }
  }

  /** A runner with a retry left may fail, notify and requeue. */
  lemma RunnerCanFill(c: Config, s: State, i: nat)
    requires WellFormed(s) && s.queue == [] && i < |s.runners| && MayRequeue(c, s.runners[i])
    ensures CanFill(c, s)
    decreases s.runners[i].Executing?, s.runners[i].Released? && s.runners[i].owes
  {
    var r := s.runners[i];
    var e := if r.Executing? then Release(i, false) else if r.owes then NotifyIdle(i) else Settle(i);
    WellFormedStep(c, s, e);
    if e.Settle? {
      CanFillNow(c, Apply(c, s, e));
    } else {
      RunnerCanFill(c, Apply(c, s, e), i);
    }
    CanFillLater(c, s, e);
  }

  lemma ChosenCanFill(c: Config, s: State)
    requires WellFormed(s) && s.queue == [] && s.dispatcher.Chosen? && RetriesLeft(c, s.dispatcher.task)
    ensures CanFill(c, s)
  {
    WellFormedStep(c, s, CountDispatch);
    RunnerCanFill(c, CountedDispatch(s), |s.runners|);
    CanFillLater(c, s, CountDispatch);
  }

  lemma {:induction false} NeverFills(c: Config, s: State, es: seq<Event>)
    requires WellFormed(s) && Rejected(s) && !Refillable(c, s) && Run(c, s, es).Some?
    ensures Rejected(Run(c, s, es).value)
    decreases |es|
  {
    if es != [] {
      WellFormedStep(c, s, es[0]);
      StaysDrained(c, s, es[0]);
      NeverFills(c, Apply(c, s, es[0]), es[1..]);
    }
  }

  /** After shutdown has emptied the queue, some later state has a task in it
      again if and only if a submitter or a retry was still on its way. */
  lemma QueueRefillsIff(c: Config, s: State)
    requires WellFormed(s) && Rejected(s)
    ensures CanFill(c, s) <==> Refillable(c, s)
  {
    if Refillable(c, s) {
      if c.maxQueue > 0 && (s.checked > 0 || s.arriving != {}) {
        SubmitterCanFill(c, s);
      } else if s.dispatcher.Chosen? && RetriesLeft(c, s.dispatcher.task) {
        ChosenCanFill(c, s);
      } else {
        var i :| 0 <= i < |s.runners| && MayRequeue(c, s.runners[i]);
        RunnerCanFill(c, s, i);
      }
    } else if CanFill(c, s) {
      var es :| var r := Run(c, s, es); r.Some? && r.value.queue != [];
      NeverFills(c, s, es);
      assert false;
    }
  }
}
