/** Whole rounds of the drain loop: whom a round reads, whom it takes, who is
    gone after it and who stays. */
module PoolRounds {
  import opened Common
  import opened PoolModel
  import opened PoolRuns
  import opened PoolCapacity
  import opened PoolDrain

  predicate Reads(e: Event) { e.DrainReadHealth? || e.DrainReadLoad? }

  predicate BoundsRound(e: Event) { e.DrainSnapshot? || e.DrainNothing? || e.DrainRetain? }

  /** A reading that makes the agent a candidate: it is unhealthy, or it is
      draining and no task is counted on it. */
  predicate FindsBad(s: State, e: Event)
    requires s.drain.DrainScan? && s.drain.todo != [] && s.drain.todo[0] < |s.handles|
  {
    var h := s.handles[s.drain.todo[0]];
    (e.DrainReadHealth? && !h.healthy) || (e.DrainReadLoad? && h.draining && h.active == 0)
  }

  /** The last reading of the agent: it is a candidate, or it has been passed. */
  predicate ReadsOut(s: State, e: Event)
    requires s.drain.DrainScan? && s.drain.todo != [] && s.drain.todo[0] < |s.handles|
  {
    e.DrainReadLoad? || (e.DrainReadHealth? && !s.handles[s.drain.todo[0]].healthy)
  }

  function FoundAgents(found: seq<Candidate>): seq<nat> {
    seq(|found|, i requires 0 <= i < |found| => found[i].agent)
  }

  /** What one reading does, in terms of the cells it reads. */
  lemma ReadingMeans(c: Config, s: State, e: Event)
    requires WellFormed(s) && Enabled(c, s, e) && Reads(e)
    ensures var d, d' := s.drain, Apply(c, s, e).drain;
      && d'.DrainScan?
      && FoundAgents(d'.found) == FoundAgents(d.found) + (if FindsBad(s, e) then [d.todo[0]] else [])
      && d'.todo == (if ReadsOut(s, e) then d.todo[1..] else d.todo)
      && d'.healthRead == !ReadsOut(s, e)
  {
  }

  /** The agent this event reads out, and the one it takes. */
  function ReadBy(s: State, e: Event): (r: (seq<nat>, seq<nat>))
    requires Reads(e) ==> s.drain.DrainScan? && s.drain.todo != [] && s.drain.todo[0] < |s.handles|
  {
    if !Reads(e) then ([], [])
    else
      var a := s.drain.todo[0];
      (if ReadsOut(s, e) then [a] else [], if FindsBad(s, e) then [a] else [])
  }

  /** All agents read out, and all taken, in a run, in the order of the readings. */
  ghost function ReadIn(c: Config, s: State, es: seq<Event>): (seq<nat>, seq<nat>)
    requires WellFormed(s) && Run(c, s, es).Some?
    decreases |es|
  {
    if es == [] then ([], [])
    else
      WellFormedStep(c, s, es[0]);
      var (read, taken) := ReadIn(c, Apply(c, s, es[0]), es[1..]);
      (ReadBy(s, es[0]).0 + read, ReadBy(s, es[0]).1 + taken)
  }

  lemma OthersKeepDrain(c: Config, s: State, e: Event)
    requires WellFormed(s) && Enabled(c, s, e) && !Reads(e) && !BoundsRound(e)
    ensures Apply(c, s, e).drain == s.drain
  {
    FrameDrain(c, s, e);
  }

  lemma RoundStep(c: Config, s: State, e: Event)
    requires WellFormed(s) && Enabled(c, s, e) && s.drain.DrainScan? && !BoundsRound(e)
    ensures var d, d' := s.drain, Apply(c, s, e).drain;
      && d'.DrainScan?
      && ReadBy(s, e).0 + d'.todo == d.todo
      && FoundAgents(d'.found) == FoundAgents(d.found) + ReadBy(s, e).1
  {
    if Reads(e) {
      ReadingMeans(c, s, e);
    } else {
      OthersKeepDrain(c, s, e);
    }
  }

  /** Within a round the snapshot is read agent by agent, and the candidates are
      exactly the agents whose reading found them unhealthy, or draining and idle. */
  lemma {:induction false} RoundFindsBad(c: Config, s: State, es: seq<Event>)
    requires WellFormed(s) && s.drain.DrainScan? && Run(c, s, es).Some?
    requires forall i | 0 <= i < |es| :: !BoundsRound(es[i])
    ensures var d := Run(c, s, es).value.drain;
      && d.DrainScan?
      && ReadIn(c, s, es).0 + d.todo == s.drain.todo
      && FoundAgents(d.found) == FoundAgents(s.drain.found) + ReadIn(c, s, es).1
    decreases |es|
  {
    if es != [] {
      WellFormedStep(c, s, es[0]);
      RoundStep(c, s, es[0]);
      var s1 := Apply(c, s, es[0]);
      RoundFindsBad(c, s1, es[1..]);
      var (read, taken) := ReadIn(c, s1, es[1..]);
      Regroup(ReadBy(s, es[0]).0, read, Run(c, s, es).value.drain.todo);
      Regroup(FoundAgents(s.drain.found), ReadBy(s, es[0]).1, taken);
    }
  }

  // ----- Who is taken -----

  /** `a` is a candidate, or its reading is still to come. */
  ghost predicate Pending(s: State, a: nat) {
    s.drain.DrainScan? &&
    (a in FoundAgents(s.drain.found) || (a in s.drain.todo && (s.drain.healthRead ==> s.drain.todo[0] != a)))
  }

  /** Until it has been read, `a` is unhealthy. */
  ghost predicate SickUntilRead(c: Config, s: State, es: seq<Event>, a: nat)
    requires WellFormed(s) && Run(c, s, es).Some? && a < |s.handles|
    decreases |es|
  {
    && (s.drain.DrainScan? && a in s.drain.todo ==> !s.handles[a].healthy)
    && (es == [] ||
        (WellFormedStep(c, s, es[0]);
         FrameEvolves(c, s, es[0]);
         SickUntilRead(c, Apply(c, s, es[0]), es[1..], a)))
  }

  lemma SickStaysPending(c: Config, s: State, e: Event, a: nat)
    requires WellFormed(s) && Enabled(c, s, e) && !BoundsRound(e) && Pending(s, a) && a < |s.handles|
    requires a in s.drain.todo ==> !s.handles[a].healthy
    ensures Pending(Apply(c, s, e), a)
  {
    if Reads(e) {
      ReadingMeans(c, s, e);
      assert s.drain.todo == [s.drain.todo[0]] + s.drain.todo[1..];
    } else {
      OthersKeepDrain(c, s, e);
    }
  }

  lemma {:induction false} SickIsTaken(c: Config, s: State, es: seq<Event>, a: nat)
    requires WellFormed(s) && Run(c, s, es).Some? && a < |s.handles| && Pending(s, a)
    requires forall i | 0 <= i < |es| :: !BoundsRound(es[i])
    requires SickUntilRead(c, s, es, a)
    ensures Pending(Run(c, s, es).value, a)
    decreases |es|
  {
    if es != [] {
      WellFormedStep(c, s, es[0]);
      FrameEvolves(c, s, es[0]);
      SickStaysPending(c, s, es[0], a);
      SickIsTaken(c, Apply(c, s, es[0]), es[1..], a);
    }
  }

  /** A round from its snapshot on; `es` is what happens until the candidates are removed. */
  ghost predicate WholeRound(c: Config, s: State, es: seq<Event>)
    requires WellFormed(s)
  {
    && Enabled(c, s, DrainSnapshot)
    && (forall i | 0 <= i < |es| :: !BoundsRound(es[i]))
    && (WellFormedStep(c, s, DrainSnapshot);
        var r := Run(c, Apply(c, s, DrainSnapshot), es);
        r.Some? && r.value.drain.DrainScan? && r.value.drain.todo == [])
  }

  ghost function RoundEnd(c: Config, s: State, es: seq<Event>): (r: State)
    requires WellFormed(s) && WholeRound(c, s, es)
    ensures WellFormed(r)
  {
    WellFormedStep(c, s, DrainSnapshot);
    Run(c, Apply(c, s, DrainSnapshot), es).value
  }

  lemma CandidateLeaves(c: Config, s: State, a: nat)
    requires WellFormed(s) && s.drain.DrainScan? && s.drain.todo == [] && a in FoundAgents(s.drain.found)
    ensures !Enabled(c, s, DrainNothing)
    ensures Enabled(c, s, DrainRetain) ==> a !in Apply(c, s, DrainRetain).agents
  {
    var i :| 0 <= i < |s.drain.found| && FoundAgents(s.drain.found)[i] == a;
    RetainedIsFilter(s.handles, s.drain.found, s.agents);
    assert NamedBy(s.handles, s.drain.found, a);
  }

  lemma SnapshotIsPending(c: Config, s: State, a: nat)
    requires WellFormed(s) && Enabled(c, s, DrainSnapshot) && a in s.agents
    ensures WellFormed(Apply(c, s, DrainSnapshot)) && Pending(Apply(c, s, DrainSnapshot), a) && a < |s.handles|
  {
    WellFormedStep(c, s, DrainSnapshot);
    var k :| 0 <= k < |s.agents| && s.agents[k] == a;
  }

  /** An agent that is unhealthy from the snapshot until it is read is not in
      the pool after the round, busy or not, marked or not. */
  lemma SickAgentsLeave(c: Config, s: State, es: seq<Event>, a: nat)
    requires WellFormed(s) && WholeRound(c, s, es) && a in s.agents
    requires WellFormed(Apply(c, s, DrainSnapshot)) && a < |s.handles|
    requires SickUntilRead(c, Apply(c, s, DrainSnapshot), es, a)
    ensures var s' := RoundEnd(c, s, es);
            !Enabled(c, s', DrainNothing) && (Enabled(c, s', DrainRetain) ==> a !in Apply(c, s', DrainRetain).agents)
  {
    SnapshotIsPending(c, s, a);
    SickIsTaken(c, Apply(c, s, DrainSnapshot), es, a);
    CandidateLeaves(c, RoundEnd(c, s, es), a);
  }

  // ----- Draining and quiet -----

  /** `a` is a candidate, or still in the snapshot. */
  ghost predicate Unpassed(s: State, a: nat) {
    s.drain.DrainScan? && (a in FoundAgents(s.drain.found) || a in s.drain.todo)
  }

  lemma QuietIsIdle(c: Config, s: State, a: nat)
    requires WellFormed(s) && Capacity(c, s) && Quiesced(s, a, None)
    ensures s.handles[a].draining && s.handles[a].active == 0
  {
  }

  lemma QuietStaysUnpassed(c: Config, s: State, e: Event, a: nat)
    requires WellFormed(s) && Capacity(c, s) && Enabled(c, s, e) && !BoundsRound(e)
    requires Unpassed(s, a) && Quiesced(s, a, None)
    ensures Unpassed(Apply(c, s, e), a)
  {
    QuietIsIdle(c, s, a);
    if Reads(e) {
      ReadingMeans(c, s, e);
      assert s.drain.todo == [s.drain.todo[0]] + s.drain.todo[1..];
    } else {
      OthersKeepDrain(c, s, e);
    }
  }

  lemma {:induction false} QuietIsTaken(c: Config, s: State, es: seq<Event>, a: nat)
    requires WellFormed(s) && Capacity(c, s) && Run(c, s, es).Some?
    requires forall i | 0 <= i < |es| :: !BoundsRound(es[i])
    requires Unpassed(s, a) && Quiesced(s, a, None)
    ensures Unpassed(Run(c, s, es).value, a)
    decreases |es|
  {
    if es != [] {
      QuietStaysUnpassed(c, s, es[0], a);
      CapacityStep(c, s, es[0]);
      QuiescedStep(c, s, es[0], a, None);
      QuietIsTaken(c, Apply(c, s, es[0]), es[1..], a);
    }
  }

  /** A draining agent with nothing running on it and no dispatch held for it at
      the snapshot is not in the pool after the round. */
  lemma QuietAgentsLeave(c: Config, s: State, es: seq<Event>, a: nat)
    requires WellFormed(s) && Capacity(c, s) && WholeRound(c, s, es) && a in s.agents && Quiesced(s, a, None)
    ensures var s' := RoundEnd(c, s, es);
            !Enabled(c, s', DrainNothing) && (Enabled(c, s', DrainRetain) ==> a !in Apply(c, s', DrainRetain).agents)
  {
    SnapshotIsPending(c, s, a);
    CapacityStep(c, s, DrainSnapshot);
    QuiescedStep(c, s, DrainSnapshot, a, None);
    QuietIsTaken(c, Apply(c, s, DrainSnapshot), es, a);
    CandidateLeaves(c, RoundEnd(c, s, es), a);
  }

  // ----- Who stays -----

  /** Until it has been read, `a` is healthy, and not draining or at work. */
  ghost predicate FitUntilRead(c: Config, s: State, es: seq<Event>, a: nat)
    requires WellFormed(s) && Run(c, s, es).Some? && a < |s.handles|
    decreases |es|
  {
    && (s.drain.DrainScan? && a in s.drain.todo ==>
          s.handles[a].healthy && (!s.handles[a].draining || s.handles[a].active > 0))
    && (es == [] ||
        (WellFormedStep(c, s, es[0]);
         FrameEvolves(c, s, es[0]);
         FitUntilRead(c, Apply(c, s, es[0]), es[1..], a)))
  }

  /** Nothing with the id of `a`, but possibly `a` itself, is to be read, and no candidate has it. */
  ghost predicate Spared(s: State, a: nat) {
    && s.drain.DrainScan? && a < |s.handles|
    && (forall k | 0 <= k < |s.drain.todo| && s.drain.todo[k] < |s.handles| && s.drain.todo[k] != a ::
          s.handles[s.drain.todo[k]].id != s.handles[a].id)
    && (forall i | 0 <= i < |s.drain.found| && s.drain.found[i].agent < |s.handles| ::
          s.handles[s.drain.found[i].agent].id != s.handles[a].id)
  }

  lemma SparedReading(c: Config, s: State, e: Event, a: nat)
    requires WellFormed(s) && Enabled(c, s, e) && Reads(e) && Spared(s, a)
    requires a in s.drain.todo ==> s.handles[a].healthy && (!s.handles[a].draining || s.handles[a].active > 0)
    ensures Spared(Apply(c, s, e), a)
  {
    assert !FindsBad(s, e) || s.drain.todo[0] != a;
  }

  lemma SparedStep(c: Config, s: State, e: Event, a: nat)
    requires WellFormed(s) && Enabled(c, s, e) && !BoundsRound(e) && Spared(s, a)
    requires a in s.drain.todo ==> s.handles[a].healthy && (!s.handles[a].draining || s.handles[a].active > 0)
    ensures Spared(Apply(c, s, e), a)
  {
    if Reads(e) {
      SparedReading(c, s, e, a);
    } else {
      OthersKeepDrain(c, s, e);
      FrameEvolves(c, s, e);
    }
  }

  lemma {:induction false} FitIsSpared(c: Config, s: State, es: seq<Event>, a: nat)
    requires WellFormed(s) && Run(c, s, es).Some? && Spared(s, a)
    requires forall i | 0 <= i < |es| :: !BoundsRound(es[i])
    requires FitUntilRead(c, s, es, a)
    ensures Spared(Run(c, s, es).value, a)
    decreases |es|
  {
    if es != [] {
      WellFormedStep(c, s, es[0]);
      FrameEvolves(c, s, es[0]);
      SparedStep(c, s, es[0], a);
      FitIsSpared(c, Apply(c, s, es[0]), es[1..], a);
    }
  }

  lemma SnapshotSpares(c: Config, s: State, a: nat)
    requires WellFormed(s) && Enabled(c, s, DrainSnapshot) && a in s.agents
    ensures Spared(Apply(c, s, DrainSnapshot), a)
  {
    var j :| 0 <= j < |s.agents| && s.agents[j] == a;
  }

  lemma SparedStays(c: Config, s: State, a: nat)
    requires WellFormed(s) && Enabled(c, s, DrainRetain) && Spared(s, a) && a in s.agents
    ensures a in Apply(c, s, DrainRetain).agents
  {
    RetainedIsFilter(s.handles, s.drain.found, s.agents);
  }

  /** An agent that is fit from the snapshot until it is read is not removed by the round. */
  lemma FitAgentsStay(c: Config, s: State, es: seq<Event>, a: nat)
    requires WellFormed(s) && WholeRound(c, s, es) && a in s.agents
    requires WellFormed(Apply(c, s, DrainSnapshot)) && a < |s.handles|
    requires FitUntilRead(c, Apply(c, s, DrainSnapshot), es, a)
    ensures var s' := RoundEnd(c, s, es);
            Enabled(c, s', DrainRetain) && a in s'.agents ==> a in Apply(c, s', DrainRetain).agents
  {
    SnapshotSpares(c, s, a);
    FitIsSpared(c, Apply(c, s, DrainSnapshot), es, a);
    var s' := RoundEnd(c, s, es);
    if Enabled(c, s', DrainRetain) && a in s'.agents {
      SparedStays(c, s', a);
    }
  }
}
