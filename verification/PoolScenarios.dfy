/** Stretches of runs, for showing what the pool can reach. */
module PoolScenarios {
  import opened Common
  import opened PoolModel
  import opened PoolRuns

  /** What an undisturbed scan carries when it has read the agents from `next` on. */
  function ScanResult(c: Config, hs: seq<Handle>, agents: seq<nat>, next: nat, best: Option<Pick>): Option<Pick>
    requires Below(agents, |hs|) && next <= |agents|
    decreases |agents| - next
  {
    if next == |agents| then best
    else ScanResult(c, hs, agents, next + 1, Better(c, hs[agents[next]], agents[next], best))
  }

  lemma {:induction false} ScanAll(c: Config, es: seq<Event>, s: State) returns (es': seq<Event>, s': State)
    requires WellFormed(s) && Reaches(c, es, s) && s.dispatcher.Scanning?
    ensures WellFormed(s') && Reaches(c, es', s')
    ensures var d := s.dispatcher;
            s' == s.(dispatcher := Scanning(|s.agents|, ScanResult(c, s.handles, s.agents, d.next, d.best)))
    decreases |s.agents| - s.dispatcher.next
  {
    es', s' := es, s;
    if s.dispatcher.next < |s.agents| {
      es', s' := Extend(c, es, s, ScanNext);
      es', s' := ScanAll(c, es', s');
    }
  }

  /** One frame submitted to an empty queue. */
  function WithFrame(s: State): State {
    s.(nextFrame := s.nextFrame + 1, queue := [Task(s.nextFrame, 0)], signals := s.signals + 1,
       log := s.log.(accepted := s.log.accepted + [s.nextFrame], entered := s.log.entered + [Task(s.nextFrame, 0)]))
  }

  lemma SubmitFrame(c: Config, es: seq<Event>, s: State) returns (es': seq<Event>, s': State)
    requires WellFormed(s) && Reaches(c, es, s) && c.maxQueue >= 1
    requires s.queue == [] && !s.shuttingDown && s.nextFrame !in s.arriving && Unlocked(s)
    ensures WellFormed(s') && Reaches(c, es', s') && s' == WithFrame(s)
  {
    es', s' := Extend(c, es, s, PassOpenCheck);
    es', s' := Extend(c, es', s', TakeFrameId);
    es', s' := Extend(c, es', s', Enqueue(s.nextFrame));
    assert s'.arriving == s.arriving;
  }

  lemma ScanOnce(c: Config, es: seq<Event>, s: State) returns (es': seq<Event>, s': State)
    requires WellFormed(s) && Reaches(c, es, s) && s.dispatcher.Awake? && s.queue != []
    ensures WellFormed(s') && Reaches(c, es', s')
    ensures s' == ScanEnded(s.(dispatcher := Scanning(|s.agents|, ScanResult(c, s.handles, s.agents, 0, None))))
  {
    es', s' := Extend(c, es, s, CheckQueue);
    es', s' := ScanAll(c, es', s');
    es', s' := Extend(c, es', s', ScanEnd);
  }

  /** Submits a frame to an idle dispatcher and dispatches it to agent `a`. */
  lemma SubmitAndDispatch(c: Config, es: seq<Event>, s: State, a: nat, load: u32) returns (es': seq<Event>, s': State)
    requires WellFormed(s) && Reaches(c, es, s) && c.maxQueue >= 1 && s.dispatcher.Awake?
    requires s.queue == [] && !s.shuttingDown && s.nextFrame !in s.arriving
    requires ScanResult(c, s.handles, s.agents, 0, None) == Some(Pick(a, load)) && a < |s.handles|
    ensures WellFormed(s') && Reaches(c, es', s') && s'.dispatcher.Awake? && s'.queue == []
    ensures s'.handles == s.handles[a := s.handles[a].(active := WrappingInc(s.handles[a].active))]
    ensures s'.runners == s.runners + [Executing(a, Task(s.nextFrame, 0))]
    ensures s'.agents == s.agents && s'.nextFrame == s.nextFrame + 1 && s'.arriving == s.arriving
    ensures s'.health == s.health && s'.drain == s.drain && s'.shuttingDown == s.shuttingDown
  {
    es', s' := SubmitFrame(c, es, s);
    es', s' := ScanOnce(c, es', s');
    es', s' := Extend(c, es', s', CountDispatch);
  }

  /** A dispatcher that found no agent goes through every wakeup in store and
      sleeps for good. */
  lemma {:induction false} SleepFast(c: Config, es: seq<Event>, s: State) returns (es': seq<Event>, s': State)
    requires WellFormed(s) && Reaches(c, es, s) && s.dispatcher.AgentWait? && s.queue != []
    requires ScanResult(c, s.handles, s.agents, 0, None) == None
    ensures WellFormed(s') && Reaches(c, es', s') && s' == s.(signals := 0, permit := false)
    decreases s.signals, s.permit
  {
    es', s' := es, s;
    if s.permit || s.signals > 0 {
      es', s' := Extend(c, es, s, if s.permit then WakeByPermit else WakeBySignal);
      es', s' := ScanOnce(c, es', s');
      es', s' := SleepFast(c, es', s');
    }
  }
}
