/** Every counter equals the number of tasks running on its agent and stays
    within `max_concurrent_per_agent`, although choosing an agent and counting
    a task on it are separate steps and although agents leave the pool. */
module PoolCapacity {
  import opened PoolModel
  import opened PoolRuns

  function On(r: Runner, a: nat): nat {
    if r.Executing? && r.agent == a then 1 else 0
  }

  /** How many spawned tasks hold agent `a` between their `fetch_add` and `fetch_sub`. */
  function RunningOn(rs: seq<Runner>, a: nat): nat {
    if rs == [] then 0 else On(rs[0], a) + RunningOn(rs[1..], a)
  }

  lemma {:induction false} RunningOnAppend(rs: seq<Runner>, r: Runner, a: nat)
    ensures RunningOn(rs + [r], a) == RunningOn(rs, a) + On(r, a)
  {
    if rs == [] {
      assert rs + [r] == [r];
    } else {
      assert (rs + [r])[1..] == rs[1..] + [r];
      RunningOnAppend(rs[1..], r, a);
    }
  }

  lemma {:induction false} RunningOnChange(rs: seq<Runner>, i: nat, r: Runner, a: nat)
    requires i < |rs|
    ensures RunningOn(rs[i := r], a) + On(rs[i], a) == RunningOn(rs, a) + On(r, a)
    ensures RunningOn(rs[..i] + rs[i + 1..], a) + On(rs[i], a) == RunningOn(rs, a)
  {
    if i == 0 {
      assert rs[0 := r][1..] == rs[1..];
      assert rs[..0] + rs[1..] == rs[1..];
    } else {
      assert rs[i := r][1..] == rs[1..][i - 1 := r];
      var rest := rs[..i] + rs[i + 1..];
      assert rest[0] == rs[0];
      assert rest[1..] == rs[1..][..i - 1] + rs[1..][i..];
      RunningOnChange(rs[1..], i - 1, r, a);
    }
  }

  lemma {:induction false} NoneRunningOnUnknown(rs: seq<Runner>, n: nat)
    requires RunnersKnown(rs, n)
    ensures RunningOn(rs, n) == 0
  {
    if rs != [] {
      assert RunnersKnown(rs[1..], n);
      NoneRunningOnUnknown(rs[1..], n);
    }
  }

  ghost predicate CountersExact(c: Config, hs: seq<Handle>, rs: seq<Runner>) {
    forall a | 0 <= a < |hs| :: hs[a].active == RunningOn(rs, a) <= c.maxConcurrent
  }

  /** An agent about to receive a task still has room for it. */
  ghost predicate RoomForDispatch(c: Config, hs: seq<Handle>, d: Dispatcher)
    requires DispatcherKnown(d, true, if d.Scanning? then d.next else 0, |hs|)
  {
    match d
    case Chosen(a, _) => hs[a].active < c.maxConcurrent
    case Scanning(_, Some(p)) => hs[p.agent].active <= p.load < c.maxConcurrent
    case _ => true
  }

  ghost predicate Capacity(c: Config, s: State)
    requires WellFormed(s)
  {
    CountersExact(c, s.handles, s.runners) && RoomForDispatch(c, s.handles, s.dispatcher)
  }

  lemma CapacityCount(c: Config, s: State)
    requires WellFormed(s) && Capacity(c, s) && s.dispatcher.Chosen?
    ensures CountersExact(c, CountedDispatch(s).handles, CountedDispatch(s).runners)
  {
    forall a | 0 <= a < |s.handles| {
      RunningOnAppend(s.runners, Executing(s.dispatcher.agent, s.dispatcher.task), a);
    }
  }

  lemma ReleaseIsCounted(c: Config, s: State, i: nat)
    requires WellFormed(s) && Capacity(c, s) && i < |s.runners| && s.runners[i].Executing?
    ensures s.handles[s.runners[i].agent].active > 0
  {
    RunningOnChange(s.runners, i, s.runners[i], s.runners[i].agent);
  }

  lemma CapacityRelease(c: Config, s: State, i: nat, ok: bool)
    requires WellFormed(s) && Capacity(c, s) && i < |s.runners| && s.runners[i].Executing?
    ensures s.handles[s.runners[i].agent].active > 0
    ensures CountersExact(c, ReleasedRunner(s, i, ok).handles, ReleasedRunner(s, i, ok).runners)
    ensures RoomForDispatch(c, ReleasedRunner(s, i, ok).handles, s.dispatcher)
  {
    ReleaseIsCounted(c, s, i);
    var s' := ReleasedRunner(s, i, ok);
    forall a | 0 <= a < |s.handles| ensures s'.handles[a].active == RunningOn(s'.runners, a) <= c.maxConcurrent {
      RunningOnChange(s.runners, i, s'.runners[i], a);
    }
  }

  lemma CapacitySettle(c: Config, s: State, i: nat)
    requires WellFormed(s) && Capacity(c, s) && i < |s.runners| && s.runners[i].Released?
    ensures CountersExact(c, s.handles, SettledRunner(c, s, i).runners)
    ensures CountersExact(c, s.handles, NotifiedIdle(s, i).runners)
  {
    forall a | 0 <= a < |s.handles| {
      RunningOnChange(s.runners, i, NotifiedIdle(s, i).runners[i], a);
    }
  }

  lemma CapacityFrame(c: Config, s: State, s': State)
    requires WellFormed(s) && Capacity(c, s) && WellFormed(s')
    requires s'.runners == s.runners && s'.dispatcher == s.dispatcher
    requires |s.handles| <= |s'.handles| <= |s.handles| + 1
    requires forall a | 0 <= a < |s.handles| :: s'.handles[a].active == s.handles[a].active
    requires forall a | |s.handles| <= a < |s'.handles| :: s'.handles[a].active == 0
    ensures Capacity(c, s')
  {
    NoneRunningOnUnknown(s.runners, |s.handles|);
  }

  lemma CapacityDispatcher(c: Config, s: State, e: Event)
    requires WellFormed(s) && Enabled(c, s, e) && Capacity(c, s) && MovesDispatcher(e)
    ensures WellFormed(Apply(c, s, e)) && Capacity(c, Apply(c, s, e))
  {
    WellFormedStep(c, s, e);
    if e.CountDispatch? {
      CapacityCount(c, s);
    }
  }

  lemma CapacityRunner(c: Config, s: State, e: Event)
    requires WellFormed(s) && Enabled(c, s, e) && Capacity(c, s) && (e.Release? || e.NotifyIdle? || e.Settle?)
    ensures WellFormed(Apply(c, s, e)) && Capacity(c, Apply(c, s, e))
  {
    WellFormedStep(c, s, e);
    match e
    case Release(i, ok) => CapacityRelease(c, s, i, ok);
    case NotifyIdle(i) => CapacitySettle(c, s, i);
    case Settle(i) => CapacitySettle(c, s, i);
  }

  lemma CapacityStep(c: Config, s: State, e: Event)
    requires WellFormed(s) && Enabled(c, s, e) && Capacity(c, s)
    ensures WellFormed(Apply(c, s, e)) && Capacity(c, Apply(c, s, e))
  {
    if MovesDispatcher(e) {
      CapacityDispatcher(c, s, e);
    } else if MovesRunner(e) {
      CapacityRunner(c, s, e);
    } else {
      WellFormedStep(c, s, e);
      Frame(c, s, e);
      FrameHandles(c, s, e);
      CapacityFrame(c, s, Apply(c, s, e));
    }
  }

  /** The counters never wrap: the `u32` arithmetic of `fetch_add` and `fetch_sub` is exact. */
  lemma CountersNeverWrap(c: Config, s: State, e: Event)
    requires WellFormed(s) && Enabled(c, s, e) && Capacity(c, s)
    ensures e.CountDispatch? ==>
              CountedDispatch(s).handles[s.dispatcher.agent].active == s.handles[s.dispatcher.agent].active + 1
    ensures e.Release? ==>
              var a := s.runners[e.runner].agent;
              Apply(c, s, e).handles[a].active == s.handles[a].active - 1
  {
    if e.Release? {
      CapacityRelease(c, s, e.runner, e.ok);
    }
  }
}
