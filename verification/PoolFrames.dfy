/** Where the frames are: every accepted frame is in exactly one place, first
    attempts leave the queue in the order they were accepted, and intake is
    bounded. */
module PoolFrames {
  import opened Common
  import opened PoolModel
  import opened PoolRuns

  function QueueFrames(q: seq<Task>): seq<nat> { seq(|q|, i requires 0 <= i < |q| => q[i].frame) }

  function RunnerFrames(rs: seq<Runner>): seq<nat> { seq(|rs|, i requires 0 <= i < |rs| => rs[i].task.frame) }

  function AnswerFrames(ans: seq<Answer>): seq<nat> { seq(|ans|, i requires 0 <= i < |ans| => ans[i].frame) }

  function ChosenFrames(d: Dispatcher): seq<nat> { if d.Chosen? then [d.task.frame] else [] }

  /** How often each frame occurs, over all the places a frame can be. */
  function Places(q: seq<Task>, d: Dispatcher, rs: seq<Runner>, ans: seq<Answer>): multiset<nat> {
    multiset(QueueFrames(q)) + multiset(ChosenFrames(d)) + multiset(RunnerFrames(rs)) + multiset(AnswerFrames(ans))
  }

  function Whereabouts(s: State): multiset<nat> {
    Places(s.queue, s.dispatcher, s.runners, s.log.answers)
  }

  /** Frame ids are handed out once: no accepted id is still on its way to the queue. */
  ghost predicate FreshIds(arriving: set<nat>, nextFrame: nat, accepted: seq<nat>) {
    && (forall f :: f in arriving ==> f < nextFrame && f !in accepted)
    && (forall f :: f in accepted ==> f < nextFrame)
    && (forall i, j :: 0 <= i < j < |accepted| ==> accepted[i] != accepted[j])
  }

  ghost predicate Conserved(s: State) {
    FreshIds(s.arriving, s.nextFrame, s.log.accepted) && Whereabouts(s) == multiset(s.log.accepted)
  }

  // ----- Conservation, step by step -----

  lemma PlacesOfPush(q: seq<Task>, t: Task, d: Dispatcher, rs: seq<Runner>, ans: seq<Answer>)
    ensures Places(q + [t], d, rs, ans) == Places(q, d, rs, ans) + multiset{t.frame}
  {
    assert QueueFrames(q + [t]) == QueueFrames(q) + [t.frame];
  }

  lemma PlacesOfChoice(q: seq<Task>, d: Dispatcher, a: nat, rs: seq<Runner>, ans: seq<Answer>)
    requires q != [] && !d.Chosen?
    ensures Places(q[1..], Chosen(a, q[0]), rs, ans) == Places(q, d, rs, ans)
  {
    assert QueueFrames(q) == [q[0].frame] + QueueFrames(q[1..]);
  }

  lemma PlacesOfSpawn(q: seq<Task>, a: nat, t: Task, rs: seq<Runner>, ans: seq<Answer>)
    ensures Places(q, Awake, rs + [Executing(a, t)], ans) == Places(q, Chosen(a, t), rs, ans)
  {
    assert RunnerFrames(rs + [Executing(a, t)]) == RunnerFrames(rs) + [t.frame];
  }

  lemma PlacesOfExit(q: seq<Task>, d: Dispatcher, rs: seq<Runner>, i: nat, ans: seq<Answer>)
    requires i < |rs|
    ensures Places(q, d, rs, ans) == Places(q, d, rs[..i] + rs[i + 1..], ans) + multiset{rs[i].task.frame}
  {
    TakeOne(RunnerFrames(rs), i);
    assert RunnerFrames(rs[..i] + rs[i + 1..]) == RunnerFrames(rs)[..i] + RunnerFrames(rs)[i + 1..];
  }

  lemma PlacesOfAnswer(q: seq<Task>, d: Dispatcher, rs: seq<Runner>, ans: seq<Answer>, a: Answer)
    ensures Places(q, d, rs, ans + [a]) == Places(q, d, rs, ans) + multiset{a.frame}
  {
    assert AnswerFrames(ans + [a]) == AnswerFrames(ans) + [a.frame];
  }

  lemma PlacesOfRejection(q: seq<Task>, d: Dispatcher, rs: seq<Runner>, ans: seq<Answer>)
    ensures Places([], d, rs, ans + Rejections(q)) == Places(q, d, rs, ans)
  {
    RejectionFrames(q);
    assert AnswerFrames(ans + Rejections(q)) == AnswerFrames(ans) + QueueFrames(q);
  }

  lemma {:induction false} RejectionFrames(q: seq<Task>)
    ensures |Rejections(q)| == |q|
    ensures forall i | 0 <= i < |q| :: Rejections(q)[i] == Answer(q[i].frame, ShuttingDown)
  {
    if q != [] {
      RejectionFrames(q[1..]);
    }
  }

  lemma FreshEnqueue(arriving: set<nat>, nextFrame: nat, accepted: seq<nat>, frame: nat)
    requires FreshIds(arriving, nextFrame, accepted) && frame in arriving
    ensures FreshIds(arriving - {frame}, nextFrame, accepted)
    ensures FreshIds(arriving - {frame}, nextFrame, accepted + [frame])
  {
  }

  lemma EnqueueConserves(c: Config, s: State, frame: nat)
    requires Conserved(s) && frame in s.arriving
    ensures Conserved(Enqueued(c, s, frame))
  {
    FreshEnqueue(s.arriving, s.nextFrame, s.log.accepted, frame);
    PlacesOfPush(s.queue, Task(frame, 0), s.dispatcher, s.runners, s.log.answers);
  }

  lemma ScanEndConserves(s: State)
    requires WellFormed(s) && Conserved(s) && s.dispatcher.Scanning?
    ensures Conserved(ScanEnded(s))
  {
    if s.dispatcher.best.Some? {
      PlacesOfChoice(s.queue, s.dispatcher, s.dispatcher.best.value.agent, s.runners, s.log.answers);
    }
  }

  lemma CountConserves(s: State)
    requires WellFormed(s) && Conserved(s) && s.dispatcher.Chosen?
    ensures Conserved(CountedDispatch(s))
  {
    PlacesOfSpawn(s.queue, s.dispatcher.agent, s.dispatcher.task, s.runners, s.log.answers);
  }

  lemma RejectConserves(s: State)
    requires Conserved(s)
    ensures Conserved(RejectedQueued(s))
  {
    PlacesOfRejection(s.queue, s.dispatcher, s.runners, s.log.answers);
  }

  lemma RunnerConserves(c: Config, s: State, i: nat, ok: bool)
    requires WellFormed(s) && Conserved(s) && i < |s.runners|
    ensures s.runners[i].Executing? ==> Conserved(ReleasedRunner(s, i, ok))
    ensures s.runners[i].Released? ==> Conserved(NotifiedIdle(s, i))
  {
    if s.runners[i].Executing? {
      assert RunnerFrames(ReleasedRunner(s, i, ok).runners) == RunnerFrames(s.runners);
    } else {
      assert RunnerFrames(NotifiedIdle(s, i).runners) == RunnerFrames(s.runners);
    }
  }

  lemma RequeueKeepsPlaces(s: State, i: nat, t: Task)
    requires i < |s.runners| && s.runners[i].task.frame == t.frame
    ensures Places(s.queue + [t], s.dispatcher, s.runners[..i] + s.runners[i + 1..], s.log.answers) == Whereabouts(s)
  {
    PlacesOfExit(s.queue, s.dispatcher, s.runners, i, s.log.answers);
    PlacesOfPush(s.queue, t, s.dispatcher, s.runners[..i] + s.runners[i + 1..], s.log.answers);
  }

  lemma AnswerKeepsPlaces(s: State, i: nat, a: Answer)
    requires i < |s.runners| && s.runners[i].task.frame == a.frame
    ensures Places(s.queue, s.dispatcher, s.runners[..i] + s.runners[i + 1..], s.log.answers + [a]) == Whereabouts(s)
  {
    PlacesOfExit(s.queue, s.dispatcher, s.runners, i, s.log.answers);
    PlacesOfAnswer(s.queue, s.dispatcher, s.runners[..i] + s.runners[i + 1..], s.log.answers, a);
  }

  lemma SettleConserves(c: Config, s: State, i: nat)
    requires Conserved(s) && i < |s.runners| && s.runners[i].Released?
    ensures Conserved(SettledRunner(c, s, i))
  {
    var r := s.runners[i];
    if Requeues(c, r) {
      RequeueKeepsPlaces(s, i, Task(r.task.frame, r.task.retries + 1));
    } else {
      AnswerKeepsPlaces(s, i, Answer(r.task.frame, if r.ok then Done else MaxRetriesExceeded(r.task.retries)));
    }
  }

  lemma OthersKeepPlaces(c: Config, s: State, e: Event)
    requires WellFormed(s) && Enabled(c, s, e) && !MovesQueue(e) && !MovesRunner(e)
    ensures Whereabouts(Apply(c, s, e)) == Whereabouts(s)
  {
    Frame(c, s, e);
    if MovesDispatcher(e) {
      assert ChosenFrames(s.dispatcher) == ChosenFrames(Apply(c, s, e).dispatcher) == [];
    }
  }

  lemma OthersKeepFresh(c: Config, s: State, e: Event)
    requires WellFormed(s) && Enabled(c, s, e) && !MovesQueue(e) && !MovesRunner(e)
    requires FreshIds(s.arriving, s.nextFrame, s.log.accepted)
    ensures var s' := Apply(c, s, e); FreshIds(s'.arriving, s'.nextFrame, s'.log.accepted)
  {
    Frame(c, s, e);
    if !e.TakeFrameId? {
      assert Apply(c, s, e).arriving == s.arriving && Apply(c, s, e).nextFrame == s.nextFrame;
    }
  }

  lemma ConservedStep(c: Config, s: State, e: Event)
    requires WellFormed(s) && Enabled(c, s, e) && Conserved(s)
    ensures Conserved(Apply(c, s, e))
  {
    if !MovesQueue(e) && !MovesRunner(e) {
      OthersKeepPlaces(c, s, e);
      OthersKeepFresh(c, s, e);
      Frame(c, s, e);
    } else {
      match e
      case Enqueue(frame) => EnqueueConserves(c, s, frame);
      case RejectQueued => RejectConserves(s);
      case ScanEnd => ScanEndConserves(s);
      case CountDispatch => CountConserves(s);
      case Release(i, ok) => RunnerConserves(c, s, i, ok);
      case NotifyIdle(i) => RunnerConserves(c, s, i, true);
      case Settle(i) => SettleConserves(c, s, i);
    }
  }

  /** Exactly one place per accepted frame, none for any other; so no frame is
      answered twice, and none is answered and still at work. */
  lemma ExactlyOnePlace(s: State, f: nat)
    requires Conserved(s)
    ensures multiset(QueueFrames(s.queue))[f] + multiset(ChosenFrames(s.dispatcher))[f]
            + multiset(RunnerFrames(s.runners))[f] + multiset(AnswerFrames(s.log.answers))[f]
            == if f in s.log.accepted then 1 else 0
  {
    assert Whereabouts(s)[f] == multiset(s.log.accepted)[f];
    if f in s.log.accepted {
      var i :| 0 <= i < |s.log.accepted| && s.log.accepted[i] == f;
      TakeOne(s.log.accepted, i);
      assert f !in s.log.accepted[..i] + s.log.accepted[i + 1..];
    }
  }

  // ----- First in, first out -----

  function FirstAttempts(q: seq<Task>): seq<nat> {
    if q == [] then []
    else (if q[0].retries == 0 then [q[0].frame] else []) + FirstAttempts(q[1..])
  }

  /** The tasks that have left the queue, then those in it, are all that ever
      entered, in the order they did; the first attempts among them are the
      accepted frames. */
  ghost predicate Fifo(s: State) {
    s.log.left + s.queue == s.log.entered && FirstAttempts(s.log.entered) == s.log.accepted
  }

  lemma {:induction false} FirstAttemptsOfConcat(q: seq<Task>, q': seq<Task>)
    ensures FirstAttempts(q + q') == FirstAttempts(q) + FirstAttempts(q')
  {
    if q == [] {
      assert q + q' == q';
    } else {
      var first := if q[0].retries == 0 then [q[0].frame] else [];
      assert (q + q')[0] == q[0] && (q + q')[1..] == q[1..] + q';
      FirstAttemptsOfConcat(q[1..], q');
      Regroup(first, FirstAttempts(q[1..]), FirstAttempts(q'));
    }
  }

  lemma FirstAttemptsOfPush(q: seq<Task>, t: Task)
    ensures FirstAttempts(q + [t]) == FirstAttempts(q) + (if t.retries == 0 then [t.frame] else [])
  {
    FirstAttemptsOfConcat(q, [t]);
  }

  lemma FirstAttemptsOfPop(q: seq<Task>)
    requires q != []
    ensures FirstAttempts(q) == FirstAttempts(q[..1]) + FirstAttempts(q[1..])
  {
    FirstAttemptsOfConcat(q[..1], q[1..]);
    assert q == q[..1] + q[1..];
  }

  lemma FifoSettle(c: Config, s: State, i: nat)
    requires i < |s.runners| && s.runners[i].Released?
    ensures FirstAttempts(SettledRunner(c, s, i).queue) == FirstAttempts(s.queue)
    ensures Fifo(s) ==> Fifo(SettledRunner(c, s, i))
  {
    if Requeues(c, s.runners[i]) {
      var t := Task(s.runners[i].task.frame, s.runners[i].task.retries + 1);
      FirstAttemptsOfPush(s.queue, t);
      FirstAttemptsOfPush(s.log.entered, t);
      assert s.log.left + (s.queue + [t]) == s.log.left + s.queue + [t];
    }
  }

  lemma FifoEnqueue(c: Config, s: State, frame: nat)
    requires Fifo(s)
    ensures Fifo(Enqueued(c, s, frame))
  {
    FirstAttemptsOfPush(s.log.entered, Task(frame, 0));
    assert s.log.left + (s.queue + [Task(frame, 0)]) == s.log.left + s.queue + [Task(frame, 0)];
  }

  lemma FifoPop(s: State)
    requires WellFormed(s) && Fifo(s)
    ensures s.dispatcher.Scanning? ==> Fifo(ScanEnded(s))
    ensures Fifo(RejectedQueued(s))
  {
    if s.dispatcher.Scanning? {
      assert s.log.left + s.queue == s.log.left + [s.queue[0]] + s.queue[1..];
    }
    assert s.log.left + s.queue + [] == s.log.left + s.queue;
  }

  lemma FifoStep(c: Config, s: State, e: Event)
    requires WellFormed(s) && Enabled(c, s, e) && Fifo(s)
    ensures Fifo(Apply(c, s, e))
  {
    match e
    case Enqueue(frame) => FifoEnqueue(c, s, frame);
    case ScanEnd => FifoPop(s);
    case RejectQueued => FifoPop(s);
    case Settle(i) => FifoSettle(c, s, i);
    case _ =>
  }

  /** What an event adds at the end of the queue: an accepted frame as a first
      attempt, a failed attempt with retries left as the next one, or nothing. */
  function Entering(c: Config, s: State, e: Event): seq<Task> {
    match e
    case Enqueue(frame) => if |s.queue| < c.maxQueue then [Task(frame, 0)] else []
    case Settle(i) =>
      if i < |s.runners| && s.runners[i].Released? && !s.runners[i].ok && s.runners[i].task.retries < c.maxRetries
      then [Task(s.runners[i].task.frame, s.runners[i].task.retries + 1)] else []
    case _ => []
  }

  /** No task ever enters or leaves the queue but at its ends. */
  lemma QueueStep(c: Config, s: State, e: Event)
    requires WellFormed(s) && Enabled(c, s, e)
    ensures var s' := Apply(c, s, e);
      && s'.log.entered == s.log.entered + Entering(c, s, e)
      && s.log.left <= s'.log.left
      && (!e.ScanEnd? && !e.RejectQueued? ==> s'.log.left == s.log.left)
      && (e.ScanEnd? ==> |s'.log.left| <= |s.log.left| + 1)
  {
    if !MovesQueue(e) && !MovesRunner(e) {
      Frame(c, s, e);
    }
  }

  // ----- Bounded intake -----

  ghost predicate BoundedIntake(c: Config, s: State) {
    |FirstAttempts(s.queue)| <= c.maxQueue
  }

  lemma FirstAttemptsFewer(q: seq<Task>)
    ensures |FirstAttempts(q)| <= |q|
  {
  }

  lemma BoundedIntakeStep(c: Config, s: State, e: Event)
    requires WellFormed(s) && Enabled(c, s, e) && BoundedIntake(c, s)
    ensures BoundedIntake(c, Apply(c, s, e))
  {
    match e
    case Enqueue(frame) =>
      FirstAttemptsFewer(s.queue);
      FirstAttemptsOfPush(s.queue, Task(frame, 0));
    case ScanEnd => FirstAttemptsOfPop(s.queue);
    case Settle(i) => FifoSettle(c, s, i);
    case _ =>
  }
}
