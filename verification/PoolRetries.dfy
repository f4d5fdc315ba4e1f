/** How often a frame is executed: `retries` counts its failures exactly, so no
    frame is started more than `max_retries + 1` times and
    `MaxRetriesExceeded` is the answer to exactly that many failures. */
module PoolRetries {
  import opened Common
  import opened PoolModel
  import opened PoolRuns
  import opened PoolFrames

  type Tally = multiset<nat>

  /** Waiting for its next attempt: each attempt so far has failed. */
  ghost predicate WaitingTally(c: Config, started: Tally, failed: Tally, t: Task) {
    started[t.frame] == failed[t.frame] == t.retries <= c.maxRetries
  }

  ghost predicate RunnerTally(c: Config, started: Tally, failed: Tally, r: Runner) {
    && started[r.task.frame] == r.task.retries + 1 <= c.maxRetries + 1
    && failed[r.task.frame] == r.task.retries + (if r.Released? && !r.ok then 1 else 0)
  }

  ghost predicate AnswerTally(c: Config, started: Tally, failed: Tally, a: Answer) {
    match a.outcome
    case Done => started[a.frame] == failed[a.frame] + 1 <= c.maxRetries + 1
    case MaxRetriesExceeded(retries) =>
      retries == c.maxRetries && started[a.frame] == failed[a.frame] == c.maxRetries + 1
    case ShuttingDown => started[a.frame] == failed[a.frame] <= c.maxRetries
  }

  ghost predicate QueueTallies(c: Config, started: Tally, failed: Tally, q: seq<Task>) {
    forall i | 0 <= i < |q| :: WaitingTally(c, started, failed, q[i])
  }

  ghost predicate RunnerTallies(c: Config, started: Tally, failed: Tally, rs: seq<Runner>) {
    forall i | 0 <= i < |rs| :: RunnerTally(c, started, failed, rs[i])
  }

  ghost predicate AnswerTallies(c: Config, started: Tally, failed: Tally, ans: seq<Answer>) {
    forall i | 0 <= i < |ans| :: AnswerTally(c, started, failed, ans[i])
  }

  ghost predicate Untouched(started: Tally, failed: Tally, accepted: seq<nat>) {
    forall f: nat :: f !in accepted ==> started[f] == 0 && failed[f] == 0
  }

  ghost predicate Ledger(c: Config, s: State) {
    && QueueTallies(c, s.log.started, s.log.failed, s.queue)
    && (s.dispatcher.Chosen? ==> WaitingTally(c, s.log.started, s.log.failed, s.dispatcher.task))
    && RunnerTallies(c, s.log.started, s.log.failed, s.runners)
    && AnswerTallies(c, s.log.started, s.log.failed, s.log.answers)
    && Untouched(s.log.started, s.log.failed, s.log.accepted)
  }

  /** The frame being counted is in no other place. */
  lemma ChosenIsAlone(s: State)
    requires Conserved(s) && s.dispatcher.Chosen?
    ensures var f := s.dispatcher.task.frame;
      && f in s.log.accepted
      && (forall i | 0 <= i < |s.queue| :: s.queue[i].frame != f)
      && (forall i | 0 <= i < |s.runners| :: s.runners[i].task.frame != f)
      && (forall i | 0 <= i < |s.log.answers| :: s.log.answers[i].frame != f)
  {
    var f := s.dispatcher.task.frame;
    ExactlyOnePlace(s, f);
    assert multiset(ChosenFrames(s.dispatcher))[f] == 1;
    NotAmong(s, f);
  }

  lemma NotAmong(s: State, f: nat)
    ensures f !in multiset(QueueFrames(s.queue)) ==> forall i | 0 <= i < |s.queue| :: s.queue[i].frame != f
    ensures f !in multiset(RunnerFrames(s.runners)) ==> forall i | 0 <= i < |s.runners| :: s.runners[i].task.frame != f
    ensures f !in multiset(AnswerFrames(s.log.answers)) ==>
              forall i | 0 <= i < |s.log.answers| :: s.log.answers[i].frame != f
  {
    assert forall i | 0 <= i < |s.queue| :: QueueFrames(s.queue)[i] == s.queue[i].frame;
    assert forall i | 0 <= i < |s.runners| :: RunnerFrames(s.runners)[i] == s.runners[i].task.frame;
    assert forall i | 0 <= i < |s.log.answers| :: AnswerFrames(s.log.answers)[i] == s.log.answers[i].frame;
  }

  lemma RunnerIsAlone(s: State, i: nat)
    requires Conserved(s) && i < |s.runners|
    ensures var f := s.runners[i].task.frame;
      && f in s.log.accepted
      && (forall k | 0 <= k < |s.queue| :: s.queue[k].frame != f)
      && (s.dispatcher.Chosen? ==> s.dispatcher.task.frame != f)
      && (forall k | 0 <= k < |s.runners| && k != i :: s.runners[k].task.frame != f)
      && (forall k | 0 <= k < |s.log.answers| :: s.log.answers[k].frame != f)
  {
    var fs := RunnerFrames(s.runners);
    var f := fs[i];
    ExactlyOnePlace(s, f);
    TakeOne(fs, i);
    NotAmong(s, f);
    forall k | 0 <= k < |s.runners| && k != i ensures s.runners[k].task.frame != f {
      var rest := fs[..i] + fs[i + 1..];
      assert rest[if k < i then k else k - 1] == fs[k];
    }
    assert s.dispatcher.Chosen? ==> multiset(ChosenFrames(s.dispatcher))[s.dispatcher.task.frame] == 1;
  }

  lemma LedgerEnqueue(c: Config, s: State, frame: nat)
    requires Conserved(s) && Ledger(c, s) && frame in s.arriving
    ensures Ledger(c, Enqueued(c, s, frame))
  {
  }

  lemma LedgerReject(c: Config, s: State)
    requires Ledger(c, s)
    ensures Ledger(c, RejectedQueued(s))
  {
    RejectionFrames(s.queue);
    var n := |s.log.answers|;
    var ans := RejectedQueued(s).log.answers;
    forall i | 0 <= i < |ans| ensures AnswerTally(c, s.log.started, s.log.failed, ans[i]) {
      if i >= n {
        assert WaitingTally(c, s.log.started, s.log.failed, s.queue[i - n]);
      }
    }
  }

  lemma LedgerScanEnd(c: Config, s: State)
    requires WellFormed(s) && Ledger(c, s) && s.dispatcher.Scanning?
    ensures Ledger(c, ScanEnded(s))
  {
    assert WaitingTally(c, s.log.started, s.log.failed, s.queue[0]);
    assert QueueTallies(c, s.log.started, s.log.failed, s.queue[1..]);
  }

  lemma LedgerCount(c: Config, s: State)
    requires WellFormed(s) && Conserved(s) && Ledger(c, s) && s.dispatcher.Chosen?
    ensures Ledger(c, CountedDispatch(s))
  {
    ChosenIsAlone(s);
    var s' := CountedDispatch(s);
    assert forall f :: f != s.dispatcher.task.frame ==> s'.log.started[f] == s.log.started[f];
    forall i | 0 <= i < |s'.runners| ensures RunnerTally(c, s'.log.started, s'.log.failed, s'.runners[i]) {
      if i < |s.runners| {
        assert RunnerTally(c, s.log.started, s.log.failed, s.runners[i]);
      }
    }
  }

  lemma LedgerRelease(c: Config, s: State, i: nat, ok: bool)
    requires WellFormed(s) && Conserved(s) && Ledger(c, s) && i < |s.runners| && s.runners[i].Executing?
    ensures Ledger(c, ReleasedRunner(s, i, ok))
  {
    RunnerIsAlone(s, i);
    var s' := ReleasedRunner(s, i, ok);
    assert forall f :: f != s.runners[i].task.frame ==> s'.log.failed[f] == s.log.failed[f];
    forall k | 0 <= k < |s'.runners| ensures RunnerTally(c, s'.log.started, s'.log.failed, s'.runners[k]) {
      assert RunnerTally(c, s.log.started, s.log.failed, s.runners[k]);
    }
  }

  lemma LedgerSettle(c: Config, s: State, i: nat)
    requires Ledger(c, s) && i < |s.runners| && s.runners[i].Released?
    ensures Ledger(c, SettledRunner(c, s, i))
    ensures Ledger(c, NotifiedIdle(s, i))
  {
    assert RunnerTally(c, s.log.started, s.log.failed, s.runners[i]);
    assert RunnerTallies(c, s.log.started, s.log.failed, s.runners[..i] + s.runners[i + 1..]);
  }

  lemma LedgerStep(c: Config, s: State, e: Event)
    requires WellFormed(s) && Enabled(c, s, e) && Conserved(s) && Ledger(c, s)
    ensures Ledger(c, Apply(c, s, e))
  {
    if !MovesQueue(e) && !MovesRunner(e) {
      Frame(c, s, e);
    } else {
      match e
      case Enqueue(frame) => LedgerEnqueue(c, s, frame);
      case RejectQueued => LedgerReject(c, s);
      case ScanEnd => LedgerScanEnd(c, s);
      case CountDispatch => LedgerCount(c, s);
      case Release(i, ok) => LedgerRelease(c, s, i, ok);
      case NotifyIdle(i) => LedgerSettle(c, s, i);
      case Settle(i) => LedgerSettle(c, s, i);
    }
  }

  /** No frame is ever started more than `max_retries + 1` times. */
  lemma StartsBounded(c: Config, s: State, f: nat)
    requires Conserved(s) && Ledger(c, s)
    ensures s.log.failed[f] <= s.log.started[f] <= c.maxRetries + 1
  {
    ExactlyOnePlace(s, f);
    if f in s.log.accepted {
      if f in multiset(QueueFrames(s.queue)) {
        var i :| 0 <= i < |s.queue| && QueueFrames(s.queue)[i] == f;
        assert WaitingTally(c, s.log.started, s.log.failed, s.queue[i]);
      } else if f in multiset(RunnerFrames(s.runners)) {
        var i :| 0 <= i < |s.runners| && RunnerFrames(s.runners)[i] == f;
        assert RunnerTally(c, s.log.started, s.log.failed, s.runners[i]);
      } else if f in multiset(AnswerFrames(s.log.answers)) {
        var i :| 0 <= i < |s.log.answers| && AnswerFrames(s.log.answers)[i] == f;
        assert AnswerTally(c, s.log.started, s.log.failed, s.log.answers[i]);
      }
    }
  }
}
