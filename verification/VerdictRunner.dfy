/** Judging one submission: cases run in batches of eight and are joined in
    whatever order they complete.

    `outcomes[i]` is what judging case `i` yields if it is run. The scheduler's
    choice is an input: each of `orders` lists the cases of one batch in the
    order in which they are joined. A result of None is a panic of the handler itself,
    at one of its `unwrap`s. */
module VerdictRunner {
  import opened Common

  const BATCH_MAX := 8

  datatype Usage = Usage(cpuTimeMs: nat, wallTimeMs: nat, memoryBytes: nat)

  datatype KilledReason =
    | MemoryLimitExceeded
    | WallTimeLimitExceeded
    | CpuTimeLimitExceeded
    | OutputLimitExceeded
    | Signaled(signal: int)

  datatype CaseVerdict =
    | Accepted(usage: Usage)
    | WrongAnswer(received: string, stderr: string)
    | Killed(reason: KilledReason, stdout: string, stderr: string)
    | RuntimeError(stderr: string, exitCode: int)

  /** `Cancelled`: the join reports a task that was cancelled before it finished.
      The handler itself leaves its join loop after every `abort_all`, so only
      the teardown of the runtime under it could bring this about. */
  datatype Outcome = Judged(verdict: CaseVerdict) | Failed(message: string) | Panicked(message: string) | Cancelled

  datatype Prepared = Ready | PrepareFailed(message: string)

  datatype Compiled = Success | Timeout | Rejected(message: string) | CompileFailed(message: string)

  datatype TaskResult =
    | Stopped(verdict: CaseVerdict)
    | AllPassed(maxUsage: Usage)
    | Collected(cases: seq<CaseVerdict>)
    | Internal(message: string)
    | CompilationError(message: string)

  const NO_USAGE := Usage(0, 0, 0)

  // ----- What a run must answer -----

  /** The outcome ends the run. */
  predicate Ends(o: Outcome, stopOnFirst: bool) {
    o.Failed? || o.Panicked? || (o.Judged? && stopOnFirst && !o.verdict.Accepted?)
  }

  function Report(o: Outcome): TaskResult
    requires !o.Cancelled?
  {
    match o
    case Judged(v) => Stopped(v)
    case Failed(message) => Internal(message)
    case Panicked(message) => Internal(message)
  }

  predicate NoneEnds(os: seq<Outcome>, n: nat, stopOnFirst: bool)
    requires n <= |os|
  {
    forall i | 0 <= i < n :: !Ends(os[i], stopOnFirst)
  }

  predicate Passed(o: Outcome) { o.Judged? && o.verdict.Accepted? }

  predicate AllJudged(os: seq<Outcome>) { forall i | 0 <= i < |os| :: os[i].Judged? }

  function Join(u: Usage, v: Usage): Usage {
    Usage(Max(u.cpuTimeMs, v.cpuTimeMs), Max(u.wallTimeMs, v.wallTimeMs), Max(u.memoryBytes, v.memoryBytes))
  }

  function Widen(m: Option<Usage>, u: Usage): Usage { if m.Some? then Join(m.value, u) else u }

  predicate AtMost(u: Usage, v: Usage) {
    u.cpuTimeMs <= v.cpuTimeMs && u.wallTimeMs <= v.wallTimeMs && u.memoryBytes <= v.memoryBytes
  }

  /** `m` is the componentwise maximum over the accepted cases in `done`, None if there is none. */
  ghost predicate IsMaxOver(m: Option<Usage>, os: seq<Outcome>, done: set<nat>) {
    && (forall i | i in done :: i < |os|)
    && (m.None? ==> forall i | i in done :: !Passed(os[i]))
    && (m.Some? ==>
          && (forall i | i in done && Passed(os[i]) :: AtMost(os[i].verdict.usage, m.value))
          && (exists i | i in done && Passed(os[i]) :: os[i].verdict.usage.cpuTimeMs == m.value.cpuTimeMs)
          && (exists i | i in done && Passed(os[i]) :: os[i].verdict.usage.wallTimeMs == m.value.wallTimeMs)
          && (exists i | i in done && Passed(os[i]) :: os[i].verdict.usage.memoryBytes == m.value.memoryBytes))
  }

  /** The maximum over the first `n` cases, taken in case order. */
  function MaxUsage(os: seq<Outcome>, n: nat): Option<Usage>
    requires n <= |os|
  {
    if n == 0 then None
    else if Passed(os[n - 1]) then Some(Widen(MaxUsage(os, n - 1), os[n - 1].verdict.usage))
    else MaxUsage(os, n - 1)
  }

  /** The answer when nothing ends the run. */
  function Conclusion(os: seq<Outcome>, stopOnFirst: bool): Option<TaskResult> {
    if stopOnFirst then
      if os == [] then Some(AllPassed(NO_USAGE))
      else match MaxUsage(os, |os|)
           case None => None
           case Some(u) => Some(AllPassed(u))
    else if AllJudged(os) then Some(Collected(seq(|os|, i requires 0 <= i < |os| => os[i].verdict)))
    else None
  }

  /** The bounds of the batch of case `i`, among `n` cases. */
  function BatchStart(i: nat): nat { i / BATCH_MAX * BATCH_MAX }

  function BatchEnd(i: nat, n: nat): nat { High(BatchStart(i), n) }

  /** The end of the batch that starts at `low`. */
  function High(low: nat, n: nat): nat { Min(low + BATCH_MAX, n) }

  /** Case `i` ended the run, in the first batch that has an ending case, and no
      later batch was started. */
  ghost predicate AnswersWith(os: seq<Outcome>, stopOnFirst: bool, r: Option<TaskResult>, started: nat, i: nat)
    requires i < |os|
  {
    && Ends(os[i], stopOnFirst)
    && NoneEnds(os, BatchStart(i), stopOnFirst)
    && r == Some(Report(os[i]))
    && started == BatchEnd(i, |os|)
  }

  /** `r` after starting `started` cases is a possible answer. */
  ghost predicate Answers(os: seq<Outcome>, stopOnFirst: bool, r: Option<TaskResult>, started: nat) {
    if NoneEnds(os, |os|, stopOnFirst) then
      started == |os| && r == if os == [] then Some(AllPassed(NO_USAGE)) else Conclusion(os, stopOnFirst)
    else
      exists i | 0 <= i < |os| :: AnswersWith(os, stopOnFirst, r, started, i)
  }

  // ----- Maximum usage does not depend on the order of completion -----

  lemma MaxIsAbove(u: Usage, v: Usage, os: seq<Outcome>, done: set<nat>)
    requires IsMaxOver(Some(u), os, done) && IsMaxOver(Some(v), os, done)
    ensures v.cpuTimeMs <= u.cpuTimeMs && v.wallTimeMs <= u.wallTimeMs && v.memoryBytes <= u.memoryBytes
  {
    var a :| a in done && Passed(os[a]) && os[a].verdict.usage.cpuTimeMs == v.cpuTimeMs;
    var b :| b in done && Passed(os[b]) && os[b].verdict.usage.wallTimeMs == v.wallTimeMs;
    var d :| d in done && Passed(os[d]) && os[d].verdict.usage.memoryBytes == v.memoryBytes;
    assert AtMost(os[a].verdict.usage, u) && AtMost(os[b].verdict.usage, u) && AtMost(os[d].verdict.usage, u);
  }

  lemma MaxIsUnique(m: Option<Usage>, m': Option<Usage>, os: seq<Outcome>, done: set<nat>)
    requires IsMaxOver(m, os, done) && IsMaxOver(m', os, done)
    ensures m == m'
  {
    if m.Some? && m'.Some? {
      MaxIsAbove(m.value, m'.value, os, done);
      MaxIsAbove(m'.value, m.value, os, done);
    }
  }

  lemma OneIsMax(os: seq<Outcome>, done: set<nat>, i: nat)
    requires i < |os| && Passed(os[i]) && IsMaxOver(None, os, done)
    ensures IsMaxOver(Some(os[i].verdict.usage), os, done + {i})
  {
    assert i in done + {i};
  }

  lemma WidenExtends(u: Usage, os: seq<Outcome>, done: set<nat>, i: nat)
    requires i < |os| && Passed(os[i]) && IsMaxOver(Some(u), os, done)
    ensures IsMaxOver(Some(Join(u, os[i].verdict.usage)), os, done + {i})
  {
    var w := Join(u, os[i].verdict.usage);
    var a :| a in done && Passed(os[a]) && os[a].verdict.usage.cpuTimeMs == u.cpuTimeMs;
    var b :| b in done && Passed(os[b]) && os[b].verdict.usage.wallTimeMs == u.wallTimeMs;
    var d :| d in done && Passed(os[d]) && os[d].verdict.usage.memoryBytes == u.memoryBytes;
    assert {a, b, d, i} <= done + {i};
    assert os[a].verdict.usage.cpuTimeMs == w.cpuTimeMs || os[i].verdict.usage.cpuTimeMs == w.cpuTimeMs;
    assert os[b].verdict.usage.wallTimeMs == w.wallTimeMs || os[i].verdict.usage.wallTimeMs == w.wallTimeMs;
    assert os[d].verdict.usage.memoryBytes == w.memoryBytes || os[i].verdict.usage.memoryBytes == w.memoryBytes;
  }

  lemma MaxExtends(m: Option<Usage>, os: seq<Outcome>, done: set<nat>, i: nat)
    requires i < |os| && IsMaxOver(m, os, done)
    ensures IsMaxOver(if Passed(os[i]) then Some(Widen(m, os[i].verdict.usage)) else m, os, done + {i})
  {
    if Passed(os[i]) {
      if m.None? {
        OneIsMax(os, done, i);
      } else {
        WidenExtends(m.value, os, done, i);
      }
    } else if m.Some? {
      var a :| a in done && Passed(os[a]) && os[a].verdict.usage.cpuTimeMs == m.value.cpuTimeMs;
      var b :| b in done && Passed(os[b]) && os[b].verdict.usage.wallTimeMs == m.value.wallTimeMs;
      var d :| d in done && Passed(os[d]) && os[d].verdict.usage.memoryBytes == m.value.memoryBytes;
      assert {a, b, d} <= done + {i};
    }
  }

  function Upto(n: nat): (s: set<nat>)
    ensures forall i :: i in s <==> 0 <= i < n
  {
    if n == 0 then {} else Upto(n - 1) + {n - 1}
  }

  lemma {:induction false} MaxUsageIsMax(os: seq<Outcome>, n: nat)
    requires n <= |os|
    ensures IsMaxOver(MaxUsage(os, n), os, Upto(n))
  {
    if n > 0 {
      MaxUsageIsMax(os, n - 1);
      MaxExtends(MaxUsage(os, n - 1), os, Upto(n - 1), n - 1);
    }
  }

  // ----- The run as a function of the order of completion -----

  function Range(low: nat, high: nat): seq<nat>
    requires low <= high
  {
    seq(high - low, k requires 0 <= k => low + k)
  }

  /** Every case from `low` to `high`, once each, in any order. */
  ghost predicate IsOrder(order: seq<nat>, low: nat, high: nat) {
    && (forall j, k | 0 <= j < k < |order| :: order[j] != order[k])
    && (forall i: nat :: i in order <==> low <= i < high)
  }

  /** An order of completion for each batch of `n` cases from `low` on. */
  ghost predicate JoinOrders(n: nat, low: nat, orders: seq<seq<nat>>)
    requires low <= n
    decreases n - low
  {
    if low == n then orders == []
    else
      && orders != [] && IsOrder(orders[0], low, High(low, n))
      && JoinOrders(n, High(low, n), orders[1..])
  }

  /** What the join loop has gathered: the slots of `collected` and the maximum so far. */
  datatype Gathered = Gathered(collected: seq<Option<CaseVerdict>>, maxUsage: Option<Usage>)

  ghost predicate InRange(os: seq<Outcome>, stopOnFirst: bool, order: seq<nat>, g: Gathered) {
    (forall k | 0 <= k < |order| :: order[k] < |os|) && (!stopOnFirst ==> |g.collected| == |os|)
  }

  function GatherOne(o: Outcome, stopOnFirst: bool, i: nat, g: Gathered): Gathered
    requires !stopOnFirst ==> i < |g.collected|
  {
    if Passed(o) && stopOnFirst then g.(maxUsage := Some(Widen(g.maxUsage, o.verdict.usage)))
    else if o.Judged? && !stopOnFirst then g.(collected := g.collected[i := Some(o.verdict)])
    else g
  }

  /** Joins the cases in the given order, up to one that ends the run. */
  function JoinLoop(os: seq<Outcome>, stopOnFirst: bool, order: seq<nat>, g: Gathered): (r: (Option<nat>, Gathered))
    requires InRange(os, stopOnFirst, order, g)
    ensures |r.1.collected| == |g.collected|
    ensures r.0.Some? ==> r.0.value in order && r.0.value < |os| && Ends(os[r.0.value], stopOnFirst)
    ensures r.0.None? ==> forall k | 0 <= k < |order| :: !Ends(os[order[k]], stopOnFirst)
  {
    if order == [] then (None, g)
    else if Ends(os[order[0]], stopOnFirst) then (Some(order[0]), g)
    else JoinLoop(os, stopOnFirst, order[1..], GatherOne(os[order[0]], stopOnFirst, order[0], g))
  }

  /** Both `unwrap`s at the end; None where they panic. */
  function Unwrapped(stopOnFirst: bool, g: Gathered): Option<TaskResult> {
    if stopOnFirst then if g.maxUsage.Some? then Some(AllPassed(g.maxUsage.value)) else None
    else if forall i | 0 <= i < |g.collected| :: g.collected[i].Some? then
      Some(Collected(seq(|g.collected|, i requires 0 <= i < |g.collected| => g.collected[i].value)))
    else None
  }

  lemma OrderInRange(order: seq<nat>, low: nat, high: nat)
    requires IsOrder(order, low, high)
    ensures forall k | 0 <= k < |order| :: order[k] < high
  {
    assert forall k | 0 <= k < |order| :: order[k] in order;
  }

  /** The batches from case `low` on. */
  function BatchLoop(os: seq<Outcome>, stopOnFirst: bool, orders: seq<seq<nat>>, low: nat, g: Gathered)
    : (Option<TaskResult>, nat)
    requires low <= |os| && JoinOrders(|os|, low, orders) && InRange(os, stopOnFirst, [], g)
    decreases |os| - low
  {
    if low == |os| then (Unwrapped(stopOnFirst, g), |os|)
    else
      OrderInRange(orders[0], low, High(low, |os|));
      var (ending, g') := JoinLoop(os, stopOnFirst, orders[0], g);
      if ending.Some? then (Some(Report(os[ending.value])), High(low, |os|))
      else BatchLoop(os, stopOnFirst, orders[1..], High(low, |os|), g')
  }

  function Start(os: seq<Outcome>, stopOnFirst: bool): Gathered {
    Gathered(if stopOnFirst then [] else seq(|os|, _ => None), None)
  }

  /** The answer and the number of cases started, for the given orders of completion. */
  function Batched(os: seq<Outcome>, stopOnFirst: bool, orders: seq<seq<nat>>): (Option<TaskResult>, nat)
    requires JoinOrders(|os|, 0, orders)
  {
    if os == [] then (Some(AllPassed(NO_USAGE)), 0)
    else BatchLoop(os, stopOnFirst, orders, 0, Start(os, stopOnFirst))
  }

  // ----- The program -----

  /** `handle`; `cleanups` counts the calls of `cleanup`. */
  method Handle(prepared: Prepared, compiled: Compiled, outcomes: seq<Outcome>, stopOnFirst: bool,
                orders: seq<seq<nat>>)
    returns (result: Option<TaskResult>, started: nat, cleanups: nat)
    requires JoinOrders(|outcomes|, 0, orders)
    ensures cleanups == if prepared.PrepareFailed? then 0 else 1
    ensures prepared.PrepareFailed? ==> result == Some(Internal(prepared.message)) && started == 0
    ensures prepared.Ready? && !compiled.Success? ==>
              && started == 0
              && result == match compiled
                           case Timeout => Some(CompilationError("Timeout"))
                           case Rejected(message) => Some(CompilationError(message))
                           case CompileFailed(message) => Some(Internal(message))
                           case Success => result
    ensures prepared.Ready? && compiled.Success? ==> (result, started) == Batched(outcomes, stopOnFirst, orders)
  {
    started, cleanups := 0, 0;
    if prepared.PrepareFailed? {
      return Some(Internal(prepared.message)), started, cleanups;
    }
    match compiled {
      case CompileFailed(message) => return Some(Internal(message)), started, 1;
      case Rejected(message) => return Some(CompilationError(message)), started, 1;
      case Timeout => return Some(CompilationError("Timeout")), started, 1;
      case Success =>
    }
    if outcomes == [] {
      return Some(AllPassed(NO_USAGE)), started, 1;
    }
    result, started, cleanups := RunBatches(outcomes, stopOnFirst, orders);
  }

  /** Fills a batch: `drain`s it from `cases` and spawns one task per case. */
  method SpawnBatch(outcomes: seq<Outcome>, caseIdx: nat) returns (joinSet: set<nat>, caseIdx': nat)
    requires caseIdx < |outcomes|
    ensures caseIdx' == if caseIdx + BATCH_MAX < |outcomes| then caseIdx + BATCH_MAX else |outcomes|
    ensures forall i :: i in joinSet <==> caseIdx <= i < caseIdx'
  {
    var cases := outcomes[caseIdx..];
    var batch := cases[..if BATCH_MAX < |cases| then BATCH_MAX else |cases|];
    joinSet, caseIdx' := {}, caseIdx;
    for spawned := 0 to |batch|
      invariant caseIdx' == caseIdx + spawned
      invariant forall i :: i in joinSet <==> caseIdx <= i < caseIdx'
    {
      joinSet := joinSet + {caseIdx'};
      caseIdx' := caseIdx' + 1;
    }
  }

  lemma JoinLoopStep(os: seq<Outcome>, stopOnFirst: bool, order: seq<nat>, j: nat, g: Gathered)
    requires InRange(os, stopOnFirst, order, g) && j < |order|
    ensures JoinLoop(os, stopOnFirst, order[j..], g)
            == if Ends(os[order[j]], stopOnFirst) then (Some(order[j]), g)
               else JoinLoop(os, stopOnFirst, order[j + 1..], GatherOne(os[order[j]], stopOnFirst, order[j], g))
  {
    assert order[j..][1..] == order[j + 1..];
  }

  function Elements(order: seq<nat>): set<nat> { set i | i in order }

  lemma JoinSetStep(order: seq<nat>, j: nat)
    requires j <= |order| && forall k, k' | 0 <= k < k' < |order| :: order[k] != order[k']
    ensures Elements(order[j..]) == {} <==> j == |order|
    ensures j < |order| ==> Elements(order[j + 1..]) == Elements(order[j..]) - {order[j]}
  {
    if j < |order| {
      assert order[j..] == [order[j]] + order[j + 1..];
      assert order[j] in Elements(order[j..]);
    }
  }

  /** `join_next` until the join set is empty; `order` says which case it yields next. */
  method JoinBatch(outcomes: seq<Outcome>, stopOnFirst: bool, batch: set<nat>, order: seq<nat>,
                   collected: array<Option<CaseVerdict>>, usage: Option<Usage>)
    returns (ending: Option<nat>, maxUsage: Option<Usage>)
    requires forall j, k | 0 <= j < k < |order| :: order[j] != order[k]
    requires Elements(order) == batch
    requires InRange(outcomes, stopOnFirst, order, Gathered(collected[..], usage))
    modifies collected
    ensures (ending, Gathered(collected[..], maxUsage))
            == JoinLoop(outcomes, stopOnFirst, order, Gathered(old(collected[..]), usage))
  {
    var joinSet, joined := batch, 0;
    maxUsage := usage;
    while joinSet != {}
      invariant joined <= |order| && joinSet == Elements(order[joined..])
      invariant JoinLoop(outcomes, stopOnFirst, order[joined..], Gathered(collected[..], maxUsage))
                == JoinLoop(outcomes, stopOnFirst, order, Gathered(old(collected[..]), usage))
      decreases |order| - joined
    {
      JoinSetStep(order, joined);
      JoinLoopStep(outcomes, stopOnFirst, order, joined, Gathered(collected[..], maxUsage));
      var caseIdx := order[joined];
      joinSet := joinSet - {caseIdx};
      joined := joined + 1;
      match outcomes[caseIdx] {
        case Judged(verdict) =>
          if stopOnFirst && verdict.Accepted? {
            maxUsage := Some(if maxUsage.Some? then Join(maxUsage.value, verdict.usage) else verdict.usage);
          } else if stopOnFirst {
            return Some(caseIdx), maxUsage;
          } else {
            collected[caseIdx] := Some(verdict);
          }
        case Failed(_) => return Some(caseIdx), maxUsage;
        case Panicked(_) => return Some(caseIdx), maxUsage;
        case Cancelled =>
      }
    }
    JoinSetStep(order, joined);
    ending := None;
  }

  lemma BatchLoopStep(os: seq<Outcome>, stopOnFirst: bool, orders: seq<seq<nat>>, low: nat, g: Gathered)
    requires low < |os| && JoinOrders(|os|, low, orders) && InRange(os, stopOnFirst, [], g)
    ensures InRange(os, stopOnFirst, orders[0], g)
    ensures var (ending, g') := JoinLoop(os, stopOnFirst, orders[0], g);
            BatchLoop(os, stopOnFirst, orders, low, g)
            == if ending.Some? then (Some(Report(os[ending.value])), High(low, |os|))
               else BatchLoop(os, stopOnFirst, orders[1..], High(low, |os|), g')
  {
    OrderInRange(orders[0], low, High(low, |os|));
  }

  /** The batch loop. Every way out cleans up, and does so before the `unwrap`s. */
  method RunBatches(outcomes: seq<Outcome>, stopOnFirst: bool, orders: seq<seq<nat>>)
    returns (result: Option<TaskResult>, started: nat, cleanups: nat)
    requires outcomes != [] && JoinOrders(|outcomes|, 0, orders)
    ensures (result, started) == Batched(outcomes, stopOnFirst, orders) && cleanups == 1
  {
    cleanups := 0;
    var caseIdx, ahead := 0, orders;
    var collected := new Option<CaseVerdict>[if stopOnFirst then 0 else |outcomes|](_ => None);
    var maxUsage: Option<Usage> := None;
    assert Gathered(collected[..], maxUsage) == Start(outcomes, stopOnFirst);
    while caseIdx < |outcomes|
      invariant caseIdx <= |outcomes| && JoinOrders(|outcomes|, caseIdx, ahead) && cleanups == 0
      invariant InRange(outcomes, stopOnFirst, [], Gathered(collected[..], maxUsage))
      invariant BatchLoop(outcomes, stopOnFirst, ahead, caseIdx, Gathered(collected[..], maxUsage))
                == Batched(outcomes, stopOnFirst, orders)
    {
      BatchLoopStep(outcomes, stopOnFirst, ahead, caseIdx, Gathered(collected[..], maxUsage));
      var batch, ending;
      batch, caseIdx := SpawnBatch(outcomes, caseIdx);
      ending, maxUsage := JoinBatch(outcomes, stopOnFirst, batch, ahead[0], collected, maxUsage);
      if ending.Some? {
        cleanups := cleanups + 1;
        return Some(Report(outcomes[ending.value])), caseIdx, cleanups;
      }
      ahead := ahead[1..];
    }
    cleanups := cleanups + 1;
    result, started := Unwrapped(stopOnFirst, Gathered(collected[..], maxUsage)), caseIdx;
  }

  // ----- Every order gives a possible answer -----

  function Slot(o: Outcome): Option<CaseVerdict> { if o.Judged? then Some(o.verdict) else None }

  /** What has been gathered once exactly the cases in `done` have been joined. */
  ghost predicate Holds(os: seq<Outcome>, stopOnFirst: bool, done: set<nat>, g: Gathered) {
    && (forall i | i in done :: i < |os| && !Ends(os[i], stopOnFirst))
    && (stopOnFirst ==> IsMaxOver(g.maxUsage, os, done))
    && (!stopOnFirst ==>
          && |g.collected| == |os|
          && forall i | 0 <= i < |os| :: g.collected[i] == if i in done then Slot(os[i]) else None)
  }

  lemma {:induction false} JoinLoopHolds(os: seq<Outcome>, stopOnFirst: bool, order: seq<nat>, g: Gathered,
                                         done: set<nat>)
    requires Holds(os, stopOnFirst, done, g) && InRange(os, stopOnFirst, order, g)
    requires JoinLoop(os, stopOnFirst, order, g).0.None?
    ensures Holds(os, stopOnFirst, done + Elements(order), JoinLoop(os, stopOnFirst, order, g).1)
  {
    if order == [] {
      assert done + Elements(order) == done;
    } else {
      var i := order[0];
      if stopOnFirst {
        MaxExtends(g.maxUsage, os, done, i);
      }
      JoinLoopHolds(os, stopOnFirst, order[1..], GatherOne(os[i], stopOnFirst, i, g), done + {i});
      assert done + {i} + Elements(order[1..]) == done + Elements(order);
    }
  }

  lemma UnwrappedIsConclusion(os: seq<Outcome>, stopOnFirst: bool, g: Gathered)
    requires os != [] && Holds(os, stopOnFirst, Upto(|os|), g)
    ensures Unwrapped(stopOnFirst, g) == Conclusion(os, stopOnFirst)
  {
    if stopOnFirst {
      MaxUsageIsMax(os, |os|);
      MaxIsUnique(g.maxUsage, MaxUsage(os, |os|), os, Upto(|os|));
    } else {
      assert forall i | 0 <= i < |os| :: i in Upto(|os|) && g.collected[i] == Slot(os[i]);
      assert AllJudged(os) <==> forall i | 0 <= i < |g.collected| :: g.collected[i].Some?;
      if AllJudged(os) {
        assert Unwrapped(false, g).value.cases == Conclusion(os, false).value.cases;
      }
    }
  }

  lemma BatchOf(i: nat, low: nat)
    requires BatchStart(low) == low <= i
    ensures i < low + BATCH_MAX ==> BatchStart(i) == low
    ensures low + BATCH_MAX <= i ==> BatchStart(low + BATCH_MAX) == low + BATCH_MAX <= BatchStart(i)
  {
  }

  lemma NextBatch(low: nat)
    requires BatchStart(low) == low
    ensures BatchStart(low + BATCH_MAX) == low + BATCH_MAX
  {
  }

  ghost predicate PairAnswers(os: seq<Outcome>, stopOnFirst: bool, p: (Option<TaskResult>, nat)) {
    Answers(os, stopOnFirst, p.0, p.1)
  }

  lemma OneAnswers(os: seq<Outcome>, stopOnFirst: bool, r: Option<TaskResult>, started: nat, i: nat)
    requires i < |os| && AnswersWith(os, stopOnFirst, r, started, i)
    ensures PairAnswers(os, stopOnFirst, (r, started))
  {
  }

  lemma AllJoinedAnswers(os: seq<Outcome>, stopOnFirst: bool, g: Gathered)
    requires os != [] && Holds(os, stopOnFirst, Upto(|os|), g)
    ensures PairAnswers(os, stopOnFirst, (Unwrapped(stopOnFirst, g), |os|))
  {
    assert forall i | 0 <= i < |os| :: i in Upto(|os|);
    UnwrappedIsConclusion(os, stopOnFirst, g);
  }

  lemma BatchJoined(os: seq<Outcome>, stopOnFirst: bool, order: seq<nat>, low: nat, high: nat, g: Gathered)
    requires low < |os| && BatchStart(low) == low && high == High(low, |os|)
    requires IsOrder(order, low, high) && Holds(os, stopOnFirst, Upto(low), g)
    ensures InRange(os, stopOnFirst, order, g)
    ensures var (ending, g') := JoinLoop(os, stopOnFirst, order, g);
      && (ending.None? ==> Holds(os, stopOnFirst, Upto(high), g'))
      && (ending.Some? ==> AnswersWith(os, stopOnFirst, Some(Report(os[ending.value])), high, ending.value))
  {
    OrderInRange(order, low, high);
    var (ending, g') := JoinLoop(os, stopOnFirst, order, g);
    if ending.Some? {
      BatchOf(ending.value, low);
      assert forall i | 0 <= i < low :: i in Upto(low);
    } else {
      JoinLoopHolds(os, stopOnFirst, order, g, Upto(low));
      assert Upto(low) + Elements(order) == Upto(high);
    }
  }

  /** One batch: the run has its answer, or goes on with more gathered. */
  lemma BatchAnswers(os: seq<Outcome>, stopOnFirst: bool, orders: seq<seq<nat>>, low: nat, g: Gathered)
    returns (done: bool, g': Gathered)
    requires low < |os| && BatchStart(low) == low && JoinOrders(|os|, low, orders)
    requires Holds(os, stopOnFirst, Upto(low), g)
    ensures done ==> PairAnswers(os, stopOnFirst, BatchLoop(os, stopOnFirst, orders, low, g))
    ensures !done ==>
              && Holds(os, stopOnFirst, Upto(High(low, |os|)), g')
              && BatchLoop(os, stopOnFirst, orders, low, g)
                 == BatchLoop(os, stopOnFirst, orders[1..], High(low, |os|), g')
  {
    BatchJoined(os, stopOnFirst, orders[0], low, High(low, |os|), g);
    BatchLoopStep(os, stopOnFirst, orders, low, g);
    var (ending, gathered) := JoinLoop(os, stopOnFirst, orders[0], g);
    done, g' := ending.Some?, gathered;
    if done {
      OneAnswers(os, stopOnFirst, Some(Report(os[ending.value])), High(low, |os|), ending.value);
    }
  }

  lemma BatchedAnswers(os: seq<Outcome>, stopOnFirst: bool, orders: seq<seq<nat>>)
    returns (r: Option<TaskResult>, started: nat)
    requires JoinOrders(|os|, 0, orders)
    ensures (r, started) == Batched(os, stopOnFirst, orders) && Answers(os, stopOnFirst, r, started)
  {
    var p := Batched(os, stopOnFirst, orders);
    r, started := p.0, p.1;
    if os != [] {
      var low, ahead, g, done := 0, orders, Start(os, stopOnFirst), false;
      while !done && low < |os|
        invariant low <= |os| && (low < |os| ==> BatchStart(low) == low) && JoinOrders(|os|, low, ahead)
        invariant done ==> PairAnswers(os, stopOnFirst, p)
        invariant !done ==>
                    && Holds(os, stopOnFirst, Upto(low), g)
                    && BatchLoop(os, stopOnFirst, ahead, low, g) == p
        decreases |os| - low, !done
      {
        done, g := BatchAnswers(os, stopOnFirst, ahead, low, g);
        if !done {
          NextBatch(low);
          low, ahead := High(low, |os|), ahead[1..];
        }
      }
      if !done {
        AllJoinedAnswers(os, stopOnFirst, g);
      }
    }
  }

  // ----- Every possible answer is given by some order -----

  /** The batches in case order, except that case `i` is joined first of its batch. */
  function WithFirst(n: nat, low: nat, i: nat): seq<seq<nat>>
    requires low <= n
    decreases n - low
  {
    if low == n then []
    else
      var s := Range(low, High(low, n));
      [if low <= i < High(low, n) then [i] + (s[..i - low] + s[i - low + 1..]) else s]
      + WithFirst(n, High(low, n), i)
  }

  lemma WithFirstOnce(low: nat, high: nat, i: nat)
    requires low <= i < high
    ensures IsOrder(Range(low, high), low, high)
    ensures var s := Range(low, high); IsOrder([i] + (s[..i - low] + s[i - low + 1..]), low, high)
  {
    var s := Range(low, high);
    var order := [i] + (s[..i - low] + s[i - low + 1..]);
    assert forall k | 0 <= k < |order| ::
        order[k] == if k == 0 then i else if k <= i - low then low + k - 1 else low + k;
    forall j: nat | low <= j < high ensures j in s && j in order {
      assert s[j - low] == j;
      assert order[if j == i then 0 else if j < i then j - low + 1 else j - low] == j;
    }
  }

  lemma {:induction false} WithFirstIsOrder(n: nat, low: nat, i: nat)
    requires low <= n
    ensures JoinOrders(n, low, WithFirst(n, low, i))
    decreases n - low
  {
    if low < n {
      WithFirstOnce(low, High(low, n), if low <= i < High(low, n) then i else low);
      WithFirstIsOrder(n, High(low, n), i);
    }
  }

  lemma WithFirstStep(n: nat, low: nat, i: nat)
    requires low <= i < n
    ensures WithFirst(n, low, i) != [] && WithFirst(n, low, i)[0] != []
    ensures i < High(low, n) ==> WithFirst(n, low, i)[0][0] == i
    ensures WithFirst(n, low, i)[1..] == WithFirst(n, High(low, n), i)
  {
  }

  lemma {:induction false} FirstIsReported(os: seq<Outcome>, stopOnFirst: bool, orders: seq<seq<nat>>, low: nat,
                                           g: Gathered, i: nat)
    requires low <= i < |os| && BatchStart(low) == low && InRange(os, stopOnFirst, [], g)
    requires Ends(os[i], stopOnFirst) && NoneEnds(os, BatchStart(i), stopOnFirst)
    requires orders == WithFirst(|os|, low, i) && JoinOrders(|os|, low, orders)
    ensures BatchLoop(os, stopOnFirst, orders, low, g) == (Some(Report(os[i])), BatchEnd(i, |os|))
    decreases |os| - low
  {
    WithFirstStep(|os|, low, i);
    BatchLoopStep(os, stopOnFirst, orders, low, g);
    BatchOf(i, low);
    if i >= High(low, |os|) {
      OrderInRange(orders[0], low, High(low, |os|));
      FirstIsReported(os, stopOnFirst, orders[1..], High(low, |os|), JoinLoop(os, stopOnFirst, orders[0], g).1, i);
    }
  }

  lemma AnswerHasOrder(os: seq<Outcome>, stopOnFirst: bool, r: Option<TaskResult>, started: nat)
    returns (orders: seq<seq<nat>>)
    requires Answers(os, stopOnFirst, r, started)
    ensures JoinOrders(|os|, 0, orders) && Batched(os, stopOnFirst, orders) == (r, started)
  {
    if NoneEnds(os, |os|, stopOnFirst) {
      orders := WithFirst(|os|, 0, |os|);
      WithFirstIsOrder(|os|, 0, |os|);
      var _, _ := BatchedAnswers(os, stopOnFirst, orders);
    } else {
      var i :| 0 <= i < |os| && AnswersWith(os, stopOnFirst, r, started, i);
      orders := WithFirst(|os|, 0, i);
      WithFirstIsOrder(|os|, 0, i);
      FirstIsReported(os, stopOnFirst, orders, 0, Start(os, stopOnFirst), i);
    }
  }

  ghost predicate Gives(os: seq<Outcome>, stopOnFirst: bool, orders: seq<seq<nat>>, r: Option<TaskResult>,
                        started: nat)
  {
    JoinOrders(|os|, 0, orders) && Batched(os, stopOnFirst, orders) == (r, started)
  }

  /** The possible answers are exactly those that some order of completion gives. */
  lemma AnswersIffSomeOrder(os: seq<Outcome>, stopOnFirst: bool, r: Option<TaskResult>, started: nat)
    ensures Answers(os, stopOnFirst, r, started) <==> exists orders :: Gives(os, stopOnFirst, orders, r, started)
  {
    if Answers(os, stopOnFirst, r, started) {
      var orders := AnswerHasOrder(os, stopOnFirst, r, started);
      assert Gives(os, stopOnFirst, orders, r, started);
    }
    forall orders | Gives(os, stopOnFirst, orders, r, started) ensures Answers(os, stopOnFirst, r, started) {
      var _, _ := BatchedAnswers(os, stopOnFirst, orders);
    }
  }

  // ----- Against a sequential judge -----

  /** One case at a time, stopping at the first ending outcome. */
  function Sequential(os: seq<Outcome>, stopOnFirst: bool, n: nat): Option<TaskResult>
    requires n <= |os| && NoneEnds(os, n, stopOnFirst)
    decreases |os| - n
  {
    if n == |os| then Conclusion(os, stopOnFirst)
    else if Ends(os[n], stopOnFirst) then Some(Report(os[n]))
    else Sequential(os, stopOnFirst, n + 1)
  }

  /** `first` is the first ending case, or the number of cases if there is none. */
  ghost predicate FirstEnding(os: seq<Outcome>, stopOnFirst: bool, first: nat) {
    first <= |os| && NoneEnds(os, first, stopOnFirst) && (first < |os| ==> Ends(os[first], stopOnFirst))
  }

  lemma {:induction false} SequentialMeans(os: seq<Outcome>, stopOnFirst: bool, n: nat, first: nat)
    requires FirstEnding(os, stopOnFirst, first) && n <= first
    ensures NoneEnds(os, n, stopOnFirst)
    ensures Sequential(os, stopOnFirst, n)
            == if first < |os| then Some(Report(os[first])) else Conclusion(os, stopOnFirst)
    decreases first - n
  {
    if n < first {
      SequentialMeans(os, stopOnFirst, n + 1, first);
    }
  }

  /** All cases of `i`'s batch that end the run would be reported alike. */
  predicate BatchAgrees(os: seq<Outcome>, stopOnFirst: bool, i: nat)
    requires i < |os|
  {
    forall j | BatchStart(i) <= j < BatchEnd(i, |os|) && Ends(os[j], stopOnFirst) ::
      Ends(os[i], stopOnFirst) && Report(os[j]) == Report(os[i])
  }

  lemma SameBatch(i: nat, first: nat)
    ensures first <= i && BatchStart(i) <= first ==> BatchStart(first) == BatchStart(i)
    ensures BatchStart(i) <= i < BatchStart(i) + BATCH_MAX
  {
  }

  lemma BatchedIsSequential(os: seq<Outcome>, stopOnFirst: bool, orders: seq<seq<nat>>, first: nat)
    requires JoinOrders(|os|, 0, orders) && FirstEnding(os, stopOnFirst, first) && (os != [] || stopOnFirst)
    requires first == |os| || BatchAgrees(os, stopOnFirst, first)
    ensures Batched(os, stopOnFirst, orders).0 == Sequential(os, stopOnFirst, 0)
  {
    var r, started := BatchedAnswers(os, stopOnFirst, orders);
    SequentialMeans(os, stopOnFirst, 0, first);
    if first < |os| {
      var i :| 0 <= i < |os| && AnswersWith(os, stopOnFirst, r, started, i);
      SameBatch(i, first);
    }
  }

  lemma OtherAnswer(os: seq<Outcome>, stopOnFirst: bool, first: nat, j: nat) returns (orders: seq<seq<nat>>)
    requires FirstEnding(os, stopOnFirst, first) && first < |os|
    requires BatchStart(first) <= j < BatchEnd(first, |os|) && Ends(os[j], stopOnFirst)
    ensures JoinOrders(|os|, 0, orders) && Batched(os, stopOnFirst, orders).0 == Some(Report(os[j]))
  {
    BatchOf(j, BatchStart(first));
    assert AnswersWith(os, stopOnFirst, Some(Report(os[j])), BatchEnd(j, |os|), j);
    orders := AnswerHasOrder(os, stopOnFirst, Some(Report(os[j])), BatchEnd(j, |os|));
  }

  ghost predicate LikeSequential(os: seq<Outcome>, stopOnFirst: bool, orders: seq<seq<nat>>) {
    JoinOrders(|os|, 0, orders) ==> Batched(os, stopOnFirst, orders).0 == Sequential(os, stopOnFirst, 0)
  }

  /** Batching is invisible in every order of completion if and only if the
      cases that end the run in the first batch with such a case would be
      reported alike, or none does; and there are cases, if they are collected. */
  lemma BatchedIsSequentialIff(os: seq<Outcome>, stopOnFirst: bool, first: nat)
    requires FirstEnding(os, stopOnFirst, first)
    ensures (forall orders :: LikeSequential(os, stopOnFirst, orders))
            <==> (os != [] || stopOnFirst) && (first == |os| || BatchAgrees(os, stopOnFirst, first))
  {
    if (os != [] || stopOnFirst) && (first == |os| || BatchAgrees(os, stopOnFirst, first)) {
      forall orders | JoinOrders(|os|, 0, orders) ensures LikeSequential(os, stopOnFirst, orders) {
        BatchedIsSequential(os, stopOnFirst, orders, first);
      }
    } else if first < |os| {
      var j :| BatchStart(first) <= j < BatchEnd(first, |os|) && Ends(os[j], stopOnFirst)
               && Report(os[j]) != Report(os[first]);
      var orders := OtherAnswer(os, stopOnFirst, first, j);
      SequentialMeans(os, stopOnFirst, 0, first);
      assert !LikeSequential(os, stopOnFirst, orders);
    } else {
      assert !LikeSequential(os, stopOnFirst, []);
    }
  }

  // ----- What the answers say -----

  /** No case before the batch of eight that case `i` is in ends the run. */
  ghost predicate InFirstEndingBatch(os: seq<Outcome>, stopOnFirst: bool, i: nat)
    requires i < |os|
  {
    forall j | 0 <= j < i - i % 8 ::
      os[j].Cancelled? || (os[j].Judged? && (stopOnFirst ==> os[j].verdict.Accepted?))
  }

  /** The cases started when the batch of case `i` is the last one. */
  function StartedUpTo(i: nat, n: nat): nat { if i - i % 8 + 8 < n then i - i % 8 + 8 else n }

  lemma BatchOfEight(i: nat, n: nat)
    ensures BatchStart(i) == i - i % 8 && BatchEnd(i, n) == StartedUpTo(i, n)
  {
  }

  /** A run is stopped only with the verdict of a case that was judged and not
      accepted, and fails only with the message of a case that failed or
      panicked, in the first batch with such a case; verdicts are collected only
      without stopping, and no answer of a run is about the compilation. */
  lemma AnswersMean(os: seq<Outcome>, stopOnFirst: bool, r: Option<TaskResult>, started: nat)
    requires Answers(os, stopOnFirst, r, started) && r.Some?
    ensures r.value.Stopped? ==>
              && stopOnFirst && !r.value.verdict.Accepted?
              && exists i | 0 <= i < |os| ::
                   && os[i] == Judged(r.value.verdict)
                   && InFirstEndingBatch(os, stopOnFirst, i) && started == StartedUpTo(i, |os|)
    ensures r.value.Internal? ==>
              exists i | 0 <= i < |os| ::
                && (os[i] == Failed(r.value.message) || os[i] == Panicked(r.value.message))
                && InFirstEndingBatch(os, stopOnFirst, i) && started == StartedUpTo(i, |os|)
    ensures r.value.AllPassed? ==> stopOnFirst || os == []
    ensures r.value.Collected? ==> !stopOnFirst
    ensures !r.value.CompilationError?
  {
    if !NoneEnds(os, |os|, stopOnFirst) {
      var i :| 0 <= i < |os| && AnswersWith(os, stopOnFirst, r, started, i);
      BatchOfEight(i, |os|);
      assert InFirstEndingBatch(os, stopOnFirst, i);
    }
  }

  /** Conversely each such case may be the one that is answered. */
  lemma EndingCaseMayAnswer(os: seq<Outcome>, stopOnFirst: bool, i: nat)
    requires i < |os| && InFirstEndingBatch(os, stopOnFirst, i)
    ensures os[i].Judged? && stopOnFirst && !os[i].verdict.Accepted? ==>
              Answers(os, stopOnFirst, Some(Stopped(os[i].verdict)), StartedUpTo(i, |os|))
    ensures os[i].Failed? || os[i].Panicked? ==>
              Answers(os, stopOnFirst, Some(Internal(os[i].message)), StartedUpTo(i, |os|))
  {
    BatchOfEight(i, |os|);
    if Ends(os[i], stopOnFirst) {
      OneAnswers(os, stopOnFirst, Some(Report(os[i])), BatchEnd(i, |os|), i);
    }
  }

  /** Stopping at the first error: the answer says that all passed exactly when
      every case was accepted or cancelled and not all were cancelled; its usage
      is the maximum over the accepted ones. */
  lemma AllPassedIffAllAccepted(os: seq<Outcome>, r: Option<TaskResult>, started: nat)
    requires Answers(os, true, r, started)
    ensures (r.Some? && r.value.AllPassed?) <==>
              && (forall i | 0 <= i < |os| :: Passed(os[i]) || os[i].Cancelled?)
              && (os != [] ==> exists i | 0 <= i < |os| :: Passed(os[i]))
    ensures r.Some? && r.value.AllPassed? ==>
              started == |os| && if os == [] then r.value.maxUsage == Usage(0, 0, 0)
                                 else IsMaxOver(Some(r.value.maxUsage), os, Upto(|os|))
  {
    MaxUsageIsMax(os, |os|);
    if !NoneEnds(os, |os|, true) {
      var i :| 0 <= i < |os| && AnswersWith(os, true, r, started, i);
    } else if MaxUsage(os, |os|).None? {
      assert forall i | 0 <= i < |os| :: i in Upto(|os|) && !Passed(os[i]);
    }
  }

  /** Collecting: the verdicts come back in case order exactly when there are
      cases and all were judged; an empty list is answered like a passed run. */
  lemma CollectedIff(os: seq<Outcome>, r: Option<TaskResult>, started: nat)
    requires Answers(os, false, r, started)
    ensures (r.Some? && r.value.Collected?) <==> os != [] && AllJudged(os)
    ensures r.Some? && r.value.Collected? ==>
              |r.value.cases| == |os| && forall i | 0 <= i < |os| :: os[i] == Judged(r.value.cases[i])
    ensures os == [] ==> r == Some(AllPassed(Usage(0, 0, 0)))
  {
    if !NoneEnds(os, |os|, false) {
      var i :| 0 <= i < |os| && AnswersWith(os, false, r, started, i);
    }
  }

  /** Without cancelled joins the `unwrap`s never fail. An `unwrap` panics exactly
      when nothing ended the run and cancellations left it without a value: all
      cases cancelled when stopping at the first error, any when collecting. */
  lemma PanicsIffCancelled(os: seq<Outcome>, stopOnFirst: bool, r: Option<TaskResult>, started: nat)
    requires Answers(os, stopOnFirst, r, started)
    ensures r.None? <==>
              && os != [] && NoneEnds(os, |os|, stopOnFirst)
              && if stopOnFirst then forall i | 0 <= i < |os| :: os[i].Cancelled?
                 else exists i | 0 <= i < |os| :: os[i].Cancelled?
  {
    MaxUsageIsMax(os, |os|);
    if !NoneEnds(os, |os|, stopOnFirst) {
      var i :| 0 <= i < |os| && AnswersWith(os, stopOnFirst, r, started, i);
    } else if os != [] && stopOnFirst && MaxUsage(os, |os|).None? {
      assert forall i | 0 <= i < |os| :: i in Upto(|os|) && !Passed(os[i]);
    }
  }
}
