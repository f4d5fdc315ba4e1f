/** The judge-core agent pool as a step system.

    One event is one atomic section of the Rust code: the body of a lock, a
    single atomic load or store, or one `send`/`notify_one`. Every task of the
    program (submitters, the dispatcher, the spawned runners, the health loop,
    the drain loop, shutdown) is a program counter in `State`; a run is any
    interleaving of enabled events. */
module PoolModel {
  import opened Common

  const U32_MODULUS := 0x1_0000_0000

  type u32 = x: int | 0 <= x < U32_MODULUS

  /** `AtomicU32::fetch_add(1)` and `fetch_sub(1)` wrap around. */
  function WrappingInc(x: u32): u32 { (x + 1) % U32_MODULUS }

  function WrappingDec(x: u32): u32 { (x + U32_MODULUS - 1) % U32_MODULUS }

  /** The fields of `PoolConfig` that the protocol reads. */
  datatype Config = Config(maxQueue: nat, maxRetries: u32, maxConcurrent: u32)

  datatype Task = Task(frame: nat, retries: u32)

  /** The cells shared by all clones of one `AgentHandle`. They outlive the
      agent's membership in the pool. */
  datatype Handle = Handle(id: string, active: u32, healthy: bool, draining: bool)

  /** The candidate carried by `min_by_key`: an agent and the load it was read with. */
  datatype Pick = Pick(agent: nat, load: u32)

  /** `Scanning` holds the queue lock and the read lock of the agent list;
      `Chosen` has popped its task but has not yet counted it on the agent. */
  datatype Dispatcher =
    | Awake
    | EmptyWait
    | Scanning(next: nat, best: Option<Pick>)
    | AgentWait
    | Chosen(agent: nat, task: Task)

  /** A spawned runner, before and after its `fetch_sub`. */
  datatype Runner =
    | Executing(agent: nat, task: Task)
    | Released(task: Task, ok: bool, owes: bool)

  datatype HealthLoop = HealthIdle | HealthOwes

  /** Why the drain loop takes an agent; `held` records the dispatch that was
      under way on the agent when its counter was read as zero. */
  datatype Reason = Unhealthy | Drained(held: Option<Task>)

  datatype Candidate = Candidate(agent: nat, reason: Reason)

  /** `healthRead`: the health flag of `todo[0]` has been read, as true. */
  datatype DrainLoop = DrainIdle | DrainScan(todo: seq<nat>, healthRead: bool, found: seq<Candidate>)

  datatype Outcome = Done | MaxRetriesExceeded(retries: u32) | ShuttingDown

  datatype Answer = Answer(frame: nat, outcome: Outcome)

  /** What has happened so far: frames in acceptance order, tasks in the order
      they entered the queue and in the order they left it, answers in the order
      they were sent, and how often each frame was started and failed. */
  datatype History = History(
    accepted: seq<nat>,
    entered: seq<Task>,
    left: seq<Task>,
    answers: seq<Answer>,
    started: multiset<nat>,
    failed: multiset<nat>)

  datatype State = State(
    queue: seq<Task>,
    handles: seq<Handle>,      // every handle ever made, by creation order
    agents: seq<nat>,          // the pool's list, as indices into handles
    nextFrame: nat,
    checked: nat,              // submitters past the shutdown check, without a frame id
    arriving: set<nat>,        // frame ids taken but not yet queued
    signals: nat,              // buffered task signals
    permit: bool,              // the stored permit of `agent_available`
    shuttingDown: bool,
    dispatcher: Dispatcher,
    runners: seq<Runner>,
    health: HealthLoop,
    drain: DrainLoop,
    log: History)

  datatype Event =
    | PassOpenCheck
    | TakeFrameId
    | Enqueue(frame: nat)
    | BeginShutdown
    | RejectQueued
    | AddAgent(id: string)
    | RemoveAgent(id: string)
    | MarkDraining(id: string)
    | ClearAgents
    | StoreHealth(agent: nat, healthy: bool)
    | NotifyRecovery
    | DrainSnapshot
    | DrainReadHealth
    | DrainReadLoad
    | DrainNothing
    | DrainRetain
    | CheckQueue
    | RecvSignal
    | ScanNext
    | ScanEnd
    | WakeByPermit
    | WakeBySignal
    | CountDispatch
    | Release(runner: nat, ok: bool)
    | NotifyIdle(runner: nat)
    | Settle(runner: nat)

  function Init(): State {
    State([], [], [], 1, 0, {}, 0, false, false, Awake, [], HealthIdle, DrainIdle,
          History([], [], [], [], multiset{}, multiset{}))
  }

  /** The dispatcher holds the queue lock and the agents' read lock exactly while it scans. */
  predicate Unlocked(s: State) { !s.dispatcher.Scanning? }

  // ----- Submitting -----

  function PassedOpenCheck(s: State): State {
    s.(checked := s.checked + 1)
  }

  function TookFrameId(s: State): State
    requires s.checked > 0
  {
    s.(checked := s.checked - 1, arriving := s.arriving + {s.nextFrame}, nextFrame := s.nextFrame + 1)
  }

  function Enqueued(c: Config, s: State, frame: nat): State {
    var s0 := s.(arriving := s.arriving - {frame});
    if |s.queue| >= c.maxQueue then s0
    else
      s0.(queue := s.queue + [Task(frame, 0)],
          signals := if s.queue == [] then s.signals + 1 else s.signals,
          log := s.log.(accepted := s.log.accepted + [frame], entered := s.log.entered + [Task(frame, 0)]))
  }

  // ----- Shutting down -----

  function Rejections(q: seq<Task>): seq<Answer> {
    if q == [] then [] else [Answer(q[0].frame, ShuttingDown)] + Rejections(q[1..])
  }

  function RejectedQueued(s: State): State {
    s.(queue := [],
       log := s.log.(left := s.log.left + s.queue,
                     answers := s.log.answers + Rejections(s.queue)))
  }

  // ----- The agent list -----

  ghost predicate Below(xs: seq<nat>, n: nat) {
    forall k | 0 <= k < |xs| :: xs[k] < n
  }

  /** `agents.iter().position(|a| a.id == id)` */
  function Position(hs: seq<Handle>, agents: seq<nat>, id: string): (r: Option<nat>)
    requires Below(agents, |hs|)
    ensures r.Some? ==> r.value < |agents| && hs[agents[r.value]].id == id
    ensures r.None? ==> forall k | 0 <= k < |agents| :: hs[agents[k]].id != id
  {
    if agents == [] then None
    else if hs[agents[0]].id == id then Some(0)
    else match Position(hs, agents[1..], id)
      case None => None
      case Some(p) => Some(p + 1)
  }

  function AddedAgent(s: State, id: string): State
    requires Below(s.agents, |s.handles|)
  {
    if Position(s.handles, s.agents, id).Some? then s
    else
      s.(handles := s.handles + [Handle(id, 0, true, false)],
         agents := s.agents + [|s.handles|],
         permit := true)
  }

  function RemovedAgent(s: State, id: string): State
    requires Below(s.agents, |s.handles|)
  {
    match Position(s.handles, s.agents, id)
    case None => s
    case Some(p) => s.(agents := s.agents[..p] + s.agents[p + 1..])
  }

  function MarkedDraining(s: State, id: string): State
    requires Below(s.agents, |s.handles|)
  {
    match Position(s.handles, s.agents, id)
    case None => s
    case Some(p) =>
      var a := s.agents[p];
      s.(handles := s.handles[a := s.handles[a].(draining := true)])
  }

  // ----- The health loop -----

  function StoredHealth(s: State, a: nat, healthy: bool): State
    requires a < |s.handles|
  {
    s.(handles := s.handles[a := s.handles[a].(healthy := healthy)],
       health := if !s.handles[a].healthy && healthy then HealthOwes else HealthIdle)
  }

  // ----- The drain loop -----

  /** The dispatch that is under way on agent `a`: a popped task, or the head
      of the locked queue while `a` is the best agent of a scan. */
  function HeldDispatch(s: State, a: nat): Option<Task> {
    match s.dispatcher
    case Chosen(b, t) => if a == b then Some(t) else None
    case Scanning(_, Some(p)) => if p.agent == a && s.queue != [] then Some(s.queue[0]) else None
    case _ => None
  }

  function DrainReadHealthOf(s: State): State
    requires s.drain.DrainScan? && s.drain.todo != [] && s.drain.todo[0] < |s.handles|
  {
    var a := s.drain.todo[0];
    if s.handles[a].healthy then s.(drain := s.drain.(healthRead := true))
    else s.(drain := DrainScan(s.drain.todo[1..], false, s.drain.found + [Candidate(a, Unhealthy)]))
  }

  function DrainReadLoadOf(s: State): State
    requires s.drain.DrainScan? && s.drain.todo != [] && s.drain.todo[0] < |s.handles|
  {
    var a := s.drain.todo[0];
    var found :=
      if s.handles[a].draining && s.handles[a].active == 0
      then s.drain.found + [Candidate(a, Drained(HeldDispatch(s, a)))]
      else s.drain.found;
    s.(drain := DrainScan(s.drain.todo[1..], false, found))
  }

  ghost predicate Known(found: seq<Candidate>, n: nat) {
    forall i | 0 <= i < |found| :: found[i].agent < n
  }

  predicate NamedBy(hs: seq<Handle>, found: seq<Candidate>, a: nat)
    requires a < |hs| && Known(found, |hs|)
  {
    exists i | 0 <= i < |found| :: hs[found[i].agent].id == hs[a].id
  }

  /** `guard.retain(..)`: the drain loop matches agents by id, not by handle. */
  function Retained(hs: seq<Handle>, found: seq<Candidate>, agents: seq<nat>): seq<nat>
    requires Below(agents, |hs|)
    requires Known(found, |hs|)
  {
    if agents == [] then []
    else (if NamedBy(hs, found, agents[0]) then [] else [agents[0]]) + Retained(hs, found, agents[1..])
  }

  // ----- The dispatcher -----

  function CheckedQueue(s: State): State {
    if s.queue == [] then s.(dispatcher := EmptyWait) else s.(dispatcher := Scanning(0, None))
  }

  predicate Eligible(c: Config, h: Handle) {
    h.healthy && !h.draining && h.active < c.maxConcurrent
  }

  /** One element of `filter(..).min_by_key(..)`: the first of equally loaded agents stays. */
  function Better(c: Config, h: Handle, a: nat, best: Option<Pick>): Option<Pick> {
    if Eligible(c, h) && (best.None? || h.active < best.value.load) then Some(Pick(a, h.active)) else best
  }

  function ScannedNext(c: Config, s: State): State
    requires s.dispatcher.Scanning? && s.dispatcher.next < |s.agents|
    requires s.agents[s.dispatcher.next] < |s.handles|
  {
    var a := s.agents[s.dispatcher.next];
    s.(dispatcher := Scanning(s.dispatcher.next + 1, Better(c, s.handles[a], a, s.dispatcher.best)))
  }

  function ScanEnded(s: State): State
    requires s.dispatcher.Scanning? && s.queue != []
  {
    match s.dispatcher.best
    case None => s.(dispatcher := AgentWait)
    case Some(p) =>
      s.(dispatcher := Chosen(p.agent, s.queue[0]),
         queue := s.queue[1..],
         log := s.log.(left := s.log.left + [s.queue[0]]))
  }

  function CountedDispatch(s: State): State
    requires s.dispatcher.Chosen? && s.dispatcher.agent < |s.handles|
  {
    var a := s.dispatcher.agent;
    s.(dispatcher := Awake,
       handles := s.handles[a := s.handles[a].(active := WrappingInc(s.handles[a].active))],
       runners := s.runners + [Executing(a, s.dispatcher.task)],
       log := s.log.(started := s.log.started + multiset{s.dispatcher.task.frame}))
  }

  // ----- The spawned runners -----

  function ReleasedRunner(s: State, i: nat, ok: bool): State
    requires i < |s.runners| && s.runners[i].Executing?
    requires s.runners[i].agent < |s.handles|
  {
    var a := s.runners[i].agent;
    var t := s.runners[i].task;
    s.(handles := s.handles[a := s.handles[a].(active := WrappingDec(s.handles[a].active))],
       runners := s.runners[i := Released(t, ok, s.handles[a].active == 1)],
       log := if ok then s.log else s.log.(failed := s.log.failed + multiset{t.frame}))
  }

  function NotifiedIdle(s: State, i: nat): State
    requires i < |s.runners| && s.runners[i].Released?
  {
    s.(permit := true, runners := s.runners[i := s.runners[i].(owes := false)])
  }

  predicate Requeues(c: Config, r: Runner)
    requires r.Released?
  {
    !r.ok && r.task.retries < c.maxRetries
  }

  function SettledRunner(c: Config, s: State, i: nat): State
    requires i < |s.runners| && s.runners[i].Released?
  {
    var r := s.runners[i];
    var s0 := s.(runners := s.runners[..i] + s.runners[i + 1..]);
    if Requeues(c, r) then
      var t := Task(r.task.frame, r.task.retries + 1);
      s0.(queue := s.queue + [t], signals := s.signals + 1, log := s.log.(entered := s.log.entered + [t]))
    else
      var outcome := if r.ok then Done else MaxRetriesExceeded(r.task.retries);
      s0.(log := s.log.(answers := s.log.answers + [Answer(r.task.frame, outcome)]))
  }

  // ----- Events -----

  ghost predicate DistinctIds(hs: seq<Handle>, agents: seq<nat>)
    requires Below(agents, |hs|)
  {
    forall j, k :: 0 <= j < k < |agents| ==> hs[agents[j]].id != hs[agents[k]].id
  }

  ghost predicate RunnersKnown(rs: seq<Runner>, n: nat) {
    forall i | 0 <= i < |rs| && rs[i].Executing? :: rs[i].agent < n
  }

  ghost predicate DispatcherKnown(d: Dispatcher, queued: bool, agents: nat, n: nat) {
    match d
    case Chosen(a, _) => a < n
    case Scanning(next, best) => queued && next <= agents && (best.Some? ==> best.value.agent < n)
    case _ => true
  }

  ghost predicate DrainKnown(d: DrainLoop, n: nat) {
    d.DrainScan? ==> Below(d.todo, n) && (d.healthRead ==> d.todo != []) && Known(d.found, n)
  }

  /** Indices in the state point at handles; ids in the pool are distinct. */
  ghost predicate WellFormed(s: State) {
    && Below(s.agents, |s.handles|)
    && DistinctIds(s.handles, s.agents)
    && RunnersKnown(s.runners, |s.handles|)
    && DispatcherKnown(s.dispatcher, s.queue != [], |s.agents|, |s.handles|)
    && DrainKnown(s.drain, |s.handles|)
  }

  /** When the program can take the event. Locks block the sections that need them. */
  ghost predicate Enabled(c: Config, s: State, e: Event)
    requires WellFormed(s)
  {
    match e
    case PassOpenCheck => !s.shuttingDown
    case TakeFrameId => s.checked > 0
    case Enqueue(frame) => frame in s.arriving && Unlocked(s)
    case BeginShutdown => true
    case RejectQueued => s.shuttingDown && Unlocked(s)
    case AddAgent(id) => Unlocked(s)
    case RemoveAgent(id) => Unlocked(s)
    case MarkDraining(id) => true
    case ClearAgents => s.shuttingDown && Unlocked(s)
    case StoreHealth(a, healthy) => s.health.HealthIdle? && a < |s.handles|
    case NotifyRecovery => s.health.HealthOwes?
    case DrainSnapshot => s.drain.DrainIdle?
    case DrainReadHealth => s.drain.DrainScan? && s.drain.todo != [] && !s.drain.healthRead
    case DrainReadLoad => s.drain.DrainScan? && s.drain.todo != [] && s.drain.healthRead
    case DrainNothing => s.drain.DrainScan? && s.drain.todo == [] && s.drain.found == []
    case DrainRetain => s.drain.DrainScan? && s.drain.todo == [] && s.drain.found != [] && Unlocked(s)
    case CheckQueue => s.dispatcher.Awake?
    case RecvSignal => s.dispatcher.EmptyWait? && s.signals > 0
    case ScanNext => s.dispatcher.Scanning? && s.dispatcher.next < |s.agents|
    case ScanEnd => s.dispatcher.Scanning? && s.dispatcher.next == |s.agents|
    case WakeByPermit => s.dispatcher.AgentWait? && s.permit
    case WakeBySignal => s.dispatcher.AgentWait? && s.signals > 0
    case CountDispatch => s.dispatcher.Chosen?
    case Release(i, ok) => i < |s.runners| && s.runners[i].Executing?
    case NotifyIdle(i) => i < |s.runners| && s.runners[i].Released? && s.runners[i].owes
    case Settle(i) =>
      && i < |s.runners| && s.runners[i].Released? && !s.runners[i].owes
      && (Requeues(c, s.runners[i]) ==> Unlocked(s))
  }

  function Apply(c: Config, s: State, e: Event): State
    requires WellFormed(s) && Enabled(c, s, e)
  {
    match e
    case PassOpenCheck => PassedOpenCheck(s)
    case TakeFrameId => TookFrameId(s)
    case Enqueue(frame) => Enqueued(c, s, frame)
    case BeginShutdown => s.(shuttingDown := true)
    case RejectQueued => RejectedQueued(s)
    case AddAgent(id) => AddedAgent(s, id)
    case RemoveAgent(id) => RemovedAgent(s, id)
    case MarkDraining(id) => MarkedDraining(s, id)
    case ClearAgents => s.(agents := [])
    case StoreHealth(a, healthy) => StoredHealth(s, a, healthy)
    case NotifyRecovery => s.(permit := true, health := HealthIdle)
    case DrainSnapshot => s.(drain := DrainScan(s.agents, false, []))
    case DrainReadHealth => DrainReadHealthOf(s)
    case DrainReadLoad => DrainReadLoadOf(s)
    case DrainNothing => s.(drain := DrainIdle)
    case DrainRetain => s.(agents := Retained(s.handles, s.drain.found, s.agents), drain := DrainIdle)
    case CheckQueue => CheckedQueue(s)
    case RecvSignal => s.(signals := s.signals - 1, dispatcher := Awake)
    case ScanNext => ScannedNext(c, s)
    case ScanEnd => ScanEnded(s)
    case WakeByPermit => s.(permit := false, dispatcher := Awake)
    case WakeBySignal => s.(signals := s.signals - 1, dispatcher := Awake)
    case CountDispatch => CountedDispatch(s)
    case Release(i, ok) => ReleasedRunner(s, i, ok)
    case NotifyIdle(i) => NotifiedIdle(s, i)
    case Settle(i) => SettledRunner(c, s, i)
  }
}
