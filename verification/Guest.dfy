/** The guest processes of one experiment: each announces itself at a file-system
    barrier, waits for a shared release epoch, runs workers and logs its lifetime.
    Any number of processes take their steps in any order; a clock that never
    goes back advances between steps; a process or worker may fail or die at any
    point. Each file-system call is one step: an `O_APPEND` write, `mkdir` and
    `rename` are atomic. */
module Guest {
  import opened Sequences
  import opened Events

  /** Command line of one process, by pid, and the pids its workers will get. */
  datatype Config = Config(
    step: string,
    participants: int,
    timeout: nat,
    delay: nat,
    workers: nat,
    duration: nat,
    child: nat -> int)

  type Setup = map<int, Config>

  datatype Phase =
    | Idle
    | Starting(at: nat)                          // step_start stamped
    | Started                                    // step_start logged
    | Arrived                                    // identity in the barrier file
    | Polling(deadline: nat)                     // at the top of the loop
    | Checking(deadline: nat)                    // the deadline has not passed
    | Unreleased(deadline: nat)                  // no release file was there
    | Ready(deadline: nat, seen: nat)            // enough identities among the first `seen` lines
    | Stamped(deadline: nat, seen: nat, epoch: nat)  // release epoch computed
    | Holding(deadline: nat, seen: nat, epoch: nat)  // lock directory made
    | Written(deadline: nat, seen: nat, epoch: nat)  // temporary file written
    | Released(epoch: nat, forked: nat)          // forking workers
    | Reaping(epoch: nat, forked: nat)           // waiting for them
    | Failing                                    // the barrier raised
    | Ending(at: nat, ok: bool, result: Option<nat>) // step_end stamped
    | Done(ok: bool, result: Option<nat>)        // step_end logged
    | Crashed

  datatype WorkerPhase =
    | Waiting(epoch: nat)
    | WorkerStarting(at: nat)                    // worker_start stamped
    | WorkerStarted                              // worker_start logged
    | Running(deadline: nat)
    | WorkerEnding(at: nat)                      // worker_end stamped
    | Exited(code: int)

  /** A line of the barrier file, with the instant it was appended. */
  datatype Arrival = Arrival(step: string, pid: int, at: nat)

  datatype Publication = Publication(pid: int, epoch: nat, seen: nat)

  /** `published`, `began`, `ended` and the arrival instants are history. */
  datatype State = State(
    clock: nat,
    ready: seq<Arrival>,
    lock: Option<int>,
    temps: map<int, nat>,
    release: Option<nat>,
    log: seq<Event>,
    phase: map<int, Phase>,
    workers: map<(int, nat), WorkerPhase>,
    published: seq<Publication>,
    began: map<int, nat>,
    ended: map<int, nat>)

  /** A fresh directory and processes that have not started. */
  function Initial(setup: Setup, clock: nat): State {
    State(clock, [], None, map[], None, [], map p | p in setup :: Idle, map[], [], map[], map[])
  }

  /** The set of lines the barrier file holds. */
  function Identities(ready: seq<Arrival>): set<(string, int)> {
    set a | a in ready :: (a.step, a.pid)
  }

  function StepEvent(kind: Kind, c: Config, p: int, at: nat): Event {
    Event(kind, Some(at), Some(c.step), None, Some(p), None, None)
  }

  function WorkerEvent(kind: Kind, c: Config, j: nat, at: nat): Event {
    Event(kind, Some(at), Some(c.step), Some(j), Some(c.child(j)), None, None)
  }

  /** Who moves next, and the outcome where the outside world decides it. */
  datatype Action =
    | Tick(ns: nat)
    | Advance(pid: int)
    | Misread(pid: int)                          // a file of the barrier could not be read
    | BarrierError(pid: int)                     // a file operation of the barrier raised
    | ForkError(pid: int)
    | Crash(pid: int)
    | WorkerAdvance(pid: int, j: nat)
    | WorkerFail(pid: int, j: nat, code: int)
    | Note(e: Event)                             // a record of another kind is logged

  predicate InBarrier(f: Phase) {
    || f.Started? || f.Arrived? || f.Polling? || f.Checking? || f.Unreleased?
    || f.Ready? || f.Stamped? || f.Holding? || f.Written?
  }

  /** A step of a main process. */
  predicate IsMain(a: Action) {
    a.Advance? || a.Misread? || a.BarrierError? || a.ForkError? || a.Crash?
  }

  predicate AllExited(s: State, p: int, forked: nat) {
    forall j: nat :: j < forked ==> (p, j) in s.workers && s.workers[(p, j)].Exited?
  }

  predicate AllSucceeded(s: State, p: int, forked: nat)
    requires AllExited(s, p, forked)
  {
    forall j: nat :: j < forked ==> s.workers[(p, j)].code == 0
  }

  predicate Enabled(setup: Setup, s: State, a: Action) {
    match a
    case Tick(_) => true
    case Note(e) => (e.kind.WorkerSample? || e.kind.OtherKind?) && (e.ts.Some? ==> 0 <= e.ts.value)
    case Advance(p) =>
      && p in setup && p in s.phase && !s.phase[p].Done? && !s.phase[p].Crashed?
      && (s.phase[p].Reaping? ==> AllExited(s, p, s.phase[p].forked))
    case Misread(p) => p in setup && p in s.phase && (s.phase[p].Checking? || s.phase[p].Unreleased?)
    case BarrierError(p) => p in setup && p in s.phase && InBarrier(s.phase[p])
    case ForkError(p) =>
      p in setup && p in s.phase && s.phase[p].Released? && s.phase[p].forked < setup[p].workers
    case Crash(p) => p in setup && p in s.phase && !s.phase[p].Done?
    case WorkerAdvance(p, j) =>
      && p in setup && (p, j) in s.workers
      && (match s.workers[(p, j)]
          case Waiting(epoch) => epoch <= s.clock
          case Running(deadline) => deadline <= s.clock
          case Exited(_) => false
          case _ => true)
    case WorkerFail(p, j, code) =>
      p in setup && (p, j) in s.workers && !s.workers[(p, j)].Exited? && code != 0
  }

  function Move(s: State, p: int, f: Phase): State {
    s.(phase := s.phase[p := f])
  }

  /** Log the start and append an identity to the barrier file. */
  function Announce(c: Config, s: State, p: int): State
    requires p in s.phase
  {
    match s.phase[p]
    case Idle => Move(s, p, Starting(s.clock)).(began := s.began[p := s.clock])
    case Starting(at) => Move(s, p, Started).(log := s.log + [StepEvent(StepStart, c, p, at)])
    case Started => Move(s, p, Arrived).(ready := s.ready + [Arrival(c.step, p, s.clock)])
    case _ => Move(s, p, Polling(s.clock + c.timeout))
  }

  /** Look at the clock, the release file and the identities, in turn. */
  function Poll(c: Config, s: State, p: int): State
    requires p in s.phase && (s.phase[p].Polling? || s.phase[p].Checking? || s.phase[p].Unreleased?)
  {
    var d := s.phase[p].deadline;
    if s.phase[p].Polling? then Move(s, p, if s.clock < d then Checking(d) else Failing)
    else if s.phase[p].Checking? then
      Move(s, p, if s.release.Some? then Released(s.release.value, 0) else Unreleased(d))
    else
      Move(s, p, if |Identities(s.ready)| >= c.participants then Ready(d, |s.ready|) else Polling(d))
  }

  /** A release file that cannot be read counts as absent, and a barrier file that
      cannot be read as empty. */
  function Overlook(c: Config, s: State, p: int): State
    requires p in s.phase && (s.phase[p].Checking? || s.phase[p].Unreleased?)
  {
    var d := s.phase[p].deadline;
    if s.phase[p].Checking? then Move(s, p, Unreleased(d))
    else Move(s, p, if 0 >= c.participants then Ready(d, 0) else Polling(d))
  }

  function Stamp(c: Config, s: State, p: int): State
    requires p in s.phase && s.phase[p].Ready?
  {
    Move(s, p, Stamped(s.phase[p].deadline, s.phase[p].seen, s.clock + c.delay))
  }

  /** `mkdir`: one process succeeds, the others go back to polling. */
  function TakeLock(s: State, p: int): State
    requires p in s.phase && s.phase[p].Stamped?
  {
    if s.lock.Some? then Move(s, p, Polling(s.phase[p].deadline))
    else Move(s, p, Holding(s.phase[p].deadline, s.phase[p].seen, s.phase[p].epoch)).(lock := Some(p))
  }

  /** `O_EXCL` creation: a file that is there already is an error. */
  function WriteTemporary(s: State, p: int): State
    requires p in s.phase && s.phase[p].Holding?
  {
    if p in s.temps then Move(s, p, Failing)
    else
      Move(s, p, Written(s.phase[p].deadline, s.phase[p].seen, s.phase[p].epoch)).(
        temps := s.temps[p := s.phase[p].epoch])
  }

  function Rename(s: State, p: int): State
    requires p in s.phase && s.phase[p].Written?
  {
    if p !in s.temps then Move(s, p, Failing)
    else
      Move(s, p, Polling(s.phase[p].deadline)).(
        release := Some(s.temps[p]), temps := s.temps - {p},
        published := s.published + [Publication(p, s.temps[p], s.phase[p].seen)])
  }

  /** Compute an epoch, take the lock, write a temporary file and rename it. */
  function Publish(c: Config, s: State, p: int): State
    requires p in s.phase && Publishing(s.phase[p])
  {
    if s.phase[p].Ready? then Stamp(c, s, p)
    else if s.phase[p].Stamped? then TakeLock(s, p)
    else if s.phase[p].Holding? then WriteTemporary(s, p)
    else Rename(s, p)
  }

  /** Fork the next worker, or go on to wait for them all. */
  function Fork(c: Config, s: State, p: int): State
    requires p in s.phase && s.phase[p].Released?
  {
    var e, n := s.phase[p].epoch, s.phase[p].forked;
    if n < c.workers then Move(s, p, Released(e, n + 1)).(workers := s.workers[(p, n) := Waiting(e)])
    else Move(s, p, Reaping(e, n))
  }

  /** Judge the workers, or the failed barrier, and stamp the end. */
  function Conclude(c: Config, s: State, p: int): State
    requires p in s.phase && (s.phase[p].Reaping? ==> AllExited(s, p, s.phase[p].forked))
  {
    match s.phase[p]
    case Reaping(e, n) => Move(s, p, Ending(s.clock, n == c.workers && AllSucceeded(s, p, n), Some(e)))
    case _ => Move(s, p, Ending(s.clock, false, None))
  }

  function LogEnd(c: Config, s: State, p: int): State
    requires p in s.phase && s.phase[p].Ending?
  {
    var at := s.phase[p].at;
    Move(s, p, Done(s.phase[p].ok, s.phase[p].result)).(
      log := s.log + [StepEvent(StepEnd, c, p, at)], ended := s.ended[p := at])
  }

  predicate Announcing(f: Phase) { f.Idle? || f.Starting? || f.Started? || f.Arrived? }
  predicate Looking(f: Phase) { f.Polling? || f.Checking? || f.Unreleased? }
  predicate Publishing(f: Phase) { f.Ready? || f.Stamped? || f.Holding? || f.Written? }

  predicate Concluding(f: Phase) { f.Reaping? || f.Failing? }

  /** One step of the main process. */
  function Main(c: Config, s: State, p: int): State
    requires p in s.phase && (s.phase[p].Reaping? ==> AllExited(s, p, s.phase[p].forked))
  {
    var f := s.phase[p];
    if Announcing(f) then Announce(c, s, p)
    else if Looking(f) then Poll(c, s, p)
    else if Publishing(f) then Publish(c, s, p)
    else if f.Released? then Fork(c, s, p)
    else if Concluding(f) then Conclude(c, s, p)
    else if f.Ending? then LogEnd(c, s, p)
    else s
  }

  function MoveWorker(s: State, p: int, j: nat, f: WorkerPhase): State {
    s.(workers := s.workers[(p, j) := f])
  }

  /** Where a worker's next step takes it. */
  function NextWorkerPhase(c: Config, clock: nat, f: WorkerPhase): WorkerPhase {
    match f
    case Waiting(_) => WorkerStarting(clock)
    case WorkerStarting(_) => WorkerStarted
    case WorkerStarted => Running(clock + c.duration)
    case Running(_) => WorkerEnding(clock)
    case WorkerEnding(_) => Exited(0)
    case Exited(_) => f
  }

  /** What that step logs. */
  function WorkerLog(c: Config, j: nat, f: WorkerPhase): seq<Event> {
    match f
    case WorkerStarting(at) => [WorkerEvent(WorkerStart, c, j, at)]
    case WorkerEnding(at) => [WorkerEvent(WorkerEnd, c, j, at)]
    case _ => []
  }

  /** One step of a worker process. */
  function Work(c: Config, s: State, p: int, j: nat): State
    requires (p, j) in s.workers
  {
    var f := s.workers[(p, j)];
    s.(workers := s.workers[(p, j) := NextWorkerPhase(c, s.clock, f)],
       log := s.log + WorkerLog(c, j, f))
  }

  function Do(setup: Setup, s: State, a: Action): State
    requires Enabled(setup, s, a)
  {
    match a
    case Tick(ns) => s.(clock := s.clock + ns)
    case Note(e) => s.(log := s.log + [e])
    case Advance(p) => Main(setup[p], s, p)
    case Misread(p) => Overlook(setup[p], s, p)
    case BarrierError(p) => Move(s, p, Failing)
    case ForkError(p) => Move(s, p, Reaping(s.phase[p].epoch, s.phase[p].forked))
    case Crash(p) => Move(s, p, Crashed)
    case WorkerAdvance(p, j) => Work(setup[p], s, p, j)
    case WorkerFail(p, j, code) => MoveWorker(s, p, j, Exited(code))
  }

  /** The state after the actions in turn from a fresh start, if each was possible. */
  function Play(setup: Setup, clock: nat, actions: seq<Action>): Option<State> {
    if actions == [] then Some(Initial(setup, clock))
    else
      var r := Play(setup, clock, Front(actions));
      if r.Some? && Enabled(setup, r.value, Last(actions)) then Some(Do(setup, r.value, Last(actions)))
      else None
  }

  ghost predicate Reachable(setup: Setup, s: State) {
    exists clock, actions :: Play(setup, clock, actions) == Some(s)
  }

  /** The epoch a process got from the barrier, if it has returned from it. */
  function Epoch(f: Phase): Option<nat> {
    match f
    case Released(e, _) => Some(e)
    case Reaping(e, _) => Some(e)
    case Ending(_, _, r) => r
    case Done(_, r) => r
    case _ => None
  }
}
