/**
  The process pool (agent/livekit/agents/ipc/proc_pool.py, job_proc_executor.py) as a state machine: spawn
  tasks, monitor tasks, launches waiting for a process, and the main task. A step is what runs between two
  awaits.
 */
module PoolMachine {
  import opened Wrappers
  import opened Subsequences

  type ExecId = nat
  type JobId = nat

  /** Where the spawn task of an executor stands, or how it ended. */
  datatype Stage =
    | Created       // in the list, waiting for the semaphore
    | Starting      // in `start`
    | Initializing  // in `initialize`
    | Ready         // put into the warm queue
    | Failed        // `initialize` raised
    | Unstarted     // `start` raised
    | Dropped       // the pool was closed first

  /** An executor; `initialized` says whether its future is done, be it with an exception. */
  datatype Proc = Proc(stage: Stage, initialized: bool, monitored: bool, running: Option<JobId>)

  const NEW_PROC := Proc(Created, false, false, None)

  datatype LaunchError = Busy | NotInitialized

  /** A call of `launch_job`. */
  datatype Launch = Pending | On(proc: ExecId) | Refused(error: LaunchError)

  /**
    The pool. `unborn` spawn tasks have not run yet, `ended` ones have, but their done callbacks have not, so
    that they are still in the set; `free` is what the semaphore still grants. `taken` (the executors that
    left the warm queue), `lost` (spawn tasks that ended without a ready process) and `uncovered` (launches
    counted in without a process of their own) only record the past.
   */
  datatype State = State(
    procs: seq<Proc>, executors: seq<ExecId>, queue: seq<ExecId>, unborn: nat, ended: nat, free: nat,
    jobs: seq<Launch>, waiting: nat, target: nat, closed: bool, idleReady: bool,
    taken: seq<ExecId>, lost: nat, uncovered: nat)

  function Initial(permits: nat, idle: nat): State {
    State([], [], [], 0, 0, permits, [], 0, idle, false, false, [], 0, 0)
  }

  datatype Event =
    | LaunchJob              // `launch_job`, up to its first suspension
    | Resume(job: JobId)     // a launch waiting in `Queue.get` goes on
    | Begin                  // a spawn task runs up to the semaphore
    | Enter(proc: ExecId)    // it gets the semaphore
    | Started(proc: ExecId)
    | StartFails(proc: ExecId)
    | Initialized(proc: ExecId)
    | InitFails(proc: ExecId)
    | Discard                // the done callback of an ended spawn task
    | Exits(proc: ExecId)    // the monitor task sees the process end
    | Tick                   // a round of the main task
    | SetTarget(n: nat)
    | Close

  predicate Spawning(x: Proc) {
    x.stage == Created || Inside(x)
  }

  /** Holding the semaphore. */
  predicate Inside(x: Proc) {
    x.stage == Starting || x.stage == Initializing
  }

  predicate IsPending(j: Launch) {
    j == Pending
  }

  function Count<T>(s: seq<T>, p: T -> bool): nat {
    if s == [] then 0 else Count(DropLast(s), p) + (if p(Last(s)) then 1 else 0)
  }

  /** The spawn tasks that can still bring up a process. */
  function Coming(st: State): nat {
    st.unborn + Count(st.procs, Spawning)
  }

  /** `len(self._spawn_tasks)`. */
  function SpawnTasks(st: State): nat {
    Coming(st) + st.ended
  }

  /** How many of the waiting launches have no process warm or coming. */
  function Shortage(st: State): nat {
    var n := st.waiting - |st.queue| - Coming(st);
    if n > 0 then n else 0
  }

  /**
    Whether a launch leaves one more without a process: it takes a warm one that somebody else was counting
    on, or it finds none and spawns none because of spawn tasks that have ended.
   */
  predicate Uncovers(st: State) {
    if st.queue == [] then Coming(st) <= st.waiting < SpawnTasks(st) else st.waiting >= |st.queue| + Coming(st)
  }

  predicate At(st: State, p: ExecId, stage: Stage) {
    p < |st.procs| && st.procs[p].stage == stage
  }

  predicate Enabled(st: State, e: Event) {
    match e
    case LaunchJob => st.queue != [] ==> st.queue[0] < |st.procs|
    case Resume(j) => j < |st.jobs| && st.jobs[j] == Pending && st.queue != [] && st.queue[0] < |st.procs| &&
        st.waiting > 0
    case Begin => st.unborn > 0
    case Enter(p) => At(st, p, Created) && st.free > 0
    case Started(p) => At(st, p, Starting)
    case StartFails(p) => At(st, p, Starting)
    case Initialized(p) => At(st, p, Initializing)
    case InitFails(p) => At(st, p, Initializing)
    case Discard => st.ended > 0
    case Exits(p) => p < |st.procs| && st.procs[p].monitored
    case Tick => true
    case SetTarget(_) => true
    case Close => true
  }

  /** `ProcJobExecutor.launch_job`: the guards in their order. */
  function TryLaunch(x: Proc, j: JobId): Option<LaunchError> {
    if x.running.Some? then Some(Busy) else if !x.initialized then Some(NotInitialized) else None
  }

  function Assigned(x: Proc, j: JobId): Proc {
    if TryLaunch(x, j) == None then x.(running := Some(j)) else x
  }

  function Outcome(error: Option<LaunchError>, p: ExecId): Launch {
    if error == None then On(p) else Refused(error.value)
  }

  /** `Queue.get` returns and the job goes to the process. */
  function Take(st: State, j: JobId): State
    requires j < |st.jobs| && st.queue != [] && st.queue[0] < |st.procs| && st.waiting > 0
  {
    var p := st.queue[0];
    var x := st.procs[p];
    st.(queue := st.queue[1..], taken := st.taken + [p], waiting := st.waiting - 1,
        jobs := st.jobs[j := Outcome(TryLaunch(x, j), p)], procs := st.procs[p := Assigned(x, j)])
  }

  /** Counting the launch in, with a new spawn task when nothing is warm and too few are on their way. */
  function Arrive(st: State): State {
    var counted := st.(waiting := st.waiting + 1, jobs := st.jobs + [Pending]);
    if st.queue == [] && SpawnTasks(st) < counted.waiting then counted.(unborn := st.unborn + 1) else counted
  }

  /** The same, recorded when it leaves one more without a process. */
  function CountedIn(st: State): State {
    Arrive(st).(uncovered := st.uncovered + (if Uncovers(st) then 1 else 0))
  }

  function Remove(s: seq<ExecId>, p: ExecId): seq<ExecId> {
    if s == [] then [] else if s[0] == p then s[1..] else [s[0]] + Remove(s[1..], p)
  }

  function Set(st: State, p: ExecId, x: Proc): State
    requires p < |st.procs|
  {
    st.(procs := st.procs[p := x])
  }

  function Min(a: int, b: int): int {
    if a <= b then a else b
  }

  /** How many spawn tasks a round of the main task adds; `range` of a negative number is empty. */
  function ToSpawn(st: State, idle: nat): nat {
    var n := Min(st.target, idle) - (|st.queue| + SpawnTasks(st));
    if n < 0 then 0 else n
  }

  /** `idle` is `_default_num_idle_processes`. */
  function Next(st: State, e: Event, idle: nat): State
    requires Enabled(st, e)
  {
    match e
    case LaunchJob =>
      if st.queue == [] then CountedIn(st) else Take(CountedIn(st), |st.jobs|)
    case Resume(j) => Take(st, j)
    case Begin =>
      st.(unborn := st.unborn - 1, procs := st.procs + [NEW_PROC], executors := st.executors + [|st.procs|])
    case Enter(p) =>
      if st.closed then
        Set(st, p, st.procs[p].(stage := Dropped)).(executors := Remove(st.executors, p), ended := st.ended + 1,
                                                    lost := st.lost + 1)
      else Set(st, p, st.procs[p].(stage := Starting)).(free := st.free - 1)
    case Started(p) => Set(st, p, st.procs[p].(stage := Initializing))
    case StartFails(p) =>
      Set(st, p, st.procs[p].(stage := Unstarted)).(free := st.free + 1, ended := st.ended + 1, lost := st.lost + 1)
    case Initialized(p) =>
      Set(st, p, st.procs[p].(stage := Ready, initialized := true, monitored := true)).(
        queue := st.queue + [p], free := st.free + 1, ended := st.ended + 1,
        idleReady := st.idleReady || |st.queue| + 1 >= idle)
    case InitFails(p) =>
      Set(st, p, st.procs[p].(stage := Failed, initialized := true, monitored := true)).(
        free := st.free + 1, ended := st.ended + 1, lost := st.lost + 1)
    case Discard => st.(ended := st.ended - 1)
    case Exits(p) => Set(st, p, st.procs[p].(monitored := false)).(executors := Remove(st.executors, p))
    case Tick => if st.closed then st else st.(unborn := st.unborn + ToSpawn(st, idle))
    case SetTarget(n) => st.(target := n)
    case Close => st.(closed := true)
  }

  /** A run, `None` when one of its steps is not possible. */
  function Run(st: State, events: seq<Event>, idle: nat): Option<State> {
    if events == [] then Some(st)
    else match Run(st, DropLast(events), idle)
      case None => None
      case Some(mid) => if Enabled(mid, Last(events)) then Some(Next(mid, Last(events), idle)) else None
  }
}
