/**
  Speech scheduling as a state machine: speech handles, the coroutines speaking for them, and the one
  scheduling coroutine (agent/livekit/agents/voice/agent_activity.py, speech_handle.py). A step is what
  runs between two awaits.
 */
module SpeechMachine {
  import opened Wrappers
  import opened Subsequences

  type HandleId = nat
  type TaskId = nat

  /** `SpeechHandle`: its futures and event, the generations (true once done) and the step counter. */
  datatype Handle = Handle(
    interrupted: bool, done: bool, scheduled: bool, authorized: bool, generations: seq<bool>, numSteps: nat)

  const NEW_HANDLE := Handle(false, false, false, false, [], 1)

  /** Where the coroutine of a speech task stands. */
  datatype Phase =
    | AwaitScheduled    // in `_wait_for_scheduled`
    | AwaitAuthorized   // in `_wait_for_authorization`
    | Speaking          // authorized, generation not marked done by this task
    | Executing         // generation marked done, waiting for its tools
    | Leaving           // nothing left to do with the handle
    | Finished          // the task is done

  /**
    A task of `_create_speech_task`; `listed` until its done callbacks have run. `generation` is the one whose
    authorization let it speak.
   */
  datatype Task = Task(handle: Option<HandleId>, isReply: bool, phase: Phase, listed: bool, generation: Option<nat>)

  /** An entry of the speech queue; `stamp` grows with every push. */
  datatype Entry = Entry(priority: int, stamp: nat, handle: HandleId)

  /** A task named when pausing; it need not be a speech task. */
  datatype BlockedTask = BlockedTask(id: int, handle: Option<HandleId>)

  /** Where the scheduling coroutine stands. */
  datatype Pc =
    | NotStarted
    | Waiting                                    // on `_q_updated`
    | Sleeping(handle: HandleId)                 // between pop and authorization
    | Playing(handle: HandleId, generation: nat) // on that generation
    | Exited

  datatype State = State(
    handles: seq<Handle>, tasks: seq<Task>, requested: set<HandleId>,
    queue: seq<Entry>, clock: nat,
    current: Option<HandleId>, updated: bool, paused: bool, blocked: seq<BlockedTask>, pc: Pc)

  const INITIAL := State([], [], {}, [], 0, None, false, true, [], NotStarted)

  // ----- the handle's own operations

  function Authorize(h: Handle): Handle {
    h.(generations := h.generations + [false], authorized := true)
  }

  function MarkGenerationDone(h: Handle): Handle {
    if h.generations == [] then h
    else h.(generations := DropLast(h.generations) + [true])
  }

  function MarkDone(h: Handle): Handle {
    if h.done then h else MarkGenerationDone(h.(done := true))
  }

  function Cancel(h: Handle): Handle {
    if h.done then h else h.(interrupted := true)
  }

  // ----- the queue

  /** Higher priority first, then the earlier stamp: the heap order of `(-priority, stamp)`. */
  predicate Before(a: Entry, b: Entry) {
    a.priority > b.priority || (a.priority == b.priority && a.stamp < b.stamp)
  }

  /** The position of the entry `heappop` returns. */
  function First(queue: seq<Entry>): (k: nat)
    requires queue != []
    ensures k < |queue|
  {
    if |queue| == 1 then 0
    else
      var k := First(DropLast(queue));
      if Before(Last(queue), queue[k]) then |queue| - 1 else k
  }

  function Without<T>(s: seq<T>, k: nat): seq<T>
    requires k < |s|
  {
    s[..k] + s[k + 1..]
  }

  // ----- the scheduling coroutine

  predicate IsBlocked(blocked: seq<BlockedTask>, t: TaskId, handle: Option<HandleId>) {
    exists i :: 0 <= i < |blocked| && (blocked[i].id == t || (handle.Some? && blocked[i].handle == handle))
  }

  /** Every listed task is one the pause does not wait for: `to_wait` is empty. */
  predicate NothingToWaitFor(st: State) {
    forall t :: 0 <= t < |st.tasks| && st.tasks[t].listed ==> IsBlocked(st.blocked, t, st.tasks[t].handle)
  }

  function AuthorizeStep(st: State, h: HandleId): State
    requires h < |st.handles|
  {
    st.(handles := st.handles[h := Authorize(st.handles[h])], pc := Playing(h, |st.handles[h].generations|))
  }

  /** From the top of the inner loop to the next await. `delayed` says whether a delay is configured. */
  function Loop(st: State, delayed: bool): State
    requires forall i :: 0 <= i < |st.queue| ==> st.queue[i].handle < |st.handles|
  {
    if st.queue != [] then
      var k := First(st.queue);
      var h := st.queue[k].handle;
      var popped := st.(queue := Without(st.queue, k), current := Some(h));
      if delayed then popped.(pc := Sleeping(h)) else AuthorizeStep(popped, h)
    else if st.paused && NothingToWaitFor(st) then st.(pc := Exited)
    else st.(updated := false, pc := Waiting)
  }

  // ----- events

  datatype Outcome = NoOutput | NoReply | Reply

  datatype Event =
    | CreateSpeech(isReply: bool)          // `say`, `generate_reply`: a handle and its task
    | CreateInline                         // `on_enter`, `on_exit`, user turns: a task without handle
    | RequestSchedule(h: HandleId, priority: int)
    | Interrupt(h: HandleId)
    | PassScheduled(t: TaskId)
    | PassAuthorized(t: TaskId)
    | EndPlayout(t: TaskId)
    | ToolsDone(t: TaskId, outcome: Outcome)
    | Finish(t: TaskId)
    | Raise(t: TaskId)                     // the coroutine ends with an exception, wherever it stands
    | Callbacks(t: TaskId)
    | Pause(blocked: seq<BlockedTask>)
    | Resume
    | Scheduler(delayed: bool)

  function SetHandle(st: State, h: HandleId, v: Handle): State
    requires h < |st.handles|
  {
    st.(handles := st.handles[h := v])
  }

  function SetPhase(st: State, t: TaskId, phase: Phase): State
    requires t < |st.tasks|
  {
    st.(tasks := st.tasks[t := st.tasks[t].(phase := phase)])
  }

  /** The event was set: the task speaks, for the newest generation of its handle. */
  function LetSpeak(st: State, t: TaskId, h: Handle): State
    requires t < |st.tasks|
  {
    var generation := if h.generations == [] then None else Some(|h.generations| - 1);
    st.(tasks := st.tasks[t := st.tasks[t].(phase := Speaking, generation := generation)])
  }

  function AddTask(st: State, handle: Option<HandleId>, isReply: bool, phase: Phase): State {
    st.(tasks := st.tasks + [Task(handle, isReply, phase, true, None)])
  }

  /** `_schedule_speech`: refused while pausing unless forced, ignored once the coroutine has exited. */
  function Schedule(st: State, h: HandleId, priority: int, force: bool): State
    requires h < |st.handles|
  {
    if (st.paused && !force) || st.pc == Exited then st
    else
      st.(queue := st.queue + [Entry(priority, st.clock, h)], clock := st.clock + 1,
          handles := st.handles[h := st.handles[h].(scheduled := true)], updated := true)
  }

  const NORMAL_PRIORITY := 5

  predicate HasHandle(st: State, t: TaskId) {
    t < |st.tasks| && st.tasks[t].handle.Some? && st.tasks[t].handle.value < |st.handles|
  }

  /** The coroutine of task `t` stands at `phase`. */
  predicate At(st: State, t: TaskId, phase: Phase) {
    HasHandle(st, t) && st.tasks[t].phase == phase
  }

  function HandleOf(st: State, t: TaskId): Handle
    requires HasHandle(st, t)
  {
    st.handles[st.tasks[t].handle.value]
  }

  predicate AllFinished(st: State, h: HandleId) {
    forall t :: 0 <= t < |st.tasks| && st.tasks[t].handle == Some(h) ==> st.tasks[t].phase == Finished
  }

  /** The handle is done when all its tasks are. */
  function MarkIfFinished(st: State, h: HandleId): State
    requires h < |st.handles|
  {
    if AllFinished(st, h) then SetHandle(st, h, MarkDone(st.handles[h])) else st
  }

  /** The done callbacks of a finished task: off the list, the handle marked, a wake-up. */
  function RunCallbacks(st: State, t: TaskId): State
    requires t < |st.tasks| && (st.tasks[t].handle.Some? ==> HasHandle(st, t))
  {
    var off := st.(tasks := st.tasks[t := st.tasks[t].(listed := false)]);
    var marked := if st.tasks[t].handle.Some? then MarkIfFinished(off, st.tasks[t].handle.value) else off;
    marked.(updated := true)
  }

  /** One more step of a handle, replied to if required. */
  function StepOn(st: State, h: HandleId, reply: bool): State
    requires h < |st.handles|
  {
    var counted := SetHandle(st, h, st.handles[h].(numSteps := st.handles[h].numSteps + 1));
    if reply then Schedule(AddTask(counted, Some(h), true, AwaitScheduled), h, NORMAL_PRIORITY, true) else counted
  }

  /** The end of a reply whose tools are done: perhaps one more step of the same handle. */
  function ToolTail(st: State, t: TaskId, outcome: Outcome, maxToolSteps: nat): State
    requires HasHandle(st, t)
  {
    var left := SetPhase(st, t, Leaving);
    if outcome == NoOutput || HandleOf(st, t).numSteps >= maxToolSteps + 1 then left
    else StepOn(left, st.tasks[t].handle.value, outcome == Reply)
  }

  predicate EntriesValid(st: State) {
    forall i :: 0 <= i < |st.queue| ==> st.queue[i].handle < |st.handles|
  }

  /** Whether an event can happen. */
  predicate Enabled(st: State, e: Event) {
    match e
    case CreateSpeech(_) => true
    case CreateInline => true
    case RequestSchedule(h, _) => h < |st.handles| && h !in st.requested
    case Interrupt(h) => h < |st.handles|
    case PassScheduled(t) => At(st, t, AwaitScheduled) && (HandleOf(st, t).scheduled || HandleOf(st, t).interrupted)
    case PassAuthorized(t) => At(st, t, AwaitAuthorized) && (HandleOf(st, t).authorized || HandleOf(st, t).interrupted)
    case EndPlayout(t) => At(st, t, Speaking)
    case ToolsDone(t, _) => At(st, t, Executing)
    case Finish(t) => t < |st.tasks| && st.tasks[t].phase == Leaving
    case Raise(t) => t < |st.tasks| && st.tasks[t].phase != Finished
    case Callbacks(t) => t < |st.tasks| && st.tasks[t].phase == Finished && st.tasks[t].listed
                         && (st.tasks[t].handle.Some? ==> HasHandle(st, t))
    case Pause(_) => !st.paused
    case Resume => st.paused && (st.pc == NotStarted || st.pc == Exited)
    case Scheduler(_) => Awake(st)
  }

  /** What the scheduling coroutine waits for has happened. */
  predicate Awake(st: State) {
    && EntriesValid(st)
    && match st.pc
       case Waiting => st.updated
       case Sleeping(h) => h < |st.handles|
       case Playing(h, g) => h < |st.handles| && g < |st.handles[h].generations| && st.handles[h].generations[g]
       case _ => false
  }

  /** The coroutine, from one await to the next. */
  function Proceed(st: State, delayed: bool): State
    requires Awake(st)
  {
    if st.pc.Sleeping? then AuthorizeStep(st, st.pc.handle)
    else if st.pc.Playing? then Loop(st.(current := None), delayed)
    else Loop(st, delayed)
  }

  function Next(st: State, e: Event, maxToolSteps: nat): State
    requires Enabled(st, e)
  {
    match e
    case CreateSpeech(isReply) =>
      AddTask(st.(handles := st.handles + [NEW_HANDLE]), Some(|st.handles|), isReply,
              if isReply then AwaitScheduled else AwaitAuthorized)
    case CreateInline => AddTask(st, None, false, Leaving)
    case RequestSchedule(h, priority) => Schedule(st.(requested := st.requested + {h}), h, priority, false)
    case Interrupt(h) => SetHandle(st, h, Cancel(st.handles[h]))
    case PassScheduled(t) => SetPhase(st, t, if HandleOf(st, t).interrupted then Leaving else AwaitAuthorized)
    case PassAuthorized(t) =>
      var h := HandleOf(st, t);
      var cleared := SetHandle(st, st.tasks[t].handle.value, h.(authorized := false));
      if h.interrupted then SetPhase(cleared, t, Leaving) else LetSpeak(cleared, t, h)
    case EndPlayout(t) =>
      // only replies mark the generation themselves, and only those not interrupted wait for tools
      var h := HandleOf(st, t);
      if !st.tasks[t].isReply then SetPhase(st, t, Leaving)
      else SetPhase(SetHandle(st, st.tasks[t].handle.value, MarkGenerationDone(h)), t,
                    if h.interrupted then Leaving else Executing)
    case ToolsDone(t, outcome) => ToolTail(st, t, outcome, maxToolSteps)
    case Finish(t) => SetPhase(st, t, Finished)
    case Raise(t) => SetPhase(st, t, Finished)
    case Callbacks(t) => RunCallbacks(st, t)
    case Pause(blocked) => st.(paused := true, blocked := blocked, updated := true)
    case Resume => st.(paused := false, pc := Waiting)
    case Scheduler(delayed) => Proceed(st, delayed)
  }
}
