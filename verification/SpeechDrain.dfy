/**
  When a pause can end. The scheduling coroutine exits only when its queue is empty and no task is left that
  the pause waits for; a task whose handle was refused scheduling never ends by itself, and a done handle
  never gives the floor back.
 */
module SpeechDrain {
  import opened Wrappers
  import opened Subsequences
  import opened SpeechMachine
  import opened SpeechInvariant
  import opened SpeechSteps
  import opened SpeechSafety
  import opened SpeechTheorems
  import opened SpeechWedge

  /** A pause is under way: the coroutine runs and is to exit. */
  predicate Pausing(st: State) {
    st.paused && st.pc != NotStarted && st.pc != Exited
  }

  predicate Waits(k: Task) {
    k.phase == AwaitScheduled || k.phase == AwaitAuthorized
  }

  /** The handle is neither interrupted nor authorized, and is not to have a turn. */
  predicate NoTurn(st: State, h: HandleId) {
    h < |st.handles| && !st.handles[h].interrupted && !st.handles[h].authorized && Pending(st, h) == 0
  }

  /** A task the pause waits for waits for a turn that does not come. */
  predicate Hangs(st: State, t: TaskId) {
    && HasHandle(st, t) && Waits(st.tasks[t]) && NoTurn(st, st.tasks[t].handle.value)
    && !IsBlocked(st.blocked, t, st.tasks[t].handle)
  }

  predicate IsDone(st: State, h: HandleId) {
    h < |st.handles| && st.handles[h].done
  }

  /** A done handle is still to be given the floor. */
  ghost predicate DoneQueued(st: State) {
    exists i :: 0 <= i < |st.queue| && IsDone(st, st.queue[i].handle)
  }

  /** A done handle is given the floor, or has it for a generation that is open. */
  predicate DoneCurrent(st: State) {
    match st.pc
    case Sleeping(h) => IsDone(st, h)
    case Playing(h, g) => IsDone(st, h) && g < |st.handles[h].generations| && !st.handles[h].generations[g]
    case _ => false
  }

  ghost predicate Stuck(st: State) {
    (exists t: TaskId :: Hangs(st, t)) || DoneQueued(st) || DoneCurrent(st)
  }

  /** Nobody outside helps: no interrupt and no exception. */
  predicate Unaided(e: Event) {
    !e.Interrupt? && !e.Raise?
  }

  /** Nor does anything new begin. */
  predicate Settling(e: Event) {
    Unaided(e) && !e.CreateSpeech? && !e.CreateInline? && (e.ToolsDone? ==> e.outcome != Reply)
  }

  /** Some continuation without interrupts, exceptions or new tasks ends the pause. */
  ghost predicate CanExit(st: State, max: nat) {
    exists run :: Possible(st, run, max) && (forall e :: e in run ==> Settling(e)) && Run(st, run, max).pc == Exited
  }

  // ----- what the step of a task changes

  function Weight(k: Task): nat {
    (if k.listed then 1 else 0)
    + match k.phase
      case AwaitScheduled => 5
      case AwaitAuthorized => 4
      case Speaking => 3
      case Executing => 2
      case Leaving => 1
      case Finished => 0
  }

  /** Only task `t`, its handle and the wake-up change, and `t` comes nearer to its end. */
  ghost predicate Moved(st: State, next: State, t: TaskId)
    requires t < |st.tasks|
  {
    && |next.handles| == |st.handles| && |next.tasks| == |st.tasks|
    && next == st.(handles := next.handles, tasks := st.tasks[t := next.tasks[t]], updated := next.updated)
    && next.tasks[t].handle == st.tasks[t].handle && Weight(next.tasks[t]) < Weight(st.tasks[t])
    && (forall h :: 0 <= h < |st.handles| && st.tasks[t].handle != Some(h) ==> next.handles[h] == st.handles[h])
  }

  lemma StepMoves(st: State, t: TaskId, max: nat)
    requires t < |st.tasks| && st.tasks[t].phase != Finished && Enabled(st, NextOf(st, t))
    ensures Moved(st, Next(st, NextOf(st, t), max), t)
  {
  }

  // ----- once stuck, stuck for good

  lemma {:induction false} NotQueued(queue: seq<Entry>, h: HandleId, i: nat)
    requires Count(queue, h) == 0 && i < |queue|
    ensures queue[i].handle != h
  {
    if i < |queue| - 1 {
      NotQueued(DropLast(queue), h, i);
    }
  }

  /** Another handle gets the floor. */
  lemma PopHangs(st: State, delayed: bool, h: HandleId)
    requires NoTurn(st, h) && EntriesValid(st) && st.queue != []
    ensures NoTurn(Loop(st, delayed), h)
  {
    var k := First(st.queue);
    NotQueued(st.queue, h, k);
    CountWithout(st.queue, k, h);
  }

  /** Another handle's turn, or an empty queue, does not help. */
  lemma LoopHangs(st: State, delayed: bool, t: TaskId)
    requires Hangs(st, t) && st.tasks[t].listed && st.paused && EntriesValid(st)
    ensures Hangs(Loop(st, delayed), t) && Pausing(Loop(st, delayed))
  {
    var next := Loop(st, delayed);
    if st.queue != [] {
      PopHangs(st, delayed, st.tasks[t].handle.value);
    } else {
      assert !NothingToWaitFor(st);
    }
    assert next.tasks == st.tasks && next.blocked == st.blocked && |next.handles| == |st.handles|;
  }

  lemma SchedulerHangs(st: State, delayed: bool, t: TaskId, max: nat)
    requires Inv(st, max) && Enabled(st, Scheduler(delayed)) && Pausing(st) && Hangs(st, t)
    ensures Hangs(Next(st, Scheduler(delayed), max), t) && Pausing(Next(st, Scheduler(delayed), max))
  {
    assert TaskOk(st, t);
    if !st.pc.Sleeping? {
      LoopHangs(if st.pc.Playing? then st.(current := None) else st, delayed, t);
    }
  }

  /** The steps of tasks but the tail of a reply. */
  predicate TaskStep(e: Event) {
    e.PassScheduled? || e.PassAuthorized? || e.EndPlayout? || e.Finish? || e.Callbacks?
  }

  lemma TaskStepHangs(st: State, e: Event, t: TaskId, max: nat)
    requires Inv(st, max) && Enabled(st, e) && TaskStep(e) && Hangs(st, t)
    ensures Hangs(Next(st, e, max), t)
  {
    OthersIdle(st, t);
    match e
    case Callbacks(u) => CallbacksHang(st, u, t);
    case PassScheduled(u) => PhaseHangs(st, u, t, Next(st, e, max).tasks[u].phase);
    case Finish(u) => PhaseHangs(st, u, t, Finished);
    case PassAuthorized(u) => StepMoves(st, u, max); MovedHangs(st, Next(st, e, max), u, t);
    case EndPlayout(u) => StepMoves(st, u, max); MovedHangs(st, Next(st, e, max), u, t);
  }

  lemma PhaseHangs(st: State, u: TaskId, t: TaskId, phase: Phase)
    requires Hangs(st, t) && u < |st.tasks| && (u == t ==> phase == AwaitAuthorized)
    ensures Hangs(SetPhase(st, u, phase), t)
  {
  }

  lemma MovedHangs(st: State, next: State, u: TaskId, t: TaskId)
    requires Hangs(st, t) && u < |st.tasks| && Moved(st, next, u) && st.tasks[u].handle != st.tasks[t].handle
    ensures Hangs(next, t)
  {
  }

  lemma CallbacksHang(st: State, u: TaskId, t: TaskId)
    requires Enabled(st, Callbacks(u)) && Hangs(st, t)
    ensures Hangs(RunCallbacks(st, u), t)
  {
    if st.tasks[u].handle.Some? {
      ListedApart(st, u, st.tasks[u].handle.value);
    }
  }

  lemma StepOnHangs(st: State, h: HandleId, reply: bool, t: TaskId)
    requires Hangs(st, t) && h < |st.handles| && st.tasks[t].handle != Some(h)
    ensures Hangs(StepOn(st, h, reply), t)
  {
    CountSnoc(st.queue, Entry(NORMAL_PRIORITY, st.clock, h), st.tasks[t].handle.value);
  }

  lemma ToolsDoneHangs(st: State, u: TaskId, outcome: Outcome, t: TaskId, max: nat)
    requires Inv(st, max) && At(st, u, Executing) && Hangs(st, t)
    ensures Hangs(ToolTail(st, u, outcome, max), t)
  {
    OthersIdle(st, t);
    assert Hangs(SetPhase(st, u, Leaving), t);
    StepOnHangs(SetPhase(st, u, Leaving), st.tasks[u].handle.value, outcome == Reply, t);
  }

  lemma HangsOn(st: State, e: Event, t: TaskId, max: nat)
    requires Inv(st, max) && Enabled(st, e) && Unaided(e) && Pausing(st) && Hangs(st, t)
    ensures Hangs(Next(st, e, max), t) && Pausing(Next(st, e, max))
  {
    match e
    case Scheduler(delayed) => SchedulerHangs(st, delayed, t, max);
    case ToolsDone(u, outcome) => ToolsDoneHangs(st, u, outcome, t, max);
    case CreateSpeech(_) =>
    case CreateInline =>
    case RequestSchedule(_, _) =>
    case _ => TaskStepHangs(st, e, t, max);
  }

  /** A queued entry stays queued until it is the one popped. */
  lemma WithoutKeeps(queue: seq<Entry>, k: nat, i: nat)
    requires k < |queue| && i < |queue| && i != k
    ensures exists j :: 0 <= j < |Without(queue, k)| && Without(queue, k)[j] == queue[i]
  {
    var j := if i < k then i else i - 1;
    assert Without(queue, k)[j] == queue[i];
  }

  lemma LoopDone(st: State, delayed: bool, i: nat)
    requires EntriesValid(st) && st.paused && i < |st.queue| && IsDone(st, st.queue[i].handle)
    ensures var next := Loop(st, delayed); Pausing(next) && (DoneQueued(next) || DoneCurrent(next))
  {
    var k := First(st.queue);
    var next := Loop(st, delayed);
    if i != k {
      WithoutKeeps(st.queue, k, i);
      var j :| 0 <= j < |next.queue| && next.queue[j] == st.queue[i];
      assert IsDone(next, next.queue[j].handle);
    }
  }

  lemma DoneQueuedOn(st: State, e: Event, i: nat, max: nat)
    requires Inv(st, max) && Enabled(st, e) && Pausing(st)
    requires i < |st.queue| && IsDone(st, st.queue[i].handle)
    ensures var next := Next(st, e, max); Pausing(next) && (DoneQueued(next) || DoneCurrent(next))
  {
    var next := Next(st, e, max);
    GenerationsKept(st, e, st.queue[i].handle, max);
    if e.Scheduler? && !st.pc.Sleeping? {
      LoopDone(if st.pc.Playing? then st.(current := None) else st, e.delayed, i);
    } else {
      assert next.queue[i] == st.queue[i];
    }
  }

  lemma DoneCurrentOn(st: State, e: Event, max: nat)
    requires Inv(st, max) && Enabled(st, e) && Pausing(st) && DoneCurrent(st)
    ensures Pausing(Next(st, e, max)) && DoneCurrent(Next(st, e, max))
  {
    if st.pc.Playing? {
      DoneStaysStuck(st, e, st.pc.handle, st.pc.generation, max);
    } else {
      GenerationsKept(st, e, st.pc.handle, max);
    }
  }

  ghost predicate Lost(st: State) {
    DoneQueued(st) || DoneCurrent(st)
  }

  lemma LostOn(st: State, e: Event, max: nat)
    requires Inv(st, max) && Enabled(st, e) && Pausing(st) && Lost(st)
    ensures Pausing(Next(st, e, max)) && Lost(Next(st, e, max))
  {
    if DoneQueued(st) {
      var i :| 0 <= i < |st.queue| && IsDone(st, st.queue[i].handle);
      DoneQueuedOn(st, e, i, max);
    } else {
      DoneCurrentOn(st, e, max);
    }
  }

  /** Whatever happens, exceptions included: behind a done handle the pause never ends. */
  lemma {:induction false} LostForGood(st: State, run: seq<Event>, max: nat)
    requires Inv(st, max) && Possible(st, run, max) && Pausing(st) && Lost(st)
    ensures Pausing(Run(st, run, max)) && Lost(Run(st, run, max))
    decreases |run|
  {
    if run != [] {
      LostOn(st, run[0], max);
      StepKeeps(st, run[0], max);
      LostForGood(Next(st, run[0], max), run[1..], max);
    }
  }

  lemma StuckOn(st: State, e: Event, max: nat)
    requires Inv(st, max) && Enabled(st, e) && Unaided(e) && Pausing(st) && Stuck(st)
    ensures Pausing(Next(st, e, max)) && Stuck(Next(st, e, max))
  {
    if Lost(st) {
      LostOn(st, e, max);
    } else {
      var t :| Hangs(st, t);
      HangsOn(st, e, t, max);
    }
  }

  /** Whatever new begins: without an interrupt or an exception the pause never ends. */
  lemma {:induction false} StuckForGood(st: State, run: seq<Event>, max: nat)
    requires Inv(st, max) && Possible(st, run, max) && Pausing(st) && Stuck(st)
    requires forall e :: e in run ==> Unaided(e)
    ensures Pausing(Run(st, run, max)) && Stuck(Run(st, run, max))
    decreases |run|
  {
    if run != [] {
      assert run[0] in run;
      StuckOn(st, run[0], max);
      StepKeeps(st, run[0], max);
      StuckForGood(Next(st, run[0], max), run[1..], max);
    }
  }

  // ----- otherwise, a run that ends it

  /** How much the tasks still have before them. */
  function Load(tasks: seq<Task>): nat {
    if tasks == [] then 0 else Load(DropLast(tasks)) + Weight(Last(tasks))
  }

  lemma {:induction false} LoadUpdate(tasks: seq<Task>, t: nat, k: Task)
    requires t < |tasks|
    ensures Load(tasks[t := k]) + Weight(tasks[t]) == Load(tasks) + Weight(k)
  {
    if t < |tasks| - 1 {
      LoadUpdate(DropLast(tasks), t, k);
      assert DropLast(tasks[t := k]) == DropLast(tasks)[t := k];
    } else {
      assert DropLast(tasks[t := k]) == DropLast(tasks);
    }
  }

  /** How much the scheduling coroutine has before it until it exits or sleeps. */
  function PcRank(st: State): nat {
    match st.pc
    case Sleeping(_) => 4
    case Playing(_, _) => 3
    case Waiting => if st.updated then 2 else 1
    case _ => 0
  }

  /** The next thing task `t` does. */
  function Move(st: State, t: TaskId): Event
    requires t < |st.tasks|
  {
    if st.tasks[t].phase == Finished then Callbacks(t) else NextOf(st, t)
  }

  lemma MoveShrinks(st: State, t: TaskId, max: nat)
    requires t < |st.tasks| && Enabled(st, Move(st, t))
    ensures var next := Next(st, Move(st, t), max);
            Moved(st, next, t) && Load(next.tasks) < Load(st.tasks)
  {
    MoveIsLocal(st, t, max);
    LoadUpdate(st.tasks, t, Next(st, Move(st, t), max).tasks[t]);
  }

  lemma CallbacksMove(st: State, t: TaskId)
    requires Enabled(st, Callbacks(t))
    ensures Moved(st, RunCallbacks(st, t), t)
  {
  }

  lemma MoveIsLocal(st: State, t: TaskId, max: nat)
    requires t < |st.tasks| && Enabled(st, Move(st, t))
    ensures Moved(st, Next(st, Move(st, t), max), t)
  {
    if st.tasks[t].phase == Finished {
      CallbacksMove(st, t);
    } else {
      StepMoves(st, t, max);
    }
  }

  /** While a task of its handle is active, an idle one changes nothing there. */
  lemma MoveBeside(st: State, t: TaskId, u: TaskId, max: nat)
    requires t < |st.tasks| && Enabled(st, Move(st, t)) && !Active(st.tasks[t])
    requires HasHandle(st, u) && Active(st.tasks[u]) && st.tasks[t].handle == st.tasks[u].handle
    ensures Next(st, Move(st, t), max).handles == st.handles
  {
    if st.tasks[t].phase == Finished {
      ListedApart(st, t, st.tasks[t].handle.value);
    }
  }

  lemma MoveSelf(st: State, t: TaskId, max: nat)
    requires t < |st.tasks| && Enabled(st, Move(st, t)) && Waits(Next(st, Move(st, t), max).tasks[t])
    ensures Waits(st.tasks[t]) && Next(st, Move(st, t), max).handles == st.handles
  {
  }

  /** No task comes to wait for a turn that does not come. */
  lemma MoveNoHang(st: State, t: TaskId, u: TaskId, max: nat)
    requires Inv(st, max) && t < |st.tasks| && Enabled(st, Move(st, t))
    requires Hangs(Next(st, Move(st, t), max), u)
    ensures Hangs(st, u)
  {
    var next := Next(st, Move(st, t), max);
    MoveShrinks(st, t, max);
    assert u < |st.tasks| && next.tasks[u].handle == st.tasks[u].handle;
    if u == t {
      MoveSelf(st, t, max);
    } else if st.tasks[u].handle == st.tasks[t].handle {
      OthersIdle(st, u);
      MoveBeside(st, t, u, max);
    }
  }

  /** The tasks that move: any once nothing is queued, else those of the handle that has the floor. */
  predicate MayMove(st: State, t: TaskId) {
    && t < |st.tasks|
    && match st.pc
       case Waiting => st.queue == []
       case Playing(h, g) => st.tasks[t].handle == Some(h) && h < |st.handles| && g < |st.handles[h].generations| &&
           !st.handles[h].generations[g]
       case _ => false
  }

  lemma MoveNoneQueued(st: State, next: State, t: TaskId, max: nat)
    requires Inv(st, max) && MayMove(st, t) && Moved(st, next, t) && !DoneQueued(st)
    ensures !DoneQueued(next)
  {
    if st.pc.Playing? {
      var h := st.pc.handle;
      assert HandleOk(st, h, max) && Pending(st, h) == 0;
      forall i | 0 <= i < |next.queue|
        ensures !IsDone(next, next.queue[i].handle)
      {
        NotQueued(st.queue, h, i);
        assert !IsDone(st, st.queue[i].handle);
      }
    }
  }

  /** A handle that comes to be done marks the generation it has the floor for. */
  lemma MoveNoneCurrent(st: State, t: TaskId, max: nat)
    requires Inv(st, max) && MayMove(st, t) && Enabled(st, Move(st, t)) && !DoneCurrent(st)
    ensures !DoneCurrent(Next(st, Move(st, t), max))
  {
    MoveIsLocal(st, t, max);
  }

  lemma MoveFree(st: State, t: TaskId, max: nat)
    requires Inv(st, max) && MayMove(st, t) && Enabled(st, Move(st, t)) && !Stuck(st)
    ensures !Stuck(Next(st, Move(st, t), max))
  {
    MoveIsLocal(st, t, max);
    MoveNoneQueued(st, Next(st, Move(st, t), max), t, max);
    MoveNoneCurrent(st, t, max);
    forall u: TaskId
      ensures !Hangs(Next(st, Move(st, t), max), u)
    {
      if Hangs(Next(st, Move(st, t), max), u) {
        MoveNoHang(st, t, u, max);
      }
    }
  }

  /** A handle that is popped is authorized at once. */
  lemma PopTurn(st: State, next: State, k: nat, h: HandleId)
    requires k < |st.queue| && st.queue[k].handle < |st.handles| && next.queue == Without(st.queue, k)
    requires next.handles == st.handles[st.queue[k].handle := Authorize(st.handles[st.queue[k].handle])]
    requires !st.pc.Sleeping? && !next.pc.Sleeping? && NoTurn(next, h)
    ensures NoTurn(st, h)
  {
    CountWithout(st.queue, k, h);
  }

  lemma SchedulerTurn(st: State, h: HandleId, max: nat)
    requires Inv(st, max) && Enabled(st, Scheduler(false)) && NoTurn(Next(st, Scheduler(false), max), h)
    ensures NoTurn(st, h)
  {
    if !st.pc.Sleeping? && st.queue != [] {
      PopTurn(st, Next(st, Scheduler(false), max), First(st.queue), h);
    }
  }

  lemma LoopNoneDone(st: State)
    requires EntriesValid(st) && !st.pc.Sleeping? && !DoneQueued(st)
    ensures !DoneQueued(Loop(st, false)) && (st.queue != [] || !st.pc.Playing? ==> !DoneCurrent(Loop(st, false)))
  {
    if st.queue != [] {
      var k := First(st.queue);
      var next := Loop(st, false);
      assert !IsDone(st, st.queue[k].handle);
      forall i | 0 <= i < |next.queue|
        ensures !IsDone(next, next.queue[i].handle)
      {
        var j := if i < k then i else i + 1;
        assert next.queue[i] == st.queue[j] && !IsDone(st, st.queue[j].handle);
      }
    }
  }

  lemma SchedulerFree(st: State, max: nat)
    requires Inv(st, max) && Enabled(st, Scheduler(false)) && !Stuck(st)
    ensures !Stuck(Next(st, Scheduler(false), max))
  {
    var next := Next(st, Scheduler(false), max);
    SchedulerChanges(st, false, max);
    forall u: TaskId
      ensures !Hangs(next, u)
    {
      assert !Hangs(st, u);
      if Hangs(next, u) {
        SchedulerTurn(st, st.tasks[u].handle.value, max);
      }
    }
    if st.pc.Sleeping? {
      forall i | 0 <= i < |next.queue|
        ensures !IsDone(next, next.queue[i].handle)
      {
        assert !IsDone(st, st.queue[i].handle);
      }
    } else {
      LoopNoneDone(if st.pc.Playing? then st.(current := None) else st);
    }
  }

  lemma SchedulerShrinks(st: State, max: nat)
    requires Enabled(st, Scheduler(false)) && st.paused
    ensures var next := Next(st, Scheduler(false), max);
            && next.paused && next.pc != NotStarted && next.tasks == st.tasks
            && (|next.queue| < |st.queue| || (next.queue == st.queue && PcRank(next) < PcRank(st)))
  {
  }

  /** While the coroutine waits for something, a task of that can move. */
  lemma SomeoneMoves(st: State, max: nat) returns (t: TaskId)
    requires Inv(st, max) && Pausing(st) && !Stuck(st) && !Enabled(st, Scheduler(false))
    ensures MayMove(st, t) && Enabled(st, Move(st, t))
  {
    if st.pc.Playing? {
      t := PlayerMoves(st, st.pc.handle, max);
    } else {
      t :| 0 <= t < |st.tasks| && st.tasks[t].listed && !IsBlocked(st.blocked, t, st.tasks[t].handle);
      assert TaskOk(st, t) && !Hangs(st, t);
      if Active(st.tasks[t]) {
        assert HandleOk(st, st.tasks[t].handle.value, max);
      }
    }
  }

  lemma PlayerMoves(st: State, h: HandleId, max: nat) returns (t: TaskId)
    requires Inv(st, max) && !Stuck(st) && !Enabled(st, Scheduler(false)) && st.pc.Playing? && st.pc.handle == h
    ensures MayMove(st, t) && Enabled(st, Move(st, t))
  {
    var g := st.pc.generation;
    assert h < |st.handles| && g + 1 == |st.handles[h].generations|;
    assert !DoneCurrent(st);
    if AllFinished(st, h) {
      t := CallbacksEnd(st, h, g, max);
    } else {
      t :| 0 <= t < |st.tasks| && st.tasks[t].handle == Some(h) && st.tasks[t].phase != Finished;
      WorkShrinks(st, t, h, g, max);
    }
  }

  ghost predicate Nearer(st: State, next: State) {
    || |next.queue| < |st.queue|
    || (next.queue == st.queue
        && (Load(next.tasks) < Load(st.tasks) || (next.tasks == st.tasks && PcRank(next) < PcRank(st))))
  }

  lemma Progress(st: State, max: nat) returns (e: Event)
    requires Inv(st, max) && Pausing(st) && !Stuck(st)
    ensures Enabled(st, e) && Settling(e)
    ensures var next := Next(st, e, max); next.paused && next.pc != NotStarted && !Stuck(next) && Nearer(st, next)
  {
    e := Scheduler(false);
    if Enabled(st, e) {
      SchedulerFree(st, max);
      SchedulerShrinks(st, max);
    } else {
      var t := SomeoneMoves(st, max);
      e := Move(st, t);
      MoveFree(st, t, max);
      MoveShrinks(st, t, max);
    }
  }

  lemma {:induction false} Drains(st: State, max: nat) returns (run: seq<Event>)
    requires Inv(st, max) && st.paused && st.pc != NotStarted && !Stuck(st)
    ensures Possible(st, run, max) && (forall e :: e in run ==> Settling(e)) && Run(st, run, max).pc == Exited
    decreases |st.queue|, Load(st.tasks), PcRank(st)
  {
    if st.pc == Exited {
      return [];
    }
    var e := Progress(st, max);
    StepKeeps(st, e, max);
    var rest := Drains(Next(st, e, max), max);
    run := OneStep(st, e, rest, max);
  }

  /**
    In every reachable state with a pause under way: it can end without interrupts, exceptions and new tasks
    if and only if no task it waits for waits for a turn that does not come, no done handle is queued, and none
    has the floor for an open generation.
   */
  lemma PauseCanEndIff(before: seq<Event>, max: nat)
    requires Possible(INITIAL, before, max) && Pausing(Run(INITIAL, before, max))
    ensures var st := Run(INITIAL, before, max); CanExit(st, max) <==> !Stuck(st)
  {
    var st := Run(INITIAL, before, max);
    InitialOk(max);
    RunKeeps(INITIAL, before, max);
    if Stuck(st) {
      forall run | Possible(st, run, max) && forall e :: e in run ==> Settling(e)
        ensures Run(st, run, max).pc != Exited
      {
        StuckForGood(st, run, max);
      }
    } else {
      var run := Drains(st, max);
    }
  }

  // ----- what interrupts can do

  /** The same with interrupts allowed. */
  ghost predicate CanExitInterrupted(st: State, max: nat) {
    exists run :: Possible(st, run, max) && (forall e :: e in run ==> Settling(e) || e.Interrupt?) &&
        Run(st, run, max).pc == Exited
  }

  ghost predicate InterruptedFrom(st: State, k: nat) {
    forall h :: k <= h < |st.handles| ==> st.handles[h].interrupted || st.handles[h].done
  }

  /** A task whose handle is interrupted does not hang, nor does one whose handle is done. */
  lemma NoneHangs(st: State, max: nat)
    requires Inv(st, max) && InterruptedFrom(st, 0)
    ensures forall t: TaskId :: !Hangs(st, t)
  {
    forall t: TaskId
      ensures !Hangs(st, t)
    {
      if HasHandle(st, t) {
        assert TaskOk(st, t);
      }
    }
  }

  lemma {:induction false} InterruptThenDrain(st: State, k: nat, max: nat) returns (run: seq<Event>)
    requires Inv(st, max) && Pausing(st) && !Lost(st) && k <= |st.handles| && InterruptedFrom(st, k)
    ensures Possible(st, run, max) && (forall e :: e in run ==> Settling(e) || e.Interrupt?) &&
            Run(st, run, max).pc == Exited
    decreases k
  {
    if k == 0 {
      NoneHangs(st, max);
      run := Drains(st, max);
    } else {
      var e := Interrupt(k - 1);
      InterruptLosesNone(st, k - 1, max);
      StepKeeps(st, e, max);
      var rest := InterruptThenDrain(Next(st, e, max), k - 1, max);
      run := OneStep(st, e, rest, max);
    }
  }

  lemma InterruptLosesNone(st: State, h: HandleId, max: nat)
    requires h < |st.handles| && Pausing(st) && !Lost(st) && InterruptedFrom(st, h + 1)
    ensures var next := Next(st, Interrupt(h), max);
            Pausing(next) && !Lost(next) && |next.handles| == |st.handles| && InterruptedFrom(next, h)
  {
    var next := Next(st, Interrupt(h), max);
    forall i | 0 <= i < |next.queue|
      ensures !IsDone(next, next.queue[i].handle)
    {
      assert !IsDone(st, st.queue[i].handle);
    }
  }

  /**
    With interrupts a pause can end if and only if no done handle is queued or has the floor for an open
    generation.
   */
  lemma InterruptedPauseCanEndIff(before: seq<Event>, max: nat)
    requires Possible(INITIAL, before, max) && Pausing(Run(INITIAL, before, max))
    ensures var st := Run(INITIAL, before, max); CanExitInterrupted(st, max) <==> !Lost(st)
  {
    var st := Run(INITIAL, before, max);
    InitialOk(max);
    RunKeeps(INITIAL, before, max);
    if Lost(st) {
      forall run | Possible(st, run, max)
        ensures Run(st, run, max).pc != Exited
      {
        LostForGood(st, run, max);
      }
    } else {
      var run := InterruptThenDrain(st, |st.handles|, max);
    }
  }

  // ----- and pauses that do not end happen

  /** A reply asked for during a pause: its task is made, then its scheduling is refused. */
  const REFUSED_WHILE_PAUSING := [Resume, CreateInline, Pause([]), CreateSpeech(true), RequestSchedule(0, 5)]

  const PAUSED := State([], [Task(None, false, Leaving, true, None)], {}, [], 0, None, true, true, [], Waiting)

  const REFUSED := PAUSED.(
    handles := [NEW_HANDLE], tasks := PAUSED.tasks + [Task(Some(0), true, AwaitScheduled, true, None)],
        requested := {0})

  lemma RefusedRun(max: nat)
    ensures Possible(INITIAL, REFUSED_WHILE_PAUSING, max) && Run(INITIAL, REFUSED_WHILE_PAUSING, max) == REFUSED
  {
    var s1 := INITIAL.(paused := false, pc := Waiting);
    var s2 := s1.(tasks := PAUSED.tasks);
    var s4 := REFUSED.(requested := {});
    assert Next(INITIAL, Resume, max) == s1;
    assert Next(s1, CreateInline, max) == s2;
    assert Next(s2, Pause([]), max) == PAUSED;
    assert Next(PAUSED, CreateSpeech(true), max) == s4;
    assert Next(s4, RequestSchedule(0, 5), max) == REFUSED;
    var run := OneStep(s4, RequestSchedule(0, 5), [], max);
    run := OneStep(PAUSED, CreateSpeech(true), run, max);
    run := OneStep(s2, Pause([]), run, max);
    run := OneStep(s1, CreateInline, run, max);
    run := OneStep(INITIAL, Resume, run, max);
    assert run == REFUSED_WHILE_PAUSING;
  }

  /** Its pause ends only with an interrupt or an exception. */
  lemma RefusedPauseHangs(max: nat)
    ensures Possible(INITIAL, REFUSED_WHILE_PAUSING, max)
    ensures var st := Run(INITIAL, REFUSED_WHILE_PAUSING, max);
            Pausing(st) && Hangs(st, 1) && !CanExit(st, max) && CanExitInterrupted(st, max)
  {
    RefusedRun(max);
    assert Hangs(REFUSED, 1);
    PauseCanEndIff(REFUSED_WHILE_PAUSING, max);
    InterruptedPauseCanEndIff(REFUSED_WHILE_PAUSING, max);
  }

  // ----- exactly when the coroutine exits

  /** The pause's list names the task, or a task of the same handle. */
  ghost predicate Named(st: State, t: TaskId) {
    && t < |st.tasks|
    && exists i :: && 0 <= i < |st.blocked|
                   && (st.blocked[i].id == t ||
                       (st.tasks[t].handle.Some? && st.blocked[i].handle == st.tasks[t].handle))
  }

  /**
    A resumption of the coroutine is its last exactly when it does not come from the delay, nothing is queued, a pause
    is under way, and every task still listed is named by the pause or shares its handle with a named one.
   */
  lemma ExitsIff(st: State, delayed: bool, max: nat)
    requires Enabled(st, Scheduler(delayed))
    ensures Next(st, Scheduler(delayed), max).pc == Exited <==>
            && !st.pc.Sleeping? && st.queue == [] && st.paused
            && forall t: TaskId :: t < |st.tasks| && st.tasks[t].listed ==> Named(st, t)
  {
    forall t: TaskId | t < |st.tasks|
      ensures Named(st, t) <==> IsBlocked(st.blocked, t, st.tasks[t].handle)
    {
    }
    assert (forall t: TaskId :: t < |st.tasks| && st.tasks[t].listed ==> Named(st, t)) <==> NothingToWaitFor(st);
  }
}
