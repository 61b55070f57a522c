/** What every run of the speech machine guarantees. */
module SpeechTheorems {
  import opened Wrappers
  import opened Subsequences
  import opened SpeechMachine
  import opened SpeechInvariant
  import opened SpeechSafety

  /**
    No lost wake-up: when the scheduling coroutine sleeps and nobody has woken it, nothing is queued, and
    it is not the case that a pause has nothing left to wait for. After it has exited the queue is empty
    in every state until it is resumed.
   */
  lemma NoLostWakeUp(run: seq<Event>, max: nat)
    requires Possible(INITIAL, run, max)
    ensures var st := Run(INITIAL, run, max);
            && (st.pc == Waiting && !st.updated ==> st.queue == [] && !(st.paused && NothingToWaitFor(st)))
            && (st.pc == Exited ==> st.queue == [])
  {
    InitialOk(max);
    RunKeeps(INITIAL, run, max);
  }

  /** The coroutine exits only when paused, with nothing queued and no task left that the pause waits for. */
  lemma ExitsDrained(run: seq<Event>, e: Event, max: nat)
    requires Possible(INITIAL, run, max) && Enabled(Run(INITIAL, run, max), e)
    requires Run(INITIAL, run, max).pc != Exited && Next(Run(INITIAL, run, max), e, max).pc == Exited
    ensures var st := Next(Run(INITIAL, run, max), e, max); st.paused && st.queue == [] && NothingToWaitFor(st)
  {
    var st := Run(INITIAL, run, max);
    assert e.Scheduler?;
    assert NothingToWaitFor(Next(st, e, max)) == NothingToWaitFor(st);
  }

  /** At most one generation is open over all handles, and it is the last one of the current speech. */
  lemma OneOpenGeneration(run: seq<Event>, h: HandleId, i: nat, max: nat)
    requires Possible(INITIAL, run, max)
    requires var st := Run(INITIAL, run, max);
             h < |st.handles| && i < |st.handles[h].generations| && !st.handles[h].generations[i]
    ensures var st := Run(INITIAL, run, max);
            && st.current == Some(h) && i == |st.handles[h].generations| - 1
            && forall g, j ::
                 0 <= g < |st.handles| && 0 <= j < |st.handles[g].generations| && !st.handles[g].generations[j] ==>
                   g == h && j == i
  {
    InitialOk(max);
    RunKeeps(INITIAL, run, max);
    OnlyOpenOne(Run(INITIAL, run, max), max);
  }

  /**
    A pop takes an entry of the highest priority, the earliest scheduled one among equals: the queue is
    in scheduling order, every entry before the popped one has a lower priority, none behind a higher one.
   */
  lemma PopsHighestEarliest(run: seq<Event>, delayed: bool, j: nat, max: nat)
    requires Possible(INITIAL, run, max)
    requires var st := Run(INITIAL, run, max);
             Enabled(st, Scheduler(delayed)) && !st.pc.Sleeping? && j < |st.queue|
    ensures var st := Run(INITIAL, run, max);
            var next := Next(st, Scheduler(delayed), max);
            exists k :: && 0 <= k < |st.queue|
                        && next.current == Some(st.queue[k].handle) && next.queue == Without(st.queue, k)
                        && (j < k ==> st.queue[j].priority < st.queue[k].priority)
                        && (j > k ==> st.queue[j].priority <= st.queue[k].priority)
  {
    InitialOk(max);
    RunKeeps(INITIAL, run, max);
    var st := Run(INITIAL, run, max);
    var k := First(st.queue);
    FirstIsBest(st.queue, j);
    assert st.queue[k].handle < |st.handles|;
  }

  /** The step counter is bounded, and generations and steps stay together. */
  lemma StepsBounded(run: seq<Event>, h: HandleId, max: nat)
    requires Possible(INITIAL, run, max) && h < |Run(INITIAL, run, max).handles|
    ensures var hd := Run(INITIAL, run, max).handles[h];
            hd.numSteps <= max + 1 && hd.numSteps - 1 <= |hd.generations| <= hd.numSteps
  {
    InitialOk(max);
    RunKeeps(INITIAL, run, max);
    assert HandleOk(Run(INITIAL, run, max), h, max);
  }

  /**
    A task that speaks or executes tools finds at the step index a tool captures, `num_steps - 1`, the very
    generation whose authorization let it speak; it exists, so waiting for it cannot fail.
   */
  lemma StepIndexIsOwn(run: seq<Event>, t: TaskId, max: nat)
    requires Possible(INITIAL, run, max)
    requires var st := Run(INITIAL, run, max); At(st, t, Speaking) || At(st, t, Executing)
    ensures var hd := HandleOf(Run(INITIAL, run, max), t);
            hd.numSteps - 1 < |hd.generations| && Run(INITIAL, run, max).tasks[t].generation == Some(hd.numSteps - 1)
  {
    InitialOk(max);
    RunKeeps(INITIAL, run, max);
    assert TaskOk(Run(INITIAL, run, max), t);
  }

  // ----- the chain of tool replies ends

  function CountTasks(tasks: seq<Task>, h: HandleId): nat {
    if tasks == [] then 0 else CountTasks(DropLast(tasks), h) + (if Last(tasks).handle == Some(h) then 1 else 0)
  }

  ghost predicate ChainsOk(st: State) {
    forall h :: 0 <= h < |st.handles| ==> CountTasks(st.tasks, h) <= st.handles[h].numSteps
  }

  lemma {:induction false} CountSame(a: seq<Task>, b: seq<Task>, h: HandleId)
    requires |a| == |b| && forall i :: 0 <= i < |a| ==> a[i].handle == b[i].handle
    ensures CountTasks(a, h) == CountTasks(b, h)
  {
    if a != [] {
      CountSame(DropLast(a), DropLast(b), h);
    }
  }

  lemma {:induction false} CountNone(tasks: seq<Task>, h: HandleId)
    requires forall i :: 0 <= i < |tasks| ==> tasks[i].handle != Some(h)
    ensures CountTasks(tasks, h) == 0
  {
    if tasks != [] {
      CountNone(DropLast(tasks), h);
    }
  }

  lemma CountAdded(tasks: seq<Task>, k: Task, h: HandleId)
    ensures CountTasks(tasks + [k], h) == CountTasks(tasks, h) + (if k.handle == Some(h) then 1 else 0)
  {
    assert DropLast(tasks + [k]) == tasks;
  }

  /** The events after which no task is new and no step is counted. */
  lemma SameTasksChain(st: State, st': State)
    requires ChainsOk(st) && |st'.tasks| == |st.tasks| && |st'.handles| == |st.handles|
    requires forall i :: 0 <= i < |st.tasks| ==> st'.tasks[i].handle == st.tasks[i].handle
    requires forall h :: 0 <= h < |st.handles| ==> st'.handles[h].numSteps >= st.handles[h].numSteps
    ensures ChainsOk(st')
  {
    forall h | 0 <= h < |st'.handles|
      ensures CountTasks(st'.tasks, h) <= st'.handles[h].numSteps
    {
      CountSame(st'.tasks, st.tasks, h);
      assert CountTasks(st.tasks, h) <= st.handles[h].numSteps;
    }
  }

  lemma CreateSpeechChain(st: State, isReply: bool, max: nat)
    requires ChainsOk(st) && Inv(st, max)
    ensures ChainsOk(Next(st, CreateSpeech(isReply), max))
  {
    var st' := Next(st, CreateSpeech(isReply), max);
    forall h | 0 <= h < |st'.handles|
      ensures CountTasks(st'.tasks, h) <= st'.handles[h].numSteps
    {
      CountAdded(st.tasks, Last(st'.tasks), h);
      if h == |st.handles| {
        forall t | 0 <= t < |st.tasks|
          ensures st.tasks[t].handle != Some(h)
        {
          assert TaskOk(st, t);
        }
        CountNone(st.tasks, h);
      } else {
        assert CountTasks(st.tasks, h) <= st.handles[h].numSteps;
      }
    }
  }

  lemma CreateInlineChain(st: State, max: nat)
    requires ChainsOk(st)
    ensures ChainsOk(Next(st, CreateInline, max))
  {
    var st' := Next(st, CreateInline, max);
    forall h | 0 <= h < |st'.handles|
      ensures CountTasks(st'.tasks, h) <= st'.handles[h].numSteps
    {
      CountAdded(st.tasks, Last(st'.tasks), h);
      assert CountTasks(st.tasks, h) <= st.handles[h].numSteps;
    }
  }

  lemma ReplyChain(st: State, counted: State, h: HandleId)
    requires ChainsOk(st) && h < |st.handles| && |counted.tasks| == |st.tasks|
    requires forall i :: 0 <= i < |st.tasks| ==> counted.tasks[i].handle == st.tasks[i].handle
    requires |counted.handles| == |st.handles|
    requires counted.handles == st.handles[h := counted.handles[h]] &&
             counted.handles[h].numSteps == st.handles[h].numSteps + 1
    ensures ChainsOk(AddTask(counted, Some(h), true, AwaitScheduled))
  {
    var added := AddTask(counted, Some(h), true, AwaitScheduled);
    forall g | 0 <= g < |added.handles|
      ensures CountTasks(added.tasks, g) <= added.handles[g].numSteps
    {
      CountAdded(counted.tasks, Last(added.tasks), g);
      CountSame(counted.tasks, st.tasks, g);
      assert CountTasks(st.tasks, g) <= st.handles[g].numSteps;
    }
  }

  lemma ScheduleChain(st: State, h: HandleId, priority: int, force: bool)
    requires ChainsOk(st) && h < |st.handles|
    ensures ChainsOk(Schedule(st, h, priority, force))
  {
    SameTasksChain(st, Schedule(st, h, priority, force));
  }

  lemma CountedChain(st: State, t: TaskId, h: HandleId, hd: Handle)
    requires ChainsOk(st) && t < |st.tasks| && h < |st.handles| && hd.numSteps >= st.handles[h].numSteps
    ensures ChainsOk(SetHandle(SetPhase(st, t, Leaving), h, hd))
  {
    SameTasksChain(st, SetHandle(SetPhase(st, t, Leaving), h, hd));
  }

  lemma LeavingChain(st: State, t: TaskId)
    requires ChainsOk(st) && t < |st.tasks|
    ensures ChainsOk(SetPhase(st, t, Leaving))
  {
    SameTasksChain(st, SetPhase(st, t, Leaving));
  }

  lemma RepliedChain(st: State, t: TaskId, h: HandleId, more: Handle)
    requires ChainsOk(st) && t < |st.tasks| && h < |st.handles| && more.numSteps == st.handles[h].numSteps + 1
    ensures ChainsOk(Schedule(AddTask(SetHandle(SetPhase(st, t, Leaving), h, more), Some(h), true, AwaitScheduled), h,
                              NORMAL_PRIORITY, true))
  {
    var counted := SetHandle(SetPhase(st, t, Leaving), h, more);
    ReplyChain(st, counted, h);
    ScheduleChain(AddTask(counted, Some(h), true, AwaitScheduled), h, NORMAL_PRIORITY, true);
  }

  lemma ToolsDoneChain(st: State, t: TaskId, h: HandleId, outcome: Outcome, max: nat)
    requires ChainsOk(st) && HasHandle(st, t) && st.tasks[t].handle == Some(h)
    ensures ChainsOk(ToolTail(st, t, outcome, max))
  {
    var hd := st.handles[h];
    var more := hd.(numSteps := hd.numSteps + 1);
    LeavingChain(st, t);
    CountedChain(st, t, h, more);
    RepliedChain(st, t, h, more);
  }

  /** The scheduling coroutine touches no task, and no handle but the one it authorizes. */
  lemma SchedulerChanges(st: State, delayed: bool, max: nat)
    requires Enabled(st, Scheduler(delayed))
    ensures var next := Next(st, Scheduler(delayed), max);
            && next.tasks == st.tasks && next.requested == st.requested
            && (next.handles == st.handles
                || exists h :: 0 <= h < |st.handles| && next.handles == st.handles[h := Authorize(st.handles[h])])
  {
  }

  lemma SchedulerChain(st: State, delayed: bool, max: nat)
    requires ChainsOk(st) && Enabled(st, Scheduler(delayed))
    ensures ChainsOk(Next(st, Scheduler(delayed), max))
  {
    SchedulerChanges(st, delayed, max);
    SameTasksChain(st, Next(st, Scheduler(delayed), max));
  }

  /** The steps of tasks leave every task with its handle and every step counter as it is. */
  lemma TaskStepSame(st: State, e: Event, max: nat)
    requires Enabled(st, e)
    requires e.PassScheduled? || e.PassAuthorized? || e.EndPlayout? || e.Finish? || e.Raise? || e.Callbacks?
    ensures var next := Next(st, e, max);
            && |next.tasks| == |st.tasks| && |next.handles| == |st.handles|
            && (forall i :: 0 <= i < |st.tasks| ==> next.tasks[i].handle == st.tasks[i].handle)
            && (forall h :: 0 <= h < |st.handles| ==> next.handles[h].numSteps == st.handles[h].numSteps)
  {
  }

  lemma TaskStepChain(st: State, e: Event, max: nat)
    requires ChainsOk(st) && Enabled(st, e)
    requires e.PassScheduled? || e.PassAuthorized? || e.EndPlayout? || e.Finish? || e.Raise? || e.Callbacks?
    ensures ChainsOk(Next(st, e, max))
  {
    TaskStepSame(st, e, max);
    SameTasksChain(st, Next(st, e, max));
  }

  lemma ControlChain(st: State, e: Event, max: nat)
    requires ChainsOk(st) && Enabled(st, e)
    requires e.RequestSchedule? || e.Interrupt? || e.Pause? || e.Resume?
    ensures ChainsOk(Next(st, e, max))
  {
    SameTasksChain(st, Next(st, e, max));
  }

  lemma StepChain(st: State, e: Event, max: nat)
    requires ChainsOk(st) && Inv(st, max) && Enabled(st, e)
    ensures ChainsOk(Next(st, e, max))
  {
    match e
    case CreateSpeech(isReply) => CreateSpeechChain(st, isReply, max);
    case CreateInline => CreateInlineChain(st, max);
    case ToolsDone(t, outcome) => ToolsDoneChain(st, t, st.tasks[t].handle.value, outcome, max);
    case Scheduler(delayed) => SchedulerChain(st, delayed, max);
    case RequestSchedule(_, _) => ControlChain(st, e, max);
    case Interrupt(_) => ControlChain(st, e, max);
    case Pause(_) => ControlChain(st, e, max);
    case Resume => ControlChain(st, e, max);
    case _ => TaskStepChain(st, e, max);
  }

  lemma {:induction false} RunChain(st: State, run: seq<Event>, max: nat)
    requires ChainsOk(st) && Inv(st, max) && Possible(st, run, max)
    ensures ChainsOk(Run(st, run, max))
    decreases |run|
  {
    if run != [] {
      StepKeeps(st, run[0], max);
      StepChain(st, run[0], max);
      RunChain(Next(st, run[0], max), run[1..], max);
    }
  }

  /** The chain of tool replies ends: a handle never has more than `max_tool_steps + 1` tasks, in any run. */
  lemma RepliesBounded(run: seq<Event>, h: HandleId, max: nat)
    requires Possible(INITIAL, run, max) && h < |Run(INITIAL, run, max).handles|
    ensures CountTasks(Run(INITIAL, run, max).tasks, h) <= max + 1
  {
    InitialOk(max);
    RunChain(INITIAL, run, max);
    StepsBounded(run, h, max);
    assert CountTasks(Run(INITIAL, run, max).tasks, h) <= Run(INITIAL, run, max).handles[h].numSteps;
  }

  /** A handle after some operation: its generations keep their indices, and what is done stays done. */
  ghost predicate Grown(before: Handle, after: Handle) {
    && |before.generations| <= |after.generations|
    && (forall i :: 0 <= i < |before.generations| && before.generations[i] ==> after.generations[i])
    && (before.done ==> after.done)
  }

  /** A generation keeps its index for good, and once done stays done; so does a handle. */
  lemma GenerationsKept(st: State, e: Event, h: HandleId, max: nat)
    requires Enabled(st, e) && h < |st.handles|
    ensures var next := Next(st, e, max); h < |next.handles| && Grown(st.handles[h], next.handles[h])
  {
    if e.Scheduler? {
      SchedulerChanges(st, e.delayed, max);
    } else if e.PassScheduled? || e.PassAuthorized? || e.EndPlayout? || e.Finish? || e.Raise? || e.Callbacks? {
      TaskStepGrows(st, e, h, max);
    }
  }

  lemma TaskStepGrows(st: State, e: Event, h: HandleId, max: nat)
    requires Enabled(st, e) && h < |st.handles|
    requires e.PassScheduled? || e.PassAuthorized? || e.EndPlayout? || e.Finish? || e.Raise? || e.Callbacks?
    ensures h < |Next(st, e, max).handles| && Grown(st.handles[h], Next(st, e, max).handles[h])
  {
  }
}
