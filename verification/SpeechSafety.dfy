/** The invariant holds in every run; what follows from it. */
module SpeechSafety {
  import opened Wrappers
  import opened SpeechMachine
  import opened SpeechInvariant
  import opened SpeechSteps

  // ----- new tasks

  lemma AddTaskTasks(st: State, st': State, k: Task)
    requires TasksOk(st) && st' == st.(tasks := st.tasks + [k])
    requires TaskOk(st', |st.tasks|)
    requires k.handle.Some? && Active(k) ==> forall u :: 0 <= u < |st.tasks| && st.tasks[u].handle == k.handle ==>
             !Active(st.tasks[u])
    ensures TasksOk(st')
  {
    forall u | 0 <= u < |st'.tasks|
      ensures TaskOk(st', u)
    {
      if u < |st.tasks| {
        assert TaskOk(st, u);
      }
    }
    forall g | 0 <= g < |st'.handles| && !st'.handles[g].done
      ensures Unclosed(st', g)
    {
      assert Unclosed(st, g);
      var u :| 0 <= u < |st.tasks| && st.tasks[u].handle == Some(g) &&
          (st.tasks[u].phase != Finished || st.tasks[u].listed);
      assert st'.tasks[u] == st.tasks[u];
    }
  }

  lemma AddTaskPc(st: State, st': State, k: Task)
    requires PcOk(st) && st' == st.(tasks := st.tasks + [k])
    ensures PcOk(st')
  {
    if NothingToWaitFor(st') {
      forall u | 0 <= u < |st.tasks| && st.tasks[u].listed
        ensures IsBlocked(st.blocked, u, st.tasks[u].handle)
      {
        assert st'.tasks[u] == st.tasks[u];
      }
    }
  }

  lemma AddTaskKeeps(st: State, st': State, k: Task, max: nat)
    requires Inv(st, max) && st' == st.(tasks := st.tasks + [k])
    requires TaskOk(st', |st.tasks|)
    requires k.handle.Some? && Active(k) ==> forall u :: 0 <= u < |st.tasks| && st.tasks[u].handle == k.handle ==>
             !Active(st.tasks[u])
    ensures Inv(st', max)
  {
    AddTaskTasks(st, st', k);
    AddTaskPc(st, st', k);
    forall g | 0 <= g < |st'.handles|
      ensures HandleOk(st', g, max)
    {
      assert HandleOk(st, g, max);
    }
  }

  lemma CreateInlineKeeps(st: State, max: nat)
    requires Inv(st, max)
    ensures Inv(Next(st, CreateInline, max), max)
  {
    AddTaskKeeps(st, Next(st, CreateInline, max), Task(None, false, Leaving, true, None), max);
  }

  /** A new handle needs its task at once: the two steps of its creation are one. */
  lemma CreateSpeechKeeps(st: State, isReply: bool, max: nat)
    requires Inv(st, max)
    ensures Inv(Next(st, CreateSpeech(isReply), max), max)
  {
    var st' := Next(st, CreateSpeech(isReply), max);
    var n := |st.handles|;
    forall h | 0 <= h < |st'.handles|
      ensures HandleOk(st', h, max)
    {
      if h < n {
        assert HandleOk(st, h, max);
      } else {
        NoEntries(st.queue, h);
      }
    }
    forall t | 0 <= t < |st'.tasks|
      ensures TaskOk(st', t)
    {
      if t < |st.tasks| {
        assert TaskOk(st, t);
      }
    }
    forall h | 0 <= h < |st'.handles| && !st'.handles[h].done
      ensures Unclosed(st', h)
    {
      if h < n {
        assert Unclosed(st, h);
        var t :| 0 <= t < |st.tasks| && st.tasks[t].handle == Some(h) &&
            (st.tasks[t].phase != Finished || st.tasks[t].listed);
        assert st'.tasks[t] == st.tasks[t];
      } else {
        assert st'.tasks[|st.tasks|].handle == Some(h);
      }
    }
    CreateSpeechOthers(st, isReply, max);
  }

  lemma CreateSpeechOthers(st: State, isReply: bool, max: nat)
    requires Inv(st, max)
    ensures var st' := Next(st, CreateSpeech(isReply), max); OneActive(st') && QueueOk(st') && PcOk(st')
  {
    var st' := Next(st, CreateSpeech(isReply), max);
    var k := Task(Some(|st.handles|), isReply, if isReply then AwaitScheduled else AwaitAuthorized, true, None);
    AddTaskPc(st, st.(tasks := st.tasks + [k]), k);
    assert NothingToWaitFor(st') == NothingToWaitFor(st.(tasks := st.tasks + [k]));
    forall t, u | 0 <= t < u < |st'.tasks| && st'.tasks[t].handle.Some? && st'.tasks[t].handle == st'.tasks[u].handle
      ensures !(Active(st'.tasks[t]) && Active(st'.tasks[u]))
    {
      assert TaskOk(st, t);
    }
  }

  // ----- the end of a reply

  lemma ToolsDoneKeeps(st: State, t: TaskId, outcome: Outcome, max: nat)
    requires Inv(st, max) && Enabled(st, ToolsDone(t, outcome))
    ensures Inv(Next(st, ToolsDone(t, outcome), max), max)
  {
    var h := st.tasks[t].handle.value;
    var hd := st.handles[h];
    assert HandleOk(st, h, max) && TaskOk(st, t);
    if outcome == NoOutput || hd.numSteps >= max + 1 {
      LeavingKeeps(st, SetPhase(st, t, Leaving), h, t, max);
    } else {
      var counted := SetHandle(SetPhase(st, t, Leaving), h, hd.(numSteps := hd.numSteps + 1));
      CountedKeeps(st, counted, h, t, max);
      if outcome == Reply {
        ReplyKeeps(st, counted, h, t, max);
      }
    }
  }

  lemma LeavingKeeps(st: State, st': State, h: HandleId, t: TaskId, max: nat)
    requires Inv(st, max) && At(st, t, Executing) && st.tasks[t].handle == Some(h) && st' == SetPhase(st, t, Leaving)
    ensures Inv(st', max)
  {
    assert HandleOk(st, h, max) && TaskOk(st, t);
    AllFit(st, h);
    assert st'.tasks[t].phase != Finished;
    TouchKeeps(st, st', h, t, max);
  }

  lemma CountedKeeps(st: State, st': State, h: HandleId, t: TaskId, max: nat)
    requires Inv(st, max) && At(st, t, Executing) && st.tasks[t].handle == Some(h) && st.handles[h].numSteps <= max
    requires st' == SetHandle(SetPhase(st, t, Leaving), h, st.handles[h].(numSteps := st.handles[h].numSteps + 1))
    ensures Inv(st', max)
  {
    assert HandleOk(st, h, max) && TaskOk(st, t);
    AllFit(st, h);
    OthersIdle(st, t);
    assert st'.tasks[t].phase != Finished;
    TouchKeeps(st, st', h, t, max);
  }

  lemma ReplyKeeps(st: State, counted: State, h: HandleId, t: TaskId, max: nat)
    requires Inv(st, max) && At(st, t, Executing) && st.tasks[t].handle == Some(h)
    requires counted == SetHandle(SetPhase(st, t, Leaving), h, st.handles[h].(numSteps := st.handles[h].numSteps + 1))
    requires Inv(counted, max)
    ensures Inv(Schedule(AddTask(counted, Some(h), true, AwaitScheduled), h, NORMAL_PRIORITY, true), max)
  {
    assert HandleOk(st, h, max) && TaskOk(st, t);
    assert HandleOk(counted, h, max);
    OthersIdle(st, t);
    var k := Task(Some(h), true, AwaitScheduled, true, None);
    var added := AddTask(counted, Some(h), true, AwaitScheduled);
    AddTaskKeeps(counted, added, k, max);
    ScheduleKeeps(added, h, NORMAL_PRIORITY, true, max);
  }

  // ----- pausing and resuming

  /** Every generation of every handle is done. */
  ghost predicate NoneOpen(st: State) {
    forall h, i :: 0 <= h < |st.handles| && 0 <= i < |st.handles[h].generations| ==> st.handles[h].generations[i]
  }

  /** A generation is open only while the scheduling coroutine waits on it. */
  lemma OnlyOpenOne(st: State, max: nat)
    requires HandlesOk(st, max)
    ensures forall h, i ::
              0 <= h < |st.handles| && 0 <= i < |st.handles[h].generations| && !st.handles[h].generations[i] ==>
                st.pc == Playing(h, i)
  {
    forall h, i | 0 <= h < |st.handles| && 0 <= i < |st.handles[h].generations| && !st.handles[h].generations[i]
      ensures st.pc == Playing(h, i)
    {
      assert HandleOk(st, h, max);
    }
  }

  lemma SameButControl(st: State, st': State, max: nat)
    requires HandlesOk(st, max) && TasksOk(st) && QueueOk(st)
    requires st' == st.(current := st'.current, updated := st'.updated, paused := st'.paused, blocked := st'.blocked,
                        pc := st'.pc)
    requires st'.pc == st.pc || (NoneOpen(st) && !st.pc.Sleeping? && !st'.pc.Sleeping?)
    ensures HandlesOk(st', max) && TasksOk(st') && QueueOk(st')
  {
    forall h | 0 <= h < |st'.handles|
      ensures HandleOk(st', h, max)
    {
      assert HandleOk(st, h, max);
    }
    SameTasks(st, st');
  }

  lemma PauseKeeps(st: State, blocked: seq<BlockedTask>, max: nat)
    requires Inv(st, max) && Enabled(st, Pause(blocked))
    ensures Inv(Next(st, Pause(blocked), max), max)
  {
    SameButControl(st, Next(st, Pause(blocked), max), max);
  }

  lemma ResumeKeeps(st: State, max: nat)
    requires Inv(st, max) && Enabled(st, Resume)
    ensures Inv(Next(st, Resume, max), max)
  {
    OnlyOpenOne(st, max);
    SameButControl(st, Next(st, Resume, max), max);
  }

  // ----- the scheduling coroutine

  lemma PopHandles(st: State, st': State, k: nat, h: HandleId, max: nat)
    requires HandlesOk(st, max) && NoneOpen(st) && !st.pc.Sleeping? && k < |st.queue| && h == st.queue[k].handle
    requires st' == st.(queue := Without(st.queue, k), current := Some(h), pc := Sleeping(h))
    ensures HandlesOk(st', max)
  {
    forall g | 0 <= g < |st'.handles|
      ensures HandleOk(st', g, max)
    {
      assert HandleOk(st, g, max);
      CountWithout(st.queue, k, g);
    }
  }

  /** What tasks are held to does not look at the queue or the coroutine. */
  lemma SameTasks(st: State, st': State)
    requires TasksOk(st) && st'.tasks == st.tasks && st'.handles == st.handles
    ensures TasksOk(st')
  {
    forall u | 0 <= u < |st'.tasks|
      ensures TaskOk(st', u)
    {
      assert TaskOk(st, u);
    }
    forall g | 0 <= g < |st'.handles| && !st'.handles[g].done
      ensures Unclosed(st', g)
    {
      assert Unclosed(st, g);
    }
  }

  /** Popping the first entry: the handle stops being queued and has the floor. */
  lemma PopKeeps(st: State, max: nat)
    requires HandlesOk(st, max) && TasksOk(st) && QueueOk(st) && NoneOpen(st) && !st.pc.Sleeping? && st.queue != []
    ensures var k := First(st.queue); var h := st.queue[k].handle;
            h < |st.handles| && Inv(st.(queue := Without(st.queue, k), current := Some(h), pc := Sleeping(h)), max)
  {
    var k := First(st.queue);
    var h := st.queue[k].handle;
    var st' := st.(queue := Without(st.queue, k), current := Some(h), pc := Sleeping(h));
    PopHandles(st, st', k, h, max);
    SameTasks(st, st');
  }

  lemma AuthorizeKeeps(st: State, h: HandleId, max: nat)
    requires Inv(st, max) && st.pc == Sleeping(h)
    ensures h < |st.handles| && Inv(AuthorizeStep(st, h), max)
  {
    var st' := AuthorizeStep(st, h);
    assert HandleOk(st, h, max);
    OnlyOpenOne(st, max);
    forall g | 0 <= g < |st'.handles|
      ensures HandleOk(st', g, max)
    {
      assert HandleOk(st, g, max);
    }
    forall u | 0 <= u < |st'.tasks|
      ensures TaskOk(st', u)
    {
      assert TaskOk(st, u);
    }
    forall g | 0 <= g < |st'.handles| && !st'.handles[g].done
      ensures Unclosed(st', g)
    {
      assert Unclosed(st, g);
    }
  }

  lemma LoopKeeps(st: State, delayed: bool, max: nat)
    requires HandlesOk(st, max) && TasksOk(st) && QueueOk(st) && NoneOpen(st) && !st.pc.Sleeping? && st.current == None
    ensures Inv(Loop(st, delayed), max)
  {
    if st.queue != [] {
      var k := First(st.queue);
      var h := st.queue[k].handle;
      PopKeeps(st, max);
      var slept := st.(queue := Without(st.queue, k), current := Some(h), pc := Sleeping(h));
      AuthorizeKeeps(slept, h, max);
      assert AuthorizeStep(st.(queue := Without(st.queue, k), current := Some(h)), h) == AuthorizeStep(slept, h);
    } else {
      var st' := Loop(st, delayed);
      SameButControl(st, st', max);
      assert NothingToWaitFor(st') == NothingToWaitFor(st);
    }
  }

  lemma SchedulerKeeps(st: State, delayed: bool, max: nat)
    requires Inv(st, max) && Enabled(st, Scheduler(delayed))
    ensures Inv(Next(st, Scheduler(delayed), max), max)
  {
    OnlyOpenOne(st, max);
    match st.pc
    case Sleeping(h) => AuthorizeKeeps(st, h, max);
    case Playing(h, g) =>
      var back := st.(current := None);
      SameButControl(st, back, max);
      LoopKeeps(back, delayed, max);
    case Waiting => LoopKeeps(st, delayed, max);
  }

  // ----- all events, all runs

  lemma InitialOk(max: nat)
    ensures Inv(INITIAL, max)
  {
  }

  lemma StepKeeps(st: State, e: Event, max: nat)
    requires Inv(st, max) && Enabled(st, e)
    ensures Inv(Next(st, e, max), max)
  {
    match e
    case CreateSpeech(isReply) => CreateSpeechKeeps(st, isReply, max);
    case CreateInline => CreateInlineKeeps(st, max);
    case RequestSchedule(h, priority) => RequestScheduleKeeps(st, h, priority, max);
    case Interrupt(h) => InterruptKeeps(st, h, max);
    case PassScheduled(t) => PassScheduledKeeps(st, t, max);
    case PassAuthorized(t) => PassAuthorizedKeeps(st, t, max);
    case EndPlayout(t) => EndPlayoutKeeps(st, t, max);
    case ToolsDone(t, outcome) => ToolsDoneKeeps(st, t, outcome, max);
    case Finish(t) => FinishKeeps(st, Next(st, e, max), t, max);
    case Raise(t) => FinishKeeps(st, Next(st, e, max), t, max);
    case Callbacks(t) => CallbacksKeep(st, t, max);
    case Pause(blocked) => PauseKeeps(st, blocked, max);
    case Resume => ResumeKeeps(st, max);
    case Scheduler(delayed) => SchedulerKeeps(st, delayed, max);
  }

  /** The events can happen one after the other from `st`. */
  predicate Possible(st: State, run: seq<Event>, max: nat)
    decreases |run|
  {
    run == [] || (Enabled(st, run[0]) && Possible(Next(st, run[0], max), run[1..], max))
  }

  function Run(st: State, run: seq<Event>, max: nat): State
    requires Possible(st, run, max)
    decreases |run|
  {
    if run == [] then st else Run(Next(st, run[0], max), run[1..], max)
  }

  lemma {:induction false} RunKeeps(st: State, run: seq<Event>, max: nat)
    requires Inv(st, max) && Possible(st, run, max)
    ensures Inv(Run(st, run, max), max)
    decreases |run|
  {
    if run != [] {
      StepKeeps(st, run[0], max);
      RunKeeps(Next(st, run[0], max), run[1..], max);
    }
  }
}
