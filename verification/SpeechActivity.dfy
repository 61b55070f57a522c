/**
  The scheduling side of `AgentActivity` (agent/livekit/agents/voice/agent_activity.py): every method is
  what its coroutine does between two awaits, proved to be a step of the speech machine.
 */
module SpeechActivity {
  import opened Wrappers
  import opened Subsequences
  import opened SpeechMachine
  import opened SpeechHandles

  datatype QueuedSpeech = QueuedSpeech(priority: int, stamp: nat, speech: SpeechHandle)

  /** A speech task of `_speech_tasks` with the handle of its task info. */
  datatype SpeechTask = SpeechTask(id: TaskId, handle: Option<HandleId>)

  datatype Scheduled = Queued | Refused | Ignored

  ghost function Values(handles: seq<SpeechHandle>): (r: seq<Handle>)
    reads handles
    ensures |r| == |handles|
  {
    seq(|handles|, i requires 0 <= i < |handles| reads handles => handles[i].Value())
  }

  function Entries(queue: seq<QueuedSpeech>): (r: seq<Entry>)
    ensures |r| == |queue|
  {
    seq(|queue|, i requires 0 <= i < |queue| => Entry(queue[i].priority, queue[i].stamp, queue[i].speech.id))
  }

  /** The tasks of `_speech_tasks`, in order of creation. */
  ghost function Listed(tasks: seq<Task>): seq<SpeechTask> {
    if tasks == [] then []
    else Listed(DropLast(tasks)) + (if Last(tasks).listed then [SpeechTask(|tasks| - 1, Last(tasks).handle)] else [])
  }

  /** `linked` are the tasks of handle `h`. */
  ghost predicate TasksOf(linked: seq<TaskId>, tasks: seq<Task>, h: HandleId) {
    forall t: TaskId :: t in linked <==> t < |tasks| && tasks[t].handle == Some(h)
  }

  ghost predicate FinishedAre(done: set<TaskId>, tasks: seq<Task>) {
    forall t: TaskId :: t in done <==> t < |tasks| && tasks[t].phase == Finished
  }

  class AgentActivity {
    var schedulingPaused: bool
    var currentSpeech: Option<HandleId>
    var speechQ: seq<QueuedSpeech>
    var clock: nat
    var updated: bool
    var pc: Pc
    var speechTasks: seq<SpeechTask>
    var taskCount: nat
    var drainBlockedTasks: seq<BlockedTask>
    var doneTasks: set<TaskId>   // the tasks whose `done()` holds

    // the handles and tasks made so far, and who has been asked to be scheduled
    ghost var handles: seq<SpeechHandle>
    ghost var tasks: seq<Task>
    ghost var requested: set<HandleId>

    /** The lists hold what was made; `TasksOf` apart. */
    ghost predicate Listing()
      reads this
    {
      && (forall i :: 0 <= i < |handles| ==> handles[i].id == i)
      && (forall i :: 0 <= i < |speechQ| ==>
          speechQ[i].speech.id < |handles| && handles[speechQ[i].speech.id] == speechQ[i].speech)
      && speechTasks == Listed(tasks) && taskCount == |tasks| && FinishedAre(doneTasks, tasks)
    }

    /** Every handle knows its tasks among `made`. */
    ghost predicate Linking(made: seq<Task>)
      reads `handles, handles
    {
      forall i :: 0 <= i < |handles| ==> TasksOf(handles[i].tasks, made, i)
    }

    ghost predicate Valid()
      reads this, handles
    {
      Listing() && Linking(tasks)
    }

    ghost function Value(): State
      reads this, handles
    {
      State(Values(handles), tasks, requested, Entries(speechQ), clock, currentSpeech, updated, schedulingPaused,
            drainBlockedTasks, pc)
    }

    constructor ()
      ensures Valid() && Value() == INITIAL
    {
      schedulingPaused, currentSpeech, updated, pc := true, None, false, NotStarted;
      speechQ, clock, speechTasks, taskCount, drainBlockedTasks := [], 0, [], 0, [];
      doneTasks := {};
      handles, tasks, requested := [], [], {};
    }

    /** `_schedule_speech`. */
    method ScheduleSpeech(speech: SpeechHandle, priority: int, force: bool) returns (outcome: Scheduled)
      requires Valid() && speech.id < |handles| && handles[speech.id] == speech
      modifies `speechQ, `clock, `updated, speech`scheduledFut
      ensures Valid() && Value() == Schedule(old(Value()), speech.id, priority, force)
      ensures outcome == if schedulingPaused && !force then Refused else if pc == Exited then Ignored else Queued
    {
      if schedulingPaused && !force {
        return Refused;
      }
      if pc == Exited {
        return Ignored;
      }
      PushSpeech(speech, priority);
      speech.MarkScheduled();
      updated := true;
      outcome := Queued;
      assert Values(handles) == old(Values(handles))[speech.id := speech.Value()];
    }

    /** `heappush`. */
    method PushSpeech(speech: SpeechHandle, priority: int)
      requires Valid() && speech.id < |handles| && handles[speech.id] == speech
      modifies `speechQ, `clock
      ensures Valid() && clock == old(clock) + 1
      ensures Value() == old(Value()).(queue := old(Value()).queue + [Entry(priority, old(clock), speech.id)],
                                       clock := clock)
    {
      speechQ := speechQ + [QueuedSpeech(priority, clock, speech)];
      clock := clock + 1;
      assert Entries(speechQ) == old(Entries(speechQ)) + [Entry(priority, old(clock), speech.id)];
    }

    /** `_pause_scheduling_task`, up to its await. */
    method PauseSchedulingTask(blocked: seq<BlockedTask>)
      requires Valid()
      modifies `schedulingPaused, `drainBlockedTasks, `updated
      ensures Valid()
      ensures Value() == if old(schedulingPaused) then old(Value()) else Next(old(Value()), Pause(blocked), 0)
    {
      if schedulingPaused {
        return;
      }
      schedulingPaused := true;
      drainBlockedTasks := blocked;
      updated := true;
    }

    /** `_resume_scheduling_task`; the lock is free only when no scheduling coroutine runs while paused. */
    method ResumeSchedulingTask()
      requires Valid() && (schedulingPaused ==> pc == NotStarted || pc == Exited)
      modifies `schedulingPaused, `pc
      ensures Valid()
      ensures Value() == if old(schedulingPaused) then Next(old(Value()), Resume, 0) else old(Value())
    {
      if !schedulingPaused {
        return;
      }
      schedulingPaused := false;
      pc := Waiting;
    }

    /** `_create_speech_task`. */
    method CreateSpeechTask(speech: SpeechHandle?, ghost isReply: bool, ghost phase: Phase) returns (id: TaskId)
      requires Valid() && phase != Finished
      requires speech != null ==> speech.id < |handles| && handles[speech.id] == speech
      modifies `speechTasks, `tasks, `taskCount
      modifies (if speech == null then {} else {speech})`tasks
      ensures Valid()
      ensures Value() == AddTask(old(Value()), if speech == null then None else Some(speech.id), isReply, phase)
    {
      id := taskCount;
      AppendTask(if speech == null then None else Some(speech.id), isReply, phase);
      if speech != null {
        LinkTask(speech);
      }
    }

    /** `_speech_tasks.append`. */
    method AppendTask(handle: Option<HandleId>, ghost isReply: bool, ghost phase: Phase)
      requires Valid() && phase != Finished
      modifies `speechTasks, `tasks, `taskCount
      ensures Listing() && Linking(old(tasks)) && (handle == None ==> Valid())
      ensures tasks == old(tasks) + [Task(handle, isReply, phase, true, None)]
      ensures Value() == AddTask(old(Value()), handle, isReply, phase)
    {
      speechTasks := speechTasks + [SpeechTask(taskCount, handle)];
      tasks := tasks + [Task(handle, isReply, phase, true, None)];
      taskCount := taskCount + 1;
      assert DropLast(tasks) == old(tasks);
    }

    /** `speech_handle._tasks.append` of the newest task. */
    method LinkTask(speech: SpeechHandle)
      requires Listing() && tasks != [] && Linking(DropLast(tasks)) && Last(tasks).handle == Some(speech.id)
      requires speech.id < |handles| && handles[speech.id] == speech
      modifies speech`tasks
      ensures Valid() && Value() == old(Value())
    {
      speech.tasks := speech.tasks + [taskCount - 1];
      forall i | 0 <= i < |handles|
        ensures TasksOf(handles[i].tasks, tasks, i)
      {
        assert tasks == DropLast(tasks) + [Last(tasks)];
        TasksOfSnoc(old(handles[i].tasks), DropLast(tasks), Last(tasks), i);
      }
      assert Values(handles) == old(Values(handles));
    }

    /** The coroutine of a task returns or raises. */
    method TaskEnds(t: TaskId)
      requires Valid() && Enabled(Value(), Raise(t))
      modifies `doneTasks, `tasks
      ensures Valid() && Value() == SetPhase(old(Value()), t, Finished)
    {
      Rephase(tasks, t, Finished);
      FinishOne(doneTasks, tasks, t);
      tasks := tasks[t := tasks[t].(phase := Finished)];
      doneTasks := doneTasks + {t};
      assert Linking(tasks);
    }

    /** The done callbacks of a task: off the list, the handle done when all its tasks are, a wake-up. */
    method TaskDone(task: SpeechTask, speech: SpeechHandle?)
      requires Valid() && Enabled(Value(), Callbacks(task.id)) && tasks[task.id].handle == task.handle
      requires match task.handle
               case None => speech == null
               case Some(h) => speech != null && speech in handles && speech.id == h
      modifies `speechTasks, `tasks, `updated
      modifies if speech == null then {} else {speech}
      ensures Valid() && Value() == RunCallbacks(old(Value()), task.id)
    {
      Unlist(task);
      if speech != null {
        MarkDoneIfNeeded(speech);
      }
      updated := true;
    }

    /** `_speech_tasks.remove`. */
    method Unlist(task: SpeechTask)
      requires Valid() && task.id < |tasks| && tasks[task.id].listed && tasks[task.id].handle == task.handle
      modifies `speechTasks, `tasks
      ensures Valid()
      ensures tasks == old(tasks)[task.id := old(tasks)[task.id].(listed := false)]
      ensures Value() == old(Value()).(tasks := tasks)
    {
      RemoveUnlisted(tasks, task.id);
      speechTasks := Remove(speechTasks, task);
      tasks := tasks[task.id := tasks[task.id].(listed := false)];
    }

    /** `_mark_done_if_needed`: the handle is done when all its tasks are. */
    method MarkDoneIfNeeded(speech: SpeechHandle)
      requires Valid() && speech.id < |handles| && handles[speech.id] == speech
      modifies speech`doneFut, speech`generations
      ensures Valid()
      ensures Value() == MarkIfFinished(old(Value()), speech.id)
    {
      AllDone(Value(), speech.tasks, doneTasks, speech.id);
      if forall t :: t in speech.tasks ==> t in doneTasks {
        speech.MarkIsDone();
        assert Values(handles) == old(Values(handles))[speech.id := speech.Value()];
      }
    }

    /** The task leaves: nothing that can be seen changes. */
    ghost method Leave(t: TaskId)
      requires Valid() && t < |tasks| && tasks[t].phase != Finished
      modifies `tasks
      ensures Valid() && Value() == SetPhase(old(Value()), t, Leaving)
    {
      Rephase(tasks, t, Leaving);
      tasks := tasks[t := tasks[t].(phase := Leaving)];
    }

    /** `_num_steps += 1`. */
    method CountStep(speech: SpeechHandle)
      requires Valid() && speech.id < |handles| && handles[speech.id] == speech
      modifies speech`numSteps
      ensures Valid() && Value() ==
              SetHandle(old(Value()), speech.id, old(speech.Value()).(numSteps := old(speech.numSteps) + 1))
    {
      speech.numSteps := speech.numSteps + 1;
      assert Values(handles) == old(Values(handles))[speech.id := speech.Value()];
    }

    /** The end of a reply whose tools are done. */
    method FinishTools(t: TaskId, speech: SpeechHandle, outcome: Outcome, maxToolSteps: nat)
      requires Valid() && At(Value(), t, Executing) && tasks[t].handle == Some(speech.id)
      requires speech.id < |handles| && handles[speech.id] == speech
      modifies `speechTasks, `tasks, `taskCount, `speechQ, `clock, `updated, speech
      ensures Valid() && Value() == ToolTail(old(Value()), t, outcome, maxToolSteps)
    {
      Leave(t);
      if outcome != NoOutput && speech.numSteps < maxToolSteps + 1 {
        NextStep(speech, outcome == Reply);
      }
    }

    /** A step is counted, and replied to if required. */
    method NextStep(speech: SpeechHandle, reply: bool)
      requires Valid() && speech.id < |handles| && handles[speech.id] == speech
      modifies `speechTasks, `tasks, `taskCount, `speechQ, `clock, `updated, speech
      ensures Valid() && Value() == StepOn(old(Value()), speech.id, reply)
    {
      CountStep(speech);
      if reply {
        ReplyAgain(speech);
      }
    }

    /** One more reply of the same handle. */
    method ReplyAgain(speech: SpeechHandle)
      requires Valid() && speech.id < |handles| && handles[speech.id] == speech
      modifies `speechTasks, `tasks, `taskCount, `speechQ, `clock, `updated, speech
      ensures Valid()
      ensures Value() == Schedule(AddTask(old(Value()), Some(speech.id), true, AwaitScheduled), speech.id,
                                  NORMAL_PRIORITY, true)
    {
      var _ := CreateSpeechTask(speech, true, AwaitScheduled);
      var _ := ScheduleSpeech(speech, NORMAL_PRIORITY, true);
    }

    /** The tasks a pause waits for: those that are not blocked and not of a blocked handle. */
    method ToWait() returns (toWait: seq<SpeechTask>)
      requires Valid()
      ensures toWait == [] <==> NothingToWaitFor(Value())
    {
      var blockedHandles: set<HandleId> := {};
      for i := 0 to |drainBlockedTasks|
        invariant forall h :: h in blockedHandles <==> exists j :: 0 <= j < i && drainBlockedTasks[j].handle == Some(h)
      {
        if drainBlockedTasks[i].handle.Some? {
          blockedHandles := blockedHandles + {drainBlockedTasks[i].handle.value};
        }
      }
      toWait := [];
      for i := 0 to |speechTasks|
        invariant toWait == [] <==>
                  forall j :: 0 <= j < i ==> IsBlocked(drainBlockedTasks, speechTasks[j].id, speechTasks[j].handle)
      {
        var task := speechTasks[i];
        if exists j :: 0 <= j < |drainBlockedTasks| && drainBlockedTasks[j].id == task.id {
          continue;
        }
        if task.handle.Some? && task.handle.value in blockedHandles {
          continue;
        }
        toWait := toWait + [task];
      }
      BlockedAll(tasks, drainBlockedTasks);
    }

    /** `heappop`, and the speech becomes the current one. */
    method PopSpeech() returns (speech: SpeechHandle)
      requires Valid() && speechQ != []
      modifies `speechQ, `currentSpeech
      ensures Valid() && speech.id < |handles| && handles[speech.id] == speech
      ensures var k := First(old(Value()).queue);
              && speech.id == old(Value()).queue[k].handle
              && Value() == old(Value()).(queue := Without(old(Value()).queue, k), current := Some(speech.id))
    {
      var k := First(Entries(speechQ));
      speech := speechQ[k].speech;
      speechQ := Without(speechQ, k);
      assert Entries(speechQ) == Without(old(Entries(speechQ)), k);
      currentSpeech := Some(speech.id);
    }

    /** The inner loop, up to the next await. */
    method TakeNext(delayed: bool)
      requires Valid() && speechQ != []
      modifies `speechQ, `currentSpeech, `pc, handles
      ensures Valid() && EntriesValid(old(Value()))
      ensures Value() == Loop(old(Value()), delayed)
    {
      var speech := PopSpeech();
      if delayed {
        pc := Sleeping(speech.id);
      } else {
        AuthorizeSpeech(speech);
      }
    }

    /** Behind the inner loop: out when pausing and nothing is left to wait for, else back to the wait. */
    method ExitOrWait()
      requires Valid() && speechQ == []
      modifies `updated, `pc
      ensures Valid() && forall delayed :: Value() == Loop(old(Value()), delayed)
    {
      var toWait := ToWait();
      if schedulingPaused && |toWait| == 0 {
        pc := Exited;
      } else {
        updated := false;
        pc := Waiting;
      }
    }

    /** From the inner loop to the next await. */
    method SchedulingLoop(delayed: bool)
      requires Valid()
      modifies `speechQ, `currentSpeech, `updated, `pc, handles
      ensures Valid() && EntriesValid(old(Value()))
      ensures Value() == Loop(old(Value()), delayed)
    {
      if speechQ != [] {
        TakeNext(delayed);
      } else {
        ExitOrWait();
      }
    }

    method AuthorizeSpeech(speech: SpeechHandle)
      requires Valid() && speech.id < |handles| && handles[speech.id] == speech
      modifies `pc, speech
      ensures Valid() && Value() == AuthorizeStep(old(Value()), speech.id)
    {
      pc := Playing(speech.id, |speech.generations|);
      speech.AuthorizeGeneration();
      assert Values(handles) == old(Values(handles))[speech.id := speech.Value()];
    }

    /** `_scheduling_task`, from one await to the next. */
    method SchedulingTask(delayed: bool, speech: SpeechHandle)
      requires Valid() && Awake(Value())
      requires pc.Sleeping? ==> speech.id == pc.handle && speech.id < |handles| && handles[speech.id] == speech
      modifies `speechQ, `currentSpeech, `updated, `pc, handles
      ensures Valid() && Value() == Proceed(old(Value()), delayed)
    {
      if pc.Sleeping? {
        AuthorizeSpeech(speech);
      } else {
        if pc.Playing? {
          EndSpeech();
        }
        SchedulingLoop(delayed);
      }
    }

    /** The wait on a generation is over. */
    method EndSpeech()
      requires Valid()
      modifies `currentSpeech
      ensures Valid() && Value() == old(Value()).(current := None)
    {
      currentSpeech := None;
    }
  }

  lemma FinishOne(done: set<TaskId>, tasks: seq<Task>, t: TaskId)
    requires FinishedAre(done, tasks) && t < |tasks|
    ensures FinishedAre(done + {t}, tasks[t := tasks[t].(phase := Finished)])
  {
  }

  lemma TasksOfSnoc(linked: seq<TaskId>, tasks: seq<Task>, k: Task, h: HandleId)
    requires TasksOf(linked, tasks, h)
    ensures TasksOf(if k.handle == Some(h) then linked + [|tasks|] else linked, tasks + [k], h)
  {
  }

  lemma AllDone(st: State, linked: seq<TaskId>, done: set<TaskId>, h: HandleId)
    requires TasksOf(linked, st.tasks, h) && FinishedAre(done, st.tasks)
    ensures AllFinished(st, h) <==> forall t :: t in linked ==> t in done
  {
  }

  /** Every listed task, and no other, is in the list. */
  lemma {:induction false} ListedAll(tasks: seq<Task>)
    ensures forall t :: t in Listed(tasks) <==> t.id < |tasks| && tasks[t.id].listed && tasks[t.id].handle == t.handle
  {
    if tasks != [] {
      ListedAll(DropLast(tasks));
    }
  }

  ghost predicate AllBlocked(list: seq<SpeechTask>, blocked: seq<BlockedTask>) {
    forall j :: 0 <= j < |list| ==> IsBlocked(blocked, list[j].id, list[j].handle)
  }

  ghost predicate NoneToWaitFor(tasks: seq<Task>, blocked: seq<BlockedTask>) {
    forall t :: 0 <= t < |tasks| && tasks[t].listed ==> IsBlocked(blocked, t, tasks[t].handle)
  }

  lemma BlockedAll(tasks: seq<Task>, blocked: seq<BlockedTask>)
    ensures AllBlocked(Listed(tasks), blocked) <==> NoneToWaitFor(tasks, blocked)
  {
    var list := Listed(tasks);
    ListedAll(tasks);
    if AllBlocked(list, blocked) {
      forall t | 0 <= t < |tasks| && tasks[t].listed
        ensures IsBlocked(blocked, t, tasks[t].handle)
      {
        assert SpeechTask(t, tasks[t].handle) in list;
      }
    }
    if NoneToWaitFor(tasks, blocked) {
      forall j | 0 <= j < |list|
        ensures IsBlocked(blocked, list[j].id, list[j].handle)
      {
        assert list[j] in list;
      }
    }
  }

  /** The list does not depend on where the tasks stand. */
  lemma {:induction false} Rephase(tasks: seq<Task>, t: TaskId, phase: Phase)
    requires t < |tasks|
    ensures Listed(tasks[t := tasks[t].(phase := phase)]) == Listed(tasks)
  {
    var after := tasks[t := tasks[t].(phase := phase)];
    if t < |tasks| - 1 {
      Rephase(DropLast(tasks), t, phase);
      assert DropLast(after) == DropLast(tasks)[t := tasks[t].(phase := phase)];
    } else {
      assert DropLast(after) == DropLast(tasks);
    }
  }

  /** `list.remove`: the first occurrence goes. */
  function Remove<T(==)>(s: seq<T>, x: T): seq<T> {
    if s == [] then [] else if s[0] == x then s[1..] else [s[0]] + Remove(s[1..], x)
  }

  lemma {:induction false} RemoveSnoc<T>(s: seq<T>, x: T, y: T)
    ensures Remove(s + [y], x) == if x in s then Remove(s, x) + [y] else if x == y then s else s + [y]
  {
    if s == [] {
      assert s + [y] == [y];
    } else {
      assert (s + [y])[1..] == s[1..] + [y];
      if s[0] != x {
        RemoveSnoc(s[1..], x, y);
        assert x in s <==> x in s[1..];
      }
    }
  }

  lemma {:induction false} RemoveUnlisted(tasks: seq<Task>, t: TaskId)
    requires t < |tasks| && tasks[t].listed
    ensures Listed(tasks[t := tasks[t].(listed := false)]) == Remove(Listed(tasks), SpeechTask(t, tasks[t].handle))
  {
    var front := DropLast(tasks);
    var x := SpeechTask(t, tasks[t].handle);
    var after := tasks[t := tasks[t].(listed := false)];
    ListedAll(front);
    if t == |tasks| - 1 {
      assert DropLast(after) == front;
      RemoveSnoc(Listed(front), x, x);
    } else {
      assert DropLast(after) == front[t := front[t].(listed := false)];
      RemoveUnlisted(front, t);
      assert x in Listed(front);
      RemoveSnoc(Listed(front), x, SpeechTask(|tasks| - 1, Last(tasks).handle));
      assert Last(after) == Last(tasks);
      assert !Last(tasks).listed ==> Listed(tasks) == Listed(front) && Listed(after) == Listed(DropLast(after));
    }
  }
}
