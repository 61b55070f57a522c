/** Every event keeps the invariant. */
module SpeechSteps {
  import opened Wrappers
  import opened Subsequences
  import opened SpeechMachine
  import opened SpeechInvariant

  lemma {:induction false} NoEntries(queue: seq<Entry>, h: HandleId)
    requires forall i :: 0 <= i < |queue| ==> queue[i].handle < h
    ensures Count(queue, h) == 0
  {
    if queue != [] {
      NoEntries(DropLast(queue), h);
    }
  }

  // ----- one handle and one of its tasks change together

  ghost predicate Touched(st: State, st': State, h: HandleId, t: TaskId) {
    && h < |st.handles| && t < |st.tasks| && st.tasks[t].handle == Some(h)
    && |st'.handles| == |st.handles| && |st'.tasks| == |st.tasks|
    && st' == st.(handles := st.handles[h := st'.handles[h]], tasks := st.tasks[t := st'.tasks[t]],
                  updated := st'.updated)
    && st'.tasks[t].handle == Some(h)
  }

  lemma TouchHandles(st: State, st': State, h: HandleId, t: TaskId, max: nat)
    requires HandlesOk(st, max) && Touched(st, st', h, t) && HandleOk(st', h, max)
    ensures HandlesOk(st', max)
  {
    forall g | 0 <= g < |st'.handles|
      ensures HandleOk(st', g, max)
    {
      assert HandleOk(st, g, max);
    }
  }

  lemma TouchTasks(st: State, st': State, h: HandleId, t: TaskId)
    requires TasksOk(st) && Touched(st, st', h, t)
    requires TaskOk(st', t) && (Active(st'.tasks[t]) ==> Active(st.tasks[t]))
    requires forall u :: 0 <= u < |st.tasks| && u != t && st.tasks[u].handle == Some(h) ==>
             TaskFits(st.tasks[u], st'.handles[h])
    requires !st'.handles[h].done ==> !st.handles[h].done && Unclosed(st', h)
    ensures TasksOk(st')
  {
    forall u | 0 <= u < |st'.tasks|
      ensures TaskOk(st', u)
    {
      assert TaskOk(st, u);
    }
    forall g | 0 <= g < |st'.handles| && !st'.handles[g].done
      ensures Unclosed(st', g)
    {
      if g != h {
        assert Unclosed(st, g);
        var u :| 0 <= u < |st.tasks| && st.tasks[u].handle == Some(g) &&
            (st.tasks[u].phase != Finished || st.tasks[u].listed);
        assert st'.tasks[u] == st.tasks[u];
      }
    }
  }

  /** Waiting without a wake-up stays justified when tasks stay listed and nothing is queued. */
  lemma TouchPc(st: State, st': State, h: HandleId, t: TaskId)
    requires PcOk(st) && Touched(st, st', h, t)
    requires |st'.handles[h].generations| == |st.handles[h].generations|
    requires st.tasks[t].listed && (st'.tasks[t].listed || st'.updated)
    requires st.updated ==> st'.updated
    ensures PcOk(st')
  {
    if st'.tasks[t].listed && NothingToWaitFor(st') {
      forall u | 0 <= u < |st.tasks| && st.tasks[u].listed
        ensures IsBlocked(st.blocked, u, st.tasks[u].handle)
      {
        assert st'.tasks[u].listed && st'.tasks[u].handle == st.tasks[u].handle;
      }
    }
  }

  lemma TouchKeeps(st: State, st': State, h: HandleId, t: TaskId, max: nat)
    requires Inv(st, max) && Touched(st, st', h, t) && HandleOk(st', h, max)
    requires TaskOk(st', t) && (Active(st'.tasks[t]) ==> Active(st.tasks[t]))
    requires forall u :: 0 <= u < |st.tasks| && u != t && st.tasks[u].handle == Some(h) ==>
             TaskFits(st.tasks[u], st'.handles[h])
    requires !st'.handles[h].done ==> !st.handles[h].done && Unclosed(st', h)
    requires |st'.handles[h].generations| == |st.handles[h].generations|
    requires st.tasks[t].listed && (st'.tasks[t].listed || st'.updated)
    requires st.updated ==> st'.updated
    ensures Inv(st', max)
  {
    TouchHandles(st, st', h, t, max);
    TouchTasks(st, st', h, t);
    TouchPc(st, st', h, t);
  }

  /** While `t` is active, the other tasks of its handle have nothing left to do with it. */
  lemma OthersIdle(st: State, t: TaskId)
    requires TasksOk(st) && t < |st.tasks| && st.tasks[t].handle.Some? && Active(st.tasks[t])
    ensures forall u :: 0 <= u < |st.tasks| && u != t && st.tasks[u].handle == st.tasks[t].handle ==>
            !Active(st.tasks[u])
  {
  }

  lemma AllFit(st: State, h: HandleId)
    requires TasksOk(st) && h < |st.handles|
    ensures forall u :: 0 <= u < |st.tasks| && st.tasks[u].handle == Some(h) ==> TaskFits(st.tasks[u], st.handles[h])
  {
    forall u | 0 <= u < |st.tasks| && st.tasks[u].handle == Some(h)
      ensures TaskFits(st.tasks[u], st.handles[h])
    {
      assert TaskOk(st, u);
    }
  }

  lemma InterruptKeeps(st: State, h: HandleId, max: nat)
    requires Inv(st, max) && Enabled(st, Interrupt(h))
    ensures Inv(Next(st, Interrupt(h), max), max)
  {
    if st.handles[h].done {
      assert Next(st, Interrupt(h), max) == st;
    } else {
      assert Unclosed(st, h);
      var t :| 0 <= t < |st.tasks| && st.tasks[t].handle == Some(h) &&
          (st.tasks[t].phase != Finished || st.tasks[t].listed);
      InterruptTouches(st, h, t, max);
    }
  }

  lemma InterruptTouches(st: State, h: HandleId, t: TaskId, max: nat)
    requires Inv(st, max) && h < |st.handles| && !st.handles[h].done
    requires t < |st.tasks| && st.tasks[t].handle == Some(h) && (st.tasks[t].phase != Finished || st.tasks[t].listed)
    ensures Inv(SetHandle(st, h, Cancel(st.handles[h])), max)
  {
    var st' := SetHandle(st, h, Cancel(st.handles[h]));
    assert HandleOk(st, h, max) && TaskOk(st, t);
    AllFit(st, h);
    assert st'.tasks[t] == st.tasks[t];
    TouchKeeps(st, st', h, t, max);
  }

  lemma PassScheduledKeeps(st: State, t: TaskId, max: nat)
    requires Inv(st, max) && Enabled(st, PassScheduled(t))
    ensures Inv(Next(st, PassScheduled(t), max), max)
  {
    var h := st.tasks[t].handle.value;
    var st' := Next(st, PassScheduled(t), max);
    assert HandleOk(st, h, max) && TaskOk(st, t);
    AllFit(st, h);
    assert st'.tasks[t].phase != Finished;
    TouchKeeps(st, st', h, t, max);
  }

  /** What a task that was let through leaves behind. */
  lemma PassAuthorizedFits(st: State, st': State, h: HandleId, t: TaskId, max: nat)
    requires Inv(st, max) && Enabled(st, PassAuthorized(t)) && st.tasks[t].handle == Some(h) && h < |st.handles|
    requires st' == Next(st, PassAuthorized(t), max)
    ensures Touched(st, st', h, t) && HandleOk(st', h, max) && TaskOk(st', t)
    ensures st'.tasks[t].listed && st'.tasks[t].phase != Finished && st'.updated == st.updated
    ensures st'.handles[h] == st.handles[h].(authorized := false)
  {
    assert HandleOk(st, h, max) && TaskOk(st, t);
  }

  lemma PassAuthorizedKeeps(st: State, t: TaskId, max: nat)
    requires Inv(st, max) && Enabled(st, PassAuthorized(t))
    ensures Inv(Next(st, PassAuthorized(t), max), max)
  {
    var h := st.tasks[t].handle.value;
    var st' := Next(st, PassAuthorized(t), max);
    PassAuthorizedFits(st, st', h, t, max);
    OthersIdle(st, t);
    AllFit(st, h);
    TouchKeeps(st, st', h, t, max);
  }

  lemma EndPlayoutFits(st: State, st': State, h: HandleId, t: TaskId, max: nat)
    requires Inv(st, max) && Enabled(st, EndPlayout(t)) && st.tasks[t].handle == Some(h) && h < |st.handles|
    requires st' == Next(st, EndPlayout(t), max)
    ensures Touched(st, st', h, t) && HandleOk(st', h, max) && TaskOk(st', t)
    ensures st'.tasks[t].listed && st'.tasks[t].phase != Finished && st'.updated == st.updated
    ensures st'.handles[h] == st.handles[h] || st'.handles[h] == MarkGenerationDone(st.handles[h])
  {
    assert HandleOk(st, h, max) && TaskOk(st, t);
  }

  lemma EndPlayoutKeeps(st: State, t: TaskId, max: nat)
    requires Inv(st, max) && Enabled(st, EndPlayout(t))
    ensures Inv(Next(st, EndPlayout(t), max), max)
  {
    var h := st.tasks[t].handle.value;
    var st' := Next(st, EndPlayout(t), max);
    EndPlayoutFits(st, st', h, t, max);
    OthersIdle(st, t);
    AllFit(st, h);
    TouchKeeps(st, st', h, t, max);
  }

  // ----- the end of a task

  /** A task without handle changes: nothing else is concerned. */
  lemma InlineKeeps(st: State, st': State, t: TaskId, max: nat)
    requires Inv(st, max) && t < |st.tasks| && st.tasks[t].handle == None && st.tasks[t].listed
    requires |st'.tasks| == |st.tasks| && st'.tasks[t].handle == None && TaskOk(st', t)
    requires st' == st.(tasks := st.tasks[t := st'.tasks[t]], updated := st'.updated)
    requires (st'.tasks[t].listed || st'.updated) && (st.updated ==> st'.updated)
    ensures Inv(st', max)
  {
    forall h | 0 <= h < |st'.handles|
      ensures HandleOk(st', h, max)
    {
      assert HandleOk(st, h, max);
    }
    forall u | 0 <= u < |st'.tasks|
      ensures TaskOk(st', u)
    {
      assert TaskOk(st, u);
    }
    forall h | 0 <= h < |st'.handles| && !st'.handles[h].done
      ensures Unclosed(st', h)
    {
      assert Unclosed(st, h);
      var u :| 0 <= u < |st.tasks| && st.tasks[u].handle == Some(h) &&
          (st.tasks[u].phase != Finished || st.tasks[u].listed);
      assert st'.tasks[u] == st.tasks[u];
    }
    InlinePc(st, st', t);
  }

  lemma InlinePc(st: State, st': State, t: TaskId)
    requires PcOk(st) && t < |st.tasks| && st.tasks[t].handle == None && st.tasks[t].listed
    requires |st'.tasks| == |st.tasks| && st'.tasks[t].handle == None
    requires st' == st.(tasks := st.tasks[t := st'.tasks[t]], updated := st'.updated)
    requires (st'.tasks[t].listed || st'.updated) && (st.updated ==> st'.updated)
    ensures PcOk(st')
  {
    if st'.tasks[t].listed && NothingToWaitFor(st') {
      forall u | 0 <= u < |st.tasks| && st.tasks[u].listed
        ensures IsBlocked(st.blocked, u, st.tasks[u].handle)
      {
        assert st'.tasks[u].listed && st'.tasks[u].handle == st.tasks[u].handle;
      }
    }
  }

  /** Whether it returned or raised. */
  lemma FinishKeeps(st: State, st': State, t: TaskId, max: nat)
    requires Inv(st, max) && t < |st.tasks| && st.tasks[t].phase != Finished && st' == SetPhase(st, t, Finished)
    ensures Inv(st', max)
  {
    assert TaskOk(st, t);
    match st.tasks[t].handle
    case None => InlineKeeps(st, st', t, max);
    case Some(h) =>
      assert HandleOk(st, h, max);
      AllFit(st, h);
      assert st'.tasks[t].listed;
      TouchKeeps(st, st', h, t, max);
  }

  lemma CallbacksKeep(st: State, t: TaskId, max: nat)
    requires Inv(st, max) && Enabled(st, Callbacks(t))
    ensures Inv(Next(st, Callbacks(t), max), max)
  {
    var st' := Next(st, Callbacks(t), max);
    assert TaskOk(st, t);
    match st.tasks[t].handle
    case None => InlineKeeps(st, st', t, max);
    case Some(h) => CallbacksTouch(st, st', h, t, max);
  }

  lemma CallbacksTouch(st: State, st': State, h: HandleId, t: TaskId, max: nat)
    requires Inv(st, max) && Enabled(st, Callbacks(t)) && st.tasks[t].handle == Some(h) &&
             st' == Next(st, Callbacks(t), max)
    ensures Inv(st', max)
  {
    assert TaskOk(st, t);
    var off := st.(tasks := st.tasks[t := st.tasks[t].(listed := false)], updated := true);
    ListedApart(st, t, h);
    if AllFinished(st, h) {
      CallbacksClose(st, off, h, t, max);
    } else {
      CallbacksLeave(st, off, h, t, max);
    }
  }

  lemma ListedApart(st: State, t: TaskId, h: HandleId)
    requires t < |st.tasks|
    ensures AllFinished(st.(tasks := st.tasks[t := st.tasks[t].(listed := false)]), h) == AllFinished(st, h)
  {
    var off := st.(tasks := st.tasks[t := st.tasks[t].(listed := false)]);
    forall u | 0 <= u < |st.tasks|
      ensures off.tasks[u].handle == st.tasks[u].handle && off.tasks[u].phase == st.tasks[u].phase
    {
    }
  }

  /** Some task of the handle is not finished: only the list of tasks changes. */
  lemma CallbacksLeave(st: State, off: State, h: HandleId, t: TaskId, max: nat)
    requires Inv(st, max) && Enabled(st, Callbacks(t)) && st.tasks[t].handle == Some(h) && h < |st.handles| &&
             !AllFinished(st, h)
    requires off == st.(tasks := st.tasks[t := st.tasks[t].(listed := false)], updated := true)
    ensures Inv(off, max)
  {
    assert HandleOk(st, h, max) && TaskOk(st, t);
    AllFit(st, h);
    var u :| 0 <= u < |st.tasks| && st.tasks[u].handle == Some(h) && st.tasks[u].phase != Finished;
    assert off.tasks[u] == st.tasks[u];
    assert Unclosed(off, h);
    TouchKeeps(st, off, h, t, max);
  }

  /** All tasks of the handle are finished: it is done. */
  lemma CallbacksClose(st: State, off: State, h: HandleId, t: TaskId, max: nat)
    requires Inv(st, max) && Enabled(st, Callbacks(t)) && st.tasks[t].handle == Some(h) && h < |st.handles| &&
             AllFinished(st, h)
    requires off == st.(tasks := st.tasks[t := st.tasks[t].(listed := false)], updated := true)
    ensures Inv(SetHandle(off, h, MarkDone(st.handles[h])), max)
  {
    var st' := SetHandle(off, h, MarkDone(st.handles[h]));
    assert HandleOk(st, h, max) && TaskOk(st, t);
    MarkDoneOk(st, st', h, max);
    TouchKeeps(st, st', h, t, max);
  }

  lemma MarkDoneOk(st: State, st': State, h: HandleId, max: nat)
    requires h < |st.handles| && HandleOk(st, h, max) && h < |st'.handles| && st'.handles[h] == MarkDone(st.handles[h])
    requires st'.queue == st.queue && st'.pc == st.pc && st'.requested == st.requested
    ensures HandleOk(st', h, max)
  {
  }

  // ----- scheduling

  lemma ScheduleHandle(st: State, st': State, h: HandleId, e: Entry, g: HandleId, max: nat)
    requires h < |st.handles| && g < |st.handles| && HandleOk(st, g, max) && h in st.requested && e.handle == h
    requires g == h ==> |st.handles[h].generations| + Pending(st, h) < st.handles[h].numSteps
    requires st'.queue == st.queue + [e] && st'.pc == st.pc && st'.requested == st.requested
    requires st'.handles == st.handles[h := st.handles[h].(scheduled := true)]
    ensures HandleOk(st', g, max)
  {
    CountSnoc(st.queue, e, g);
  }

  /** What tasks are held to does not look at whether a handle is scheduled. */
  lemma ScheduleTasks(st: State, st': State, h: HandleId)
    requires TasksOk(st) && h < |st.handles| && st'.tasks == st.tasks
    requires st'.handles == st.handles[h := st.handles[h].(scheduled := true)]
    ensures TasksOk(st')
  {
    forall u | 0 <= u < |st'.tasks|
      ensures TaskOk(st', u)
    {
      assert TaskOk(st, u);
    }
    forall g | 0 <= g < |st'.handles| && !st'.handles[g].done
      ensures Unclosed(st', g)
    {
      assert Unclosed(st, g);
    }
  }

  lemma ScheduleKeeps(st: State, h: HandleId, priority: int, force: bool, max: nat)
    requires Inv(st, max) && h < |st.handles| && h in st.requested
    requires |st.handles[h].generations| + Pending(st, h) < st.handles[h].numSteps
    requires force ==> st.pc != NotStarted
    ensures Inv(Schedule(st, h, priority, force), max)
  {
    var st' := Schedule(st, h, priority, force);
    if st' != st {
      forall g | 0 <= g < |st'.handles|
        ensures HandleOk(st', g, max)
      {
        ScheduleHandle(st, st', h, Entry(priority, st.clock, h), g, max);
      }
      ScheduleTasks(st, st', h);
    }
  }

  lemma RequestScheduleKeeps(st: State, h: HandleId, priority: int, max: nat)
    requires Inv(st, max) && Enabled(st, RequestSchedule(h, priority))
    ensures Inv(Next(st, RequestSchedule(h, priority), max), max)
  {
    var asked := st.(requested := st.requested + {h});
    forall g | 0 <= g < |asked.handles|
      ensures HandleOk(asked, g, max)
    {
      assert HandleOk(st, g, max);
    }
    SameButRequests(st, asked);
    assert HandleOk(st, h, max);
    ScheduleKeeps(asked, h, priority, false, max);
  }

  lemma SameButRequests(st: State, st': State)
    requires TasksOk(st) && QueueOk(st) && PcOk(st) && st' == st.(requested := st'.requested)
    ensures TasksOk(st') && QueueOk(st') && PcOk(st')
  {
    forall u | 0 <= u < |st'.tasks|
      ensures TaskOk(st', u)
    {
      assert TaskOk(st, u);
    }
    forall g | 0 <= g < |st'.handles| && !st'.handles[g].done
      ensures Unclosed(st', g)
    {
      assert Unclosed(st, g);
    }
    assert NothingToWaitFor(st') == NothingToWaitFor(st);
  }
}
