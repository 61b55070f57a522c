/** What single steps of the speech machine bring: requests, pauses, turns, and the end of a task. */
module SpeechLaws {
  import opened Wrappers
  import opened Subsequences
  import opened SpeechMachine
  import opened SpeechInvariant

  /**
    A request is refused while a pause is under way and ignored once the coroutine has exited; otherwise it puts one
    entry with its priority behind all others, later than each of them, and wakes the coroutine.
   */
  lemma RequestBrings(st: State, h: HandleId, priority: int, max: nat)
    requires Inv(st, max) && Enabled(st, RequestSchedule(h, priority))
    ensures var next := Next(st, RequestSchedule(h, priority), max);
            if st.paused || st.pc == Exited then next == st.(requested := st.requested + {h})
            else && |next.queue| == |st.queue| + 1 && next.queue[..|st.queue|] == st.queue
                 && Last(next.queue).priority == priority && Last(next.queue).handle == h
                 && (forall i :: 0 <= i < |st.queue| ==> st.queue[i].stamp < Last(next.queue).stamp)
                 && next.updated && next.handles == st.handles[h := st.handles[h].(scheduled := true)]
                 && next.tasks == st.tasks && next.pc == st.pc && next.current == st.current
  {
  }

  /** A pause holds from now on, with its list of tasks, and wakes the coroutine; nothing else changes. */
  lemma PauseBrings(st: State, blocked: seq<BlockedTask>, max: nat)
    requires Enabled(st, Pause(blocked))
    ensures var next := Next(st, Pause(blocked), max);
            next.paused && next.updated && next.blocked == blocked
            && st == next.(paused := false, updated := st.updated, blocked := st.blocked)
  {
  }

  /** With nothing to wait for, a pause ends at the next resumption of a coroutine that sleeps with an empty queue. */
  lemma IdlePauseEnds(st: State, blocked: seq<BlockedTask>, delayed: bool, max: nat)
    requires Inv(st, max) && st.pc == Waiting && !st.paused && st.queue == []
    requires forall t :: 0 <= t < |st.tasks| && st.tasks[t].listed ==>
             exists i :: 0 <= i < |blocked| && blocked[i].id == t
    ensures var paused := Next(st, Pause(blocked), max);
            Enabled(paused, Scheduler(delayed)) && Next(paused, Scheduler(delayed), max).pc == Exited
  {
    var paused := Next(st, Pause(blocked), max);
    forall t | 0 <= t < |paused.tasks| && paused.tasks[t].listed
      ensures IsBlocked(blocked, t, paused.tasks[t].handle)
    {
      var i :| 0 <= i < |blocked| && blocked[i].id == t;
    }
  }

  /**
    A turn: the handle of the entry taken becomes the current one. Without a delay it is authorized at once, its next
    generation open; with one, nothing is authorized before the coroutine is resumed.
   */
  lemma TurnBrings(st: State, delayed: bool, max: nat)
    requires Enabled(st, Scheduler(delayed)) && !st.pc.Sleeping? && st.queue != []
    ensures var next := Next(st, Scheduler(delayed), max);
            exists k :: && 0 <= k < |st.queue|
              && var h := st.queue[k].handle;
                 && next.current == Some(h) && next.queue == st.queue[..k] + st.queue[k + 1..]
                 && if delayed then next.pc == Sleeping(h) && next.handles == st.handles
                    else next.pc == Playing(h, |st.handles[h].generations|) && Opened(st, next, h)
  {
    var k := First(st.queue);
    assert st.queue[k].handle < |st.handles|;
  }

  /** Handle `h`, and no other, has one more open generation and is authorized. */
  ghost predicate Opened(st: State, next: State, h: HandleId) {
    && h < |st.handles|
    && next.handles == st.handles[h :=
                                  st.handles[h].(generations := st.handles[h].generations + [false],
                                                 authorized := true)]
  }

  lemma DelayEnds(st: State, delayed: bool, max: nat)
    requires Enabled(st, Scheduler(delayed)) && st.pc.Sleeping?
    ensures var h := st.pc.handle;
            var next := Next(st, Scheduler(delayed), max);
            && next.pc == Playing(h, |st.handles[h].generations|) && Opened(st, next, h)
            && next.queue == st.queue && next.current == st.current && next.updated == st.updated
  {
  }

  /**
    When the callbacks of a task run it leaves the list and the coroutine is woken. Its handle, unless done
    before, is done exactly when all its tasks are finished, and with it its last generation.
   */
  lemma CallbacksBring(st: State, t: TaskId, max: nat)
    requires Enabled(st, Callbacks(t))
    ensures var next := Next(st, Callbacks(t), max);
            && next.updated && next.queue == st.queue && next.pc == st.pc
            && next.tasks == st.tasks[t := st.tasks[t].(listed := false)]
            && forall g :: 0 <= g < |st.handles| ==>
                 var h, h' := st.handles[g], next.handles[g];
                 var closes := st.tasks[t].handle == Some(g) && !h.done && EveryTaskFinished(st, g);
                 && h'.done == (h.done || closes)
                 && |h'.generations| == |h.generations|
                 && (forall i :: 0 <= i < |h.generations| ==>
                       h'.generations[i] == (h.generations[i] || (closes && i == |h.generations| - 1)))
                 && h'.interrupted == h.interrupted && h'.authorized == h.authorized && h'.numSteps == h.numSteps
  {
    if st.tasks[t].handle.Some? {
      FinishedApart(st, t, st.tasks[t].handle.value);
    }
  }

  ghost predicate EveryTaskFinished(st: State, h: HandleId) {
    forall t :: 0 <= t < |st.tasks| && st.tasks[t].handle == Some(h) ==> st.tasks[t].phase == Finished
  }

  lemma FinishedApart(st: State, t: TaskId, h: HandleId)
    requires t < |st.tasks|
    ensures AllFinished(st.(tasks := st.tasks[t := st.tasks[t].(listed := false)]), h) <==> EveryTaskFinished(st, h)
  {
    var off := st.(tasks := st.tasks[t := st.tasks[t].(listed := false)]);
    forall u | 0 <= u < |st.tasks|
      ensures off.tasks[u].handle == st.tasks[u].handle && off.tasks[u].phase == st.tasks[u].phase
    {
    }
  }

  /** An interrupt marks a handle that is not done, and nothing else. */
  lemma InterruptBrings(st: State, h: HandleId, max: nat)
    requires Enabled(st, Interrupt(h))
    ensures Next(st, Interrupt(h), max) ==
            if st.handles[h].done then st
            else st.(handles := st.handles[h := st.handles[h].(interrupted := true)])
  {
  }
}
