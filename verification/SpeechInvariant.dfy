/** What every step of the speech machine keeps. */
module SpeechInvariant {
  import opened Wrappers
  import opened Subsequences
  import opened SpeechMachine

  function Count(queue: seq<Entry>, h: HandleId): nat {
    if queue == [] then 0 else Count(DropLast(queue), h) + (if Last(queue).handle == h then 1 else 0)
  }

  /** How often the handle is waiting for its turn. */
  function Pending(st: State, h: HandleId): nat {
    Count(st.queue, h) + (if st.pc == Sleeping(h) then 1 else 0)
  }

  ghost predicate HandleOk(st: State, h: HandleId, maxToolSteps: nat)
    requires h < |st.handles|
  {
    var hd := st.handles[h];
    var n := |hd.generations|;
    && 1 <= hd.numSteps <= maxToolSteps + 1
    && hd.numSteps - 1 <= n <= n + Pending(st, h) <= hd.numSteps
    && (h !in st.requested ==> hd.numSteps == 1 && n == 0 && Pending(st, h) == 0)
    && (hd.authorized || (n > 0 && !hd.generations[n - 1]) ==> n == hd.numSteps)
    && (n + Pending(st, h) > 0 ==> hd.scheduled)
    && (forall i :: 0 <= i < n && !hd.generations[i] ==> st.pc == Playing(h, i))
  }

  predicate Active(k: Task) {
    k.phase != Leaving && k.phase != Finished
  }

  ghost predicate TaskOk(st: State, t: TaskId)
    requires t < |st.tasks|
  {
    var k := st.tasks[t];
    && (!k.listed ==> k.phase == Finished)
    && (k.handle == None ==> !Active(k))
    && (k.handle.Some? ==> k.handle.value < |st.handles| && TaskFits(k, st.handles[k.handle.value]))
  }

  ghost predicate TaskFits(k: Task, hd: Handle) {
    var n := |hd.generations|;
    && (k.phase == Speaking || k.phase == Executing ==>
        n == hd.numSteps > 0 && !hd.authorized && k.generation == Some(n - 1))
    && (k.phase == Executing ==> hd.generations[n - 1])
    && (k.phase == Executing || k.phase == AwaitScheduled ==> k.isReply)
    && ((k.phase == AwaitScheduled || k.phase == AwaitAuthorized) && n > 0 && !hd.generations[n - 1] ==> hd.authorized)
    && (hd.done ==> k.phase == Finished)
  }

  /** At most one task of a handle has anything left to do with it. */
  ghost predicate OneActive(st: State) {
    forall t, u :: 0 <= t < u < |st.tasks| && st.tasks[t].handle.Some? && st.tasks[t].handle == st.tasks[u].handle ==>
      !(Active(st.tasks[t]) && Active(st.tasks[u]))
  }

  /** A handle not yet done has a task that can still make it so. */
  ghost predicate Unclosed(st: State, h: HandleId) {
    exists t :: 0 <= t < |st.tasks| && st.tasks[t].handle == Some(h) &&
        (st.tasks[t].phase != Finished || st.tasks[t].listed)
  }

  ghost predicate QueueOk(st: State) {
    && EntriesValid(st)
    && (forall i :: 0 <= i < |st.queue| ==> st.queue[i].stamp < st.clock)
    && (forall i, j :: 0 <= i < j < |st.queue| ==> st.queue[i].stamp < st.queue[j].stamp)
  }

  ghost predicate PcOk(st: State) {
    match st.pc
    case NotStarted =>
      && st.paused && st.queue == [] && st.current == None
      && forall h :: 0 <= h < |st.handles| ==> st.handles[h].generations == []
    case Exited => st.paused && st.queue == [] && st.current == None
    case Waiting => st.current == None && (!st.updated ==> st.queue == [] && !(st.paused && NothingToWaitFor(st)))
    case Sleeping(h) => st.current == Some(h) && h < |st.handles|
    case Playing(h, g) => st.current == Some(h) && h < |st.handles| && g + 1 == |st.handles[h].generations|
  }

  ghost predicate HandlesOk(st: State, maxToolSteps: nat) {
    && (forall h :: h in st.requested ==> h < |st.handles|)
    && (forall h :: 0 <= h < |st.handles| ==> HandleOk(st, h, maxToolSteps))
  }

  ghost predicate TasksOk(st: State) {
    && (forall t :: 0 <= t < |st.tasks| ==> TaskOk(st, t))
    && OneActive(st)
    && (forall h :: 0 <= h < |st.handles| && !st.handles[h].done ==> Unclosed(st, h))
  }

  ghost predicate Inv(st: State, maxToolSteps: nat) {
    HandlesOk(st, maxToolSteps) && TasksOk(st) && QueueOk(st) && PcOk(st)
  }

  // ----- queue arithmetic

  lemma {:induction false} CountWithout(queue: seq<Entry>, k: nat, h: HandleId)
    requires k < |queue|
    ensures Count(queue, h) == Count(Without(queue, k), h) + (if queue[k].handle == h then 1 else 0)
  {
    if k < |queue| - 1 {
      CountWithout(DropLast(queue), k, h);
      assert DropLast(Without(queue, k)) == Without(DropLast(queue), k);
    } else {
      assert Without(queue, k) == DropLast(queue);
    }
  }

  lemma CountSnoc(queue: seq<Entry>, e: Entry, h: HandleId)
    ensures Count(queue + [e], h) == Count(queue, h) + (if e.handle == h then 1 else 0)
  {
    assert DropLast(queue + [e]) == queue;
  }

  /** The popped entry comes before every other one. */
  lemma {:induction false} FirstIsBest(queue: seq<Entry>, j: nat)
    requires j < |queue|
    requires forall a, b :: 0 <= a < b < |queue| ==> queue[a].stamp < queue[b].stamp
    ensures j != First(queue) ==> Before(queue[First(queue)], queue[j])
  {
    if |queue| > 1 {
      var front := DropLast(queue);
      var k := First(front);
      if j < |front| {
        FirstIsBest(front, j);
      } else {
        assert queue[k].stamp < queue[j].stamp;
      }
    }
  }
}
