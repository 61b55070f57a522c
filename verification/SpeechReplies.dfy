/** When a reply whose tools are done is followed by another one, and that the chain reaches its bound. */
module SpeechReplies {
  import opened Wrappers
  import opened Subsequences
  import opened SpeechMachine
  import opened SpeechSafety
  import opened SpeechTheorems
  import opened SpeechWedge

  /**
    What the end of the tools of task `t` brings. A step is counted exactly when there was output and the bound
    is not reached, a reply made exactly when one of those outputs asks for it: one listed task of the same
    handle that waits to be scheduled, and one entry of priority 5 behind all others, whether a pause is under way or
    not, unless the coroutine has exited. Nothing else changes.
   */
  lemma ToolsDoneBrings(st: State, t: TaskId, outcome: Outcome, max: nat)
    requires Enabled(st, ToolsDone(t, outcome))
    ensures var h := st.tasks[t].handle.value;
            var next := Next(st, ToolsDone(t, outcome), max);
            var more := st.handles[h].numSteps <= max;
            var replies := outcome == Reply && more;
            var queues := replies && st.pc != Exited;
            && next.tasks == st.tasks[t := st.tasks[t].(phase := Leaving)]
                             + (if replies then [Task(Some(h), true, AwaitScheduled, true, None)] else [])
            && next.queue == st.queue + (if queues then [Entry(5, st.clock, h)] else [])
            && next.handles == st.handles[h := st.handles[h].(
                 numSteps := st.handles[h].numSteps + (if outcome != NoOutput && more then 1 else 0),
                 scheduled := st.handles[h].scheduled || queues)]
            && next == st.(tasks := next.tasks, queue := next.queue, handles := next.handles,
                           updated := st.updated || queues, clock := st.clock + |next.queue| - |st.queue|)
  {
  }

  /** Exactly one task more, or none. */
  lemma ReplyMadeIff(st: State, t: TaskId, outcome: Outcome, max: nat)
    requires Enabled(st, ToolsDone(t, outcome))
    ensures var h := st.tasks[t].handle.value;
            var next := Next(st, ToolsDone(t, outcome), max);
            && (CountTasks(next.tasks, h) > CountTasks(st.tasks, h) <==>
                outcome == Reply && st.handles[h].numSteps <= max)
            && CountTasks(next.tasks, h) <= CountTasks(st.tasks, h) + 1
  {
    var h := st.tasks[t].handle.value;
    ToolsDoneBrings(st, t, outcome, max);
    var left := st.tasks[t := st.tasks[t].(phase := Leaving)];
    CountSame(left, st.tasks, h);
    CountAdded(left, Task(Some(h), true, AwaitScheduled, true, None), h);
    assert left + [] == left;
  }

  // ----- a chain of replies of any length

  /** The only handle has played `k` generations for `k` tasks, the last of which executes its tools. */
  ghost predicate Chained(st: State, k: nat) {
    && k > 0 && |st.tasks| == k && st.tasks[k - 1] == Task(Some(0), true, Executing, true, Some(k - 1))
    && (forall t :: 0 <= t < k ==> st.tasks[t].handle == Some(0))
    && |st.handles| == 1 && st.handles[0] == Handle(false, false, true, false, st.handles[0].generations, k)
    && |st.handles[0].generations| == k && st.handles[0].generations[k - 1]
    && st.queue == [] && st.pc == Playing(0, k - 1)
  }

  /** The handle's next reply is made and queued. */
  ghost predicate Queued(st: State, k: nat) {
    && |st.tasks| == k + 1 && st.tasks[k] == Task(Some(0), true, AwaitScheduled, true, None)
    && (forall t :: 0 <= t < k ==> st.tasks[t].handle == Some(0))
    && |st.handles| == 1 && st.handles[0] == Handle(false, false, true, false, st.handles[0].generations, k + 1)
    && |st.handles[0].generations| == k && (k > 0 ==> st.handles[0].generations[k - 1])
    && |st.queue| == 1 && st.queue[0].handle == 0
    && if k == 0 then st.pc == Waiting && st.updated else st.pc == Playing(0, k - 1)
  }

  lemma ToolsReply(st: State, k: nat, max: nat)
    requires Chained(st, k) && k <= max
    ensures Enabled(st, ToolsDone(k - 1, Reply)) && Queued(Next(st, ToolsDone(k - 1, Reply), max), k)
  {
    ToolsDoneBrings(st, k - 1, Reply, max);
  }

  /** The next reply comes to wait for its turn. */
  ghost predicate Turned(st: State, k: nat) {
    && |st.tasks| == k + 1 && st.tasks[k] == Task(Some(0), true, AwaitAuthorized, true, None)
    && (forall t :: 0 <= t < k ==> st.tasks[t].handle == Some(0))
    && |st.handles| == 1 && st.handles[0] == Handle(false, false, true, true, st.handles[0].generations, k + 1)
    && |st.handles[0].generations| == k + 1 && !st.handles[0].generations[k]
    && st.queue == [] && st.pc == Playing(0, k)
  }

  lemma ReplyTurns(st: State, k: nat, max: nat)
    requires Queued(st, k)
    ensures Enabled(st, PassScheduled(k)) && Enabled(Next(st, PassScheduled(k), max), Scheduler(false))
    ensures Turned(Next(Next(st, PassScheduled(k), max), Scheduler(false), max), k)
  {
    var passed := Next(st, PassScheduled(k), max);
    assert First(passed.queue) == 0 && Without(passed.queue, 0) == [];
  }

  /** It speaks and comes to its tools. */
  lemma ReplySpeaks(st: State, k: nat, max: nat)
    requires Turned(st, k)
    ensures Enabled(st, PassAuthorized(k)) && Enabled(Next(st, PassAuthorized(k), max), EndPlayout(k))
    ensures Chained(Next(Next(st, PassAuthorized(k), max), EndPlayout(k), max), k + 1)
  {
    var speaking := Next(st, PassAuthorized(k), max);
    assert speaking.tasks[k] == Task(Some(0), true, Speaking, true, Some(k));
    assert speaking.handles[0] == st.handles[0].(authorized := false);
    var generations := st.handles[0].generations;
    assert |DropLast(generations) + [true]| == k + 1;
  }

  lemma RoundRun(st: State, k: nat, rest: seq<Event>, max: nat) returns (run: seq<Event>)
    requires Queued(st, k)
    requires var s1 := Next(st, PassScheduled(k), max);
             && Enabled(st, PassScheduled(k)) && Enabled(s1, Scheduler(false))
             && var s2 := Next(s1, Scheduler(false), max);
             && Enabled(s2, PassAuthorized(k)) && var s3 := Next(s2, PassAuthorized(k), max);
             && Enabled(s3, EndPlayout(k)) && Possible(Next(s3, EndPlayout(k), max), rest, max)
    ensures Possible(st, run, max)
    ensures Run(st, run, max) == Run(Next(Next(Next(Next(st, PassScheduled(k), max), Scheduler(false), max),
                                              PassAuthorized(k), max), EndPlayout(k), max), rest, max)
  {
    var s1 := Next(st, PassScheduled(k), max);
    var s2 := Next(s1, Scheduler(false), max);
    var s3 := Next(s2, PassAuthorized(k), max);
    run := OneStep(s3, EndPlayout(k), rest, max);
    run := OneStep(s2, PassAuthorized(k), run, max);
    run := OneStep(s1, Scheduler(false), run, max);
    run := OneStep(st, PassScheduled(k), run, max);
  }

  /** From a queued reply to the end of the chain. */
  lemma {:induction false} ChainRun(st: State, k: nat, max: nat) returns (run: seq<Event>)
    requires Queued(st, k) && k <= max
    ensures Possible(st, run, max) && Chained(Run(st, run, max), max + 1)
    decreases max - k
  {
    ReplyTurns(st, k, max);
    var turned := Next(Next(st, PassScheduled(k), max), Scheduler(false), max);
    ReplySpeaks(turned, k, max);
    var chained := Next(Next(turned, PassAuthorized(k), max), EndPlayout(k), max);
    var rest: seq<Event> := [];
    if k < max {
      ToolsReply(chained, k + 1, max);
      rest := ChainRun(Next(chained, ToolsDone(k, Reply), max), k + 1, max);
      rest := OneStep(chained, ToolsDone(k, Reply), rest, max);
    }
    run := RoundRun(st, k, rest, max);
  }

  lemma {:induction false} CountAll(tasks: seq<Task>)
    requires forall t :: 0 <= t < |tasks| ==> tasks[t].handle == Some(0)
    ensures CountTasks(tasks, 0) == |tasks|
  {
    if tasks != [] {
      CountAll(DropLast(tasks));
    }
  }

  /** The bound on replies is reached: for every `max_tool_steps` some run gives a handle one task more than that. */
  lemma BoundReached(max: nat) returns (run: seq<Event>)
    ensures Possible(INITIAL, run, max)
    ensures var st := Run(INITIAL, run, max); |st.handles| == 1 && CountTasks(st.tasks, 0) == max + 1
  {
    var s1 := INITIAL.(paused := false, pc := Waiting);
    var s2 := s1.(handles := [NEW_HANDLE], tasks := [Task(Some(0), true, AwaitScheduled, true, None)]);
    assert Next(INITIAL, Resume, max) == s1;
    assert Next(s1, CreateSpeech(true), max) == s2;
    var s3 := Next(s2, RequestSchedule(0, 5), max);
    assert Queued(s3, 0);
    run := ChainRun(s3, 0, max);
    CountAll(Run(s3, run, max).tasks);
    run := OneStep(s2, RequestSchedule(0, 5), run, max);
    run := OneStep(s1, CreateSpeech(true), run, max);
    run := OneStep(INITIAL, Resume, run, max);
  }
}
