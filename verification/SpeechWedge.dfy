/**
  When the wait on a generation can end. A handle interrupted while still queued can be done before its
  turn; the scheduling coroutine then authorizes it anyway and waits for a generation nobody will mark.
 */
module SpeechWedge {
  import opened Wrappers
  import opened Subsequences
  import opened SpeechMachine
  import opened SpeechInvariant
  import opened SpeechSteps
  import opened SpeechSafety

  /** The scheduling coroutine waits on an open generation of `h`. */
  ghost predicate WaitsOn(st: State, h: HandleId, g: nat) {
    st.pc == Playing(h, g) && h < |st.handles| && g < |st.handles[h].generations| && !st.handles[h].generations[g]
  }

  /** Some continuation marks the generation done. */
  ghost predicate CanEnd(st: State, h: HandleId, g: nat, max: nat) {
    exists run :: Possible(st, run, max) && Ended(Run(st, run, max), h, g)
  }

  ghost predicate Ended(st: State, h: HandleId, g: nat) {
    h < |st.handles| && g < |st.handles[h].generations| && st.handles[h].generations[g]
  }

  // ----- a done handle: never

  lemma DoneStaysStuck(st: State, e: Event, h: HandleId, g: nat, max: nat)
    requires Inv(st, max) && Enabled(st, e) && WaitsOn(st, h, g) && st.handles[h].done
    ensures WaitsOn(Next(st, e, max), h, g) && Next(st, e, max).handles[h].done
  {
    AllFit(st, h);
  }

  lemma {:induction false} DoneNeverEnds(st: State, run: seq<Event>, h: HandleId, g: nat, max: nat)
    requires Inv(st, max) && Possible(st, run, max) && WaitsOn(st, h, g) && st.handles[h].done
    ensures WaitsOn(Run(st, run, max), h, g)
    decreases |run|
  {
    if run != [] {
      DoneStaysStuck(st, run[0], h, g, max);
      StepKeeps(st, run[0], max);
      DoneNeverEnds(Next(st, run[0], max), run[1..], h, g, max);
    }
  }

  // ----- a handle not done: a run that ends the wait

  function Rank(k: Task, h: HandleId): nat {
    if k.handle != Some(h) then 0
    else match k.phase
      case AwaitScheduled => 4
      case AwaitAuthorized => 3
      case Speaking => 2
      case Executing => 2
      case Leaving => 1
      case Finished => 0
  }

  /** How much the tasks of `h` still have before them. */
  function Work(tasks: seq<Task>, h: HandleId): nat {
    if tasks == [] then 0 else Work(DropLast(tasks), h) + Rank(Last(tasks), h)
  }

  lemma {:induction false} WorkUpdate(tasks: seq<Task>, t: nat, k: Task, h: HandleId)
    requires t < |tasks|
    ensures Work(tasks[t := k], h) + Rank(tasks[t], h) == Work(tasks, h) + Rank(k, h)
  {
    if t < |tasks| - 1 {
      WorkUpdate(DropLast(tasks), t, k, h);
      assert DropLast(tasks[t := k]) == DropLast(tasks)[t := k];
    } else {
      assert DropLast(tasks[t := k]) == DropLast(tasks);
    }
  }

  /** The next thing a task of `h` that is not finished does. */
  function NextOf(st: State, t: TaskId): Event
    requires t < |st.tasks|
  {
    match st.tasks[t].phase
    case AwaitScheduled => PassScheduled(t)
    case AwaitAuthorized => PassAuthorized(t)
    case Speaking => EndPlayout(t)
    case Executing => ToolsDone(t, NoOutput)
    case _ => Finish(t)
  }

  lemma NextOfEnabled(st: State, t: TaskId, h: HandleId, g: nat, max: nat)
    requires Inv(st, max) && WaitsOn(st, h, g)
    requires t < |st.tasks| && st.tasks[t].handle == Some(h) && st.tasks[t].phase != Finished
    ensures Enabled(st, NextOf(st, t))
  {
    assert TaskOk(st, t) && HandleOk(st, h, max);
  }

  /** It leaves less work, and the handle not done. */
  lemma NextOfWorks(st: State, t: TaskId, h: HandleId, max: nat)
    requires t < |st.tasks| && h < |st.handles| && st.tasks[t].handle == Some(h)
    requires st.tasks[t].phase != Finished && Enabled(st, NextOf(st, t)) &&
             (st.tasks[t].phase == Speaking ==> !st.tasks[t].isReply)
    ensures Work(Next(st, NextOf(st, t), max).tasks, h) < Work(st.tasks, h)
  {
    var next := Next(st, NextOf(st, t), max);
    WorkUpdate(st.tasks, t, next.tasks[t], h);
    assert next.tasks == st.tasks[t := next.tasks[t]];
  }

  lemma NextOfKeeps(st: State, t: TaskId, h: HandleId, g: nat, max: nat)
    requires WaitsOn(st, h, g) && !st.handles[h].done && g + 1 == |st.handles[h].generations|
    requires t < |st.tasks| && st.tasks[t].handle == Some(h) && st.tasks[t].phase != Finished &&
             Enabled(st, NextOf(st, t))
    ensures var next := Next(st, NextOf(st, t), max);
            if st.tasks[t].phase == Speaking && st.tasks[t].isReply then Ended(next, h, g)
            else WaitsOn(next, h, g) && !next.handles[h].done
  {
  }

  /** It can happen, and either ends the wait or leaves less work. */
  lemma WorkShrinks(st: State, t: TaskId, h: HandleId, g: nat, max: nat)
    requires Inv(st, max) && WaitsOn(st, h, g) && !st.handles[h].done
    requires t < |st.tasks| && st.tasks[t].handle == Some(h) && st.tasks[t].phase != Finished
    ensures Enabled(st, NextOf(st, t))
    ensures var next := Next(st, NextOf(st, t), max);
            Ended(next, h, g) || (WaitsOn(next, h, g) && !next.handles[h].done &&
                                  Work(next.tasks, h) < Work(st.tasks, h))
  {
    NextOfEnabled(st, t, h, g, max);
    NextOfKeeps(st, t, h, g, max);
    if st.tasks[t].phase != Speaking || !st.tasks[t].isReply {
      NextOfWorks(st, t, h, max);
    }
  }

  /**
    Once all tasks of `h` are finished, the callbacks of one still listed mark the handle done, and the
    generation with it.
   */
  lemma CallbacksEnd(st: State, h: HandleId, g: nat, max: nat) returns (t: TaskId)
    requires Inv(st, max) && WaitsOn(st, h, g) && !st.handles[h].done && AllFinished(st, h)
    ensures Enabled(st, Callbacks(t)) && Ended(Next(st, Callbacks(t), max), h, g)
  {
    assert Unclosed(st, h);
    t :| 0 <= t < |st.tasks| && st.tasks[t].handle == Some(h) && (st.tasks[t].phase != Finished || st.tasks[t].listed);
  }

  lemma {:induction false} UndoneCanEnd(st: State, h: HandleId, g: nat, max: nat) returns (run: seq<Event>)
    requires Inv(st, max) && WaitsOn(st, h, g) && !st.handles[h].done
    ensures Possible(st, run, max) && Ended(Run(st, run, max), h, g)
    decreases Work(st.tasks, h)
  {
    if AllFinished(st, h) {
      var t := CallbacksEnd(st, h, g, max);
      run := OneStep(st, Callbacks(t), [], max);
    } else {
      var t :| 0 <= t < |st.tasks| && st.tasks[t].handle == Some(h) && st.tasks[t].phase != Finished;
      WorkShrinks(st, t, h, g, max);
      var e := NextOf(st, t);
      var next := Next(st, e, max);
      if Ended(next, h, g) {
        run := OneStep(st, e, [], max);
      } else {
        StepKeeps(st, e, max);
        var rest := UndoneCanEnd(next, h, g, max);
        run := OneStep(st, e, rest, max);
      }
    }
  }

  lemma OneStep(st: State, e: Event, rest: seq<Event>, max: nat) returns (run: seq<Event>)
    requires Enabled(st, e) && Possible(Next(st, e, max), rest, max)
    ensures run == [e] + rest && Possible(st, run, max) && Run(st, run, max) == Run(Next(st, e, max), rest, max)
  {
    run := [e] + rest;
    assert run[0] == e && run[1..] == rest;
  }

  /**
    In every reachable state in which the coroutine waits on an open generation, the wait can end if and
    only if the handle is not done.
   */
  lemma WaitCanEndIff(before: seq<Event>, h: HandleId, g: nat, max: nat)
    requires Possible(INITIAL, before, max) && WaitsOn(Run(INITIAL, before, max), h, g)
    ensures var st := Run(INITIAL, before, max); CanEnd(st, h, g, max) <==> !st.handles[h].done
  {
    var st := Run(INITIAL, before, max);
    InitialOk(max);
    RunKeeps(INITIAL, before, max);
    if st.handles[h].done {
      forall run | Possible(st, run, max)
        ensures !Ended(Run(st, run, max), h, g)
      {
        DoneNeverEnds(st, run, h, g, max);
      }
    } else {
      var run := UndoneCanEnd(st, h, g, max);
    }
  }

  // ----- and it does happen

  /**
    While one reply plays, another is scheduled, interrupted in the queue, finished and done; then popped and
    waited on.
   */
  const INTERRUPTED_IN_QUEUE :=
    [Resume, CreateSpeech(true)] + ([RequestSchedule(0, 5), PassScheduled(0)] + ([Scheduler(false), PassAuthorized(0)]
    + ([CreateSpeech(true), RequestSchedule(1, 5), Interrupt(1)]
    + ([PassScheduled(1), Finish(1)] + ([Callbacks(1)] + [EndPlayout(0), Scheduler(false)])))))

  /** The first reply speaks for its generation. */
  const SPEAKER := Handle(false, false, true, false, [false], 1)

  const SPEAKING := Task(Some(0), true, Speaking, true, Some(0))

  const SPEAKING_STATE := State([SPEAKER], [SPEAKING], {0}, [], 1, Some(0), true, false, [], Playing(0, 0))

  /** The second one waits in the queue, interrupted. */
  const QUEUED := Handle(true, false, true, false, [], 1)

  const BEHIND := Task(Some(1), true, AwaitScheduled, true, None)

  const QUEUED_STATE := SPEAKING_STATE.(
    handles := [SPEAKER, QUEUED], tasks := [SPEAKING, BEHIND], requested := {0, 1}, queue := [Entry(5, 1, 1)],
        clock := 2)

  const LEFT_STATE := QUEUED_STATE.(
    handles := [SPEAKER, QUEUED.(done := true)], tasks := [SPEAKING, BEHIND.(phase := Finished, listed := false)])

  /** Interrupted in the queue, the reply ends. */
  lemma QueuedEnds(rest: seq<Event>, max: nat) returns (run: seq<Event>)
    requires Possible(ENDED_STATE, rest, max)
    ensures run == [PassScheduled(1), Finish(1)] + rest
    ensures Possible(QUEUED_STATE, run, max) && Run(QUEUED_STATE, run, max) == Run(ENDED_STATE, rest, max)
  {
    var left := QUEUED_STATE.(tasks := [SPEAKING, BEHIND.(phase := Leaving)]);
    assert Next(QUEUED_STATE, PassScheduled(1), max) == left;
    assert Next(left, Finish(1), max) == ENDED_STATE;
    run := OneStep(left, Finish(1), rest, max);
    run := OneStep(QUEUED_STATE, PassScheduled(1), run, max);
  }

  const ENDED_STATE := QUEUED_STATE.(tasks := [SPEAKING, BEHIND.(phase := Finished)])

  /** Its handle is done without ever having had a generation. */
  lemma QueuedLeaves(rest: seq<Event>, max: nat) returns (run: seq<Event>)
    requires Possible(LEFT_STATE, rest, max)
    ensures run == [Callbacks(1)] + rest
    ensures Possible(ENDED_STATE, run, max) && Run(ENDED_STATE, run, max) == Run(LEFT_STATE, rest, max)
  {
    assert Next(ENDED_STATE, Callbacks(1), max) == LEFT_STATE;
    run := OneStep(ENDED_STATE, Callbacks(1), rest, max);
  }

  /** The first reply ends, the coroutine goes on to the done handle and authorizes it. */
  lemma DoneIsPopped(st: State, max: nat) returns (run: seq<Event>)
    requires st == LEFT_STATE
    ensures run == [EndPlayout(0), Scheduler(false)]
    ensures Possible(st, run, max)
    ensures var end := Run(st, run, max); WaitsOn(end, 1, 0) && end.handles[1].done
  {
    var h := QUEUED.(done := true);
    var s1 := st.(handles := [SPEAKER.(generations := [true]), h],
                  tasks := [SPEAKING.(phase := Executing), st.tasks[1]]);
    var s2 := s1.(handles := [s1.handles[0], Authorize(h)], queue := [], current := Some(1), pc := Playing(1, 0));
    assert MarkGenerationDone(SPEAKER) == s1.handles[0];
    assert st.handles[0 := s1.handles[0]] == s1.handles && st.tasks[0 := s1.tasks[0]] == s1.tasks;
    assert Next(st, EndPlayout(0), max) == s1;
    assert Next(s1, Scheduler(false), max) == s2;
    run := OneStep(s1, Scheduler(false), [], max);
    run := OneStep(st, EndPlayout(0), run, max);
  }

  const SCHEDULED := Handle(false, false, true, false, [], 1)

  const WAITING := Task(Some(0), true, AwaitScheduled, true, None)

  /** The first reply has passed the wait for being scheduled and is in the queue. */
  const SCHEDULED_STATE := State(
    [SCHEDULED], [WAITING.(phase := AwaitAuthorized)], {0}, [Entry(5, 0, 0)], 1, None, true, false, [], Waiting)

  const CREATED_STATE := State([NEW_HANDLE], [WAITING], {}, [], 0, None, false, false, [], Waiting)

  lemma FirstCreated(rest: seq<Event>, max: nat) returns (run: seq<Event>)
    requires Possible(CREATED_STATE, rest, max)
    ensures run == [Resume, CreateSpeech(true)] + rest
    ensures Possible(INITIAL, run, max) && Run(INITIAL, run, max) == Run(CREATED_STATE, rest, max)
  {
    var s1 := INITIAL.(paused := false, pc := Waiting);
    assert Next(INITIAL, Resume, max) == s1;
    assert Next(s1, CreateSpeech(true), max) == CREATED_STATE;
    run := OneStep(s1, CreateSpeech(true), rest, max);
    run := OneStep(INITIAL, Resume, run, max);
  }

  lemma FirstScheduled(rest: seq<Event>, max: nat) returns (run: seq<Event>)
    requires Possible(SCHEDULED_STATE, rest, max)
    ensures run == [RequestSchedule(0, 5), PassScheduled(0)] + rest
    ensures Possible(CREATED_STATE, run, max) && Run(CREATED_STATE, run, max) == Run(SCHEDULED_STATE, rest, max)
  {
    var s1 := SCHEDULED_STATE.(tasks := [WAITING]);
    assert Next(CREATED_STATE, RequestSchedule(0, 5), max) == s1;
    assert Next(s1, PassScheduled(0), max) == SCHEDULED_STATE;
    run := OneStep(s1, PassScheduled(0), rest, max);
    run := OneStep(CREATED_STATE, RequestSchedule(0, 5), run, max);
  }

  /** It is authorized and speaks. */
  lemma FirstSpeaks(rest: seq<Event>, max: nat) returns (run: seq<Event>)
    requires Possible(SPEAKING_STATE, rest, max)
    ensures run == [Scheduler(false), PassAuthorized(0)] + rest
    ensures Possible(SCHEDULED_STATE, run, max) && Run(SCHEDULED_STATE, run, max) == Run(SPEAKING_STATE, rest, max)
  {
    var s1 := SPEAKING_STATE.(handles := [Authorize(SCHEDULED)], tasks := SCHEDULED_STATE.tasks);
    assert Next(SCHEDULED_STATE, Scheduler(false), max) == s1;
    assert Authorize(SCHEDULED).(authorized := false) == SPEAKER;
    assert s1.handles[0 := SPEAKER] == [SPEAKER] && s1.tasks[0 := SPEAKING] == [SPEAKING];
    assert Next(s1, PassAuthorized(0), max) == SPEAKING_STATE;
    run := OneStep(s1, PassAuthorized(0), rest, max);
    run := OneStep(SCHEDULED_STATE, Scheduler(false), run, max);
  }

  /** Meanwhile a second one is scheduled and interrupted. */
  lemma SecondIsQueued(rest: seq<Event>, max: nat) returns (run: seq<Event>)
    requires Possible(QUEUED_STATE, rest, max)
    ensures run == [CreateSpeech(true), RequestSchedule(1, 5), Interrupt(1)] + rest
    ensures Possible(SPEAKING_STATE, run, max) && Run(SPEAKING_STATE, run, max) == Run(QUEUED_STATE, rest, max)
  {
    var s0 := SPEAKING_STATE;
    var s1 := s0.(handles := [SPEAKER, NEW_HANDLE], tasks := [SPEAKING, BEHIND]);
    var s2 := s1.(requested := {0, 1}, queue := [Entry(5, 1, 1)], clock := 2,
                  handles := [SPEAKER, NEW_HANDLE.(scheduled := true)]);
    assert Next(s0, CreateSpeech(true), max) == s1;
    assert Next(s1, RequestSchedule(1, 5), max) == s2;
    assert Next(s2, Interrupt(1), max) == QUEUED_STATE;
    run := OneStep(s2, Interrupt(1), rest, max);
    run := OneStep(s1, RequestSchedule(1, 5), run, max);
    run := OneStep(s0, CreateSpeech(true), run, max);
  }

  /** From the second reply in the queue to the wait on its done handle. */
  lemma QueuedGetsStuck(max: nat) returns (run: seq<Event>)
    ensures run == [PassScheduled(1), Finish(1)] + ([Callbacks(1)] + [EndPlayout(0), Scheduler(false)])
    ensures Possible(QUEUED_STATE, run, max)
    ensures var end := Run(QUEUED_STATE, run, max); WaitsOn(end, 1, 0) && end.handles[1].done
  {
    run := DoneIsPopped(LEFT_STATE, max);
    run := QueuedLeaves(run, max);
    run := QueuedEnds(run, max);
  }

  lemma InterruptedInQueueIsStuck(max: nat)
    ensures Possible(INITIAL, INTERRUPTED_IN_QUEUE, max)
    ensures var st := Run(INITIAL, INTERRUPTED_IN_QUEUE, max); WaitsOn(st, 1, 0) && st.handles[1].done
  {
    var run := QueuedGetsStuck(max);
    run := SecondIsQueued(run, max);
    run := FirstSpeaks(run, max);
    run := FirstScheduled(run, max);
    run := FirstCreated(run, max);
    assert run == INTERRUPTED_IN_QUEUE;
  }
}
