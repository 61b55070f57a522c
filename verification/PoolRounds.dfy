/** What single steps of the process pool bring about, and what closing it does for good. */
module PoolRounds {
  import opened Wrappers
  import opened Subsequences
  import opened PoolMachine
  import opened PoolLaws

  /**
    A launch makes a spawn task exactly when nothing is warm and the tasks in the set are fewer than the launches
    then waiting; with something warm it takes the head, without suspending.
   */
  lemma LaunchSpawnsIff(st: State, permits: nat, idle: nat)
    requires Inv(st, permits) && Enabled(st, LaunchJob)
    ensures var next := Next(st, LaunchJob, idle);
            && (next.unborn == st.unborn + 1 <==>
                  st.queue == [] && st.unborn + Count(st.procs, Spawning) + st.ended <= st.waiting)
            && (next.unborn == st.unborn || next.unborn == st.unborn + 1)
            && |next.jobs| == |st.jobs| + 1
            && if st.queue == [] then
                 next.jobs[|st.jobs|] == Pending && next.waiting == st.waiting + 1 && next.queue == []
               else
                 && next.jobs[|st.jobs|] == On(st.queue[0]) && next.waiting == st.waiting
                 && next.queue == st.queue[1..]
  {
    if st.queue != [] {
      HeadReady(st, permits);
    }
  }

  lemma HeadReady(st: State, permits: nat)
    requires Inv(st, permits) && st.queue != []
    ensures st.queue[0] < |st.procs| && TryLaunch(st.procs[st.queue[0]], |st.jobs|) == None
  {
    var p := st.queue[0];
    var all := st.taken + st.queue;
    assert all[|st.taken|] == p && p in all;
    assert ProcOk(st, p);
    HeadFresh(st.taken, st.queue);
  }

  lemma HeadFresh(a: seq<ExecId>, b: seq<ExecId>)
    requires Distinct(a + b) && b != []
    ensures b[0] !in a
  {
    forall i | 0 <= i < |a|
      ensures a[i] != b[0]
    {
      assert (a + b)[i] == a[i] && (a + b)[|a|] == b[0];
    }
  }

  /** A round fills up to the target, capped by the default, counting what is warm and every spawn task in the set. */
  lemma RoundFills(st: State, idle: nat)
    ensures var next := Next(st, Tick, idle);
            var there := |st.queue| + SpawnTasks(st);
            var wanted := if st.target <= idle then st.target else idle;
            && |next.queue| + SpawnTasks(next) == (if st.closed || there >= wanted then there else wanted)
            && next == st.(unborn := next.unborn)
  {
  }

  /** Two rounds in a row are as good as one. */
  lemma RoundTwice(st: State, idle: nat)
    ensures Next(Next(st, Tick, idle), Tick, idle) == Next(st, Tick, idle)
  {
    RoundFills(st, idle);
  }

  // ----- how spawn tasks end

  /** The last step of the spawn task of `p`: dropped because the pool is closed, failed, or ready. */
  predicate Ends(st: State, e: Event, p: ExecId) {
    (e == Enter(p) && st.closed) || e == StartFails(p) || e == Initialized(p) || e == InitFails(p)
  }

  /**
    However a spawn task ends, it can bring up nothing more but stays in the set until its callback has run. It is
    warm then exactly when it was initialized, monitored unless it was dropped or not started, out of the list exactly
    when it was dropped, and what it held of the semaphore is given back.
   */
  lemma SpawnTaskEnds(st: State, e: Event, p: ExecId, permits: nat, idle: nat)
    requires Inv(st, permits) && Enabled(st, e) && Ends(st, e, p)
    ensures var next := Next(st, e, idle);
            && SpawnTasks(next) == SpawnTasks(st) && Coming(next) == Coming(st) - 1
            && next.queue == st.queue + (if e == Initialized(p) then [p] else [])
            && (next.procs[p].monitored <==> e == Initialized(p) || e == InitFails(p))
            && (p in next.executors <==> e != Enter(p))
            && next.free == st.free + (if e == Enter(p) then 0 else 1)
            && next.waiting == st.waiting && next.jobs == st.jobs
  {
    var next := Next(st, e, idle);
    assert ProcOk(st, p);
    RemoveOne(st.executors, p);
    CountUpdate(st.procs, p, next.procs[p], Spawning);
    assert next.procs == st.procs[p := next.procs[p]];
  }

  /** The callback takes one ended task out of the set, and does nothing else. */
  lemma DiscardTakesOne(st: State, idle: nat)
    requires Enabled(st, Discard)
    ensures var next := Next(st, Discard, idle);
            SpawnTasks(next) == SpawnTasks(st) - 1 && next == st.(ended := next.ended)
  {
  }

  /**
    `launch_job` of an executor refuses a second job before it looks at the initialization, and takes a job only
    when neither stops it.
   */
  lemma GuardsInOrder(x: Proc, j: JobId)
    ensures TryLaunch(x, j) == Some(Busy) <==> x.running.Some?
    ensures TryLaunch(x, j) == Some(NotInitialized) <==> x.running == None && !x.initialized
    ensures Assigned(x, j) == if x.running == None && x.initialized then x.(running := Some(j)) else x
  {
  }

  // ----- closing

  /** No process starts up: those inside the semaphore may go on, nobody enters it. */
  ghost predicate NoneStarts(before: State, after: State) {
    forall p :: 0 <= p < |after.procs| && Inside(after.procs[p]) ==> p < |before.procs| && Inside(before.procs[p])
  }

  lemma ClosedStep(st: State, e: Event, idle: nat)
    requires st.closed && Enabled(st, e)
    ensures var next := Next(st, e, idle); next.closed && NoneStarts(st, next) && |next.procs| >= |st.procs|
  {
    if e.LaunchJob? {
      var procs := Next(st, e, idle).procs;
      assert procs == st.procs || exists p :: 0 <= p < |st.procs| && procs == st.procs[p := procs[p]];
    }
  }

  /** A closed pool stays closed and starts no process any more, whatever is launched and whatever the target. */
  lemma {:induction false} ClosedForGood(st: State, events: seq<Event>, idle: nat)
    requires st.closed && Run(st, events, idle).Some?
    ensures var end := Run(st, events, idle).value; end.closed && NoneStarts(st, end) && |end.procs| >= |st.procs|
  {
    if events != [] {
      ClosedForGood(st, DropLast(events), idle);
      ClosedStep(Run(st, DropLast(events), idle).value, Last(events), idle);
    }
  }

  /** `aclose` closes. */
  lemma CloseCloses(st: State, events: seq<Event>, idle: nat)
    requires Run(Next(st, Close, idle), events, idle).Some?
    ensures NoneStarts(st, Run(Next(st, Close, idle), events, idle).value)
  {
    ClosedForGood(Next(st, Close, idle), events, idle);
  }

  // ----- executors that are gone

  lemma GoneStep(st: State, e: Event, p: ExecId, permits: nat, idle: nat)
    requires Inv(st, permits) && Enabled(st, e) && p < |st.procs| && p !in st.executors
    ensures p < |Next(st, e, idle).procs| && p !in Next(st, e, idle).executors
  {
    match e
    case Enter(q) => RemoveOne(st.executors, q);
    case Exits(q) => RemoveOne(st.executors, q);
    case _ =>
  }

  lemma {:induction false} GoneForGood(st: State, events: seq<Event>, p: ExecId, permits: nat, idle: nat)
    requires Inv(st, permits) && Run(st, events, idle).Some? && p < |st.procs| && p !in st.executors
    ensures p < |Run(st, events, idle).value.procs| && p !in Run(st, events, idle).value.executors
  {
    if events != [] {
      var mid := Run(st, DropLast(events), idle).value;
      InvRun(st, DropLast(events), permits, idle);
      GoneForGood(st, DropLast(events), p, permits, idle);
      GoneStep(mid, Last(events), p, permits, idle);
    }
  }

  lemma {:induction false} InvRun(st: State, events: seq<Event>, permits: nat, idle: nat)
    requires Inv(st, permits) && Run(st, events, idle).Some?
    ensures Inv(Run(st, events, idle).value, permits)
  {
    if events != [] {
      InvRun(st, DropLast(events), permits, idle);
      StepKeeps(Run(st, DropLast(events), idle).value, Last(events), permits, idle);
    }
  }

  /**
    A process that ended is out of the list for good. In the warm queue it stays: its death is seen by the monitor
    task only, and a launch may still take it.
   */
  lemma ExitedIsGone(st: State, p: ExecId, events: seq<Event>, permits: nat, idle: nat)
    requires Inv(st, permits) && Enabled(st, Exits(p)) && Run(Next(st, Exits(p), idle), events, idle).Some?
    ensures p in st.executors && p !in Run(Next(st, Exits(p), idle), events, idle).value.executors
    ensures Next(st, Exits(p), idle).queue == st.queue
  {
    assert ProcOk(st, p);
    RemoveOne(st.executors, p);
    StepKeeps(st, Exits(p), permits, idle);
    GoneForGood(Next(st, Exits(p), idle), events, p, permits, idle);
  }
}
