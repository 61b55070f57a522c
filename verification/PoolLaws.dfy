/** What holds in every run of the process pool. */
module PoolLaws {
  import opened Wrappers
  import opened Subsequences
  import opened PoolMachine

  /** In `_executors`: on its way up, being monitored, or left behind by a `start` that raised. */
  predicate Present(x: Proc) {
    Spawning(x) || x.monitored || x.stage == Unstarted
  }

  ghost predicate ProcOk(st: State, p: ExecId)
    requires p < |st.procs|
  {
    var x := st.procs[p];
    && (x.stage == Ready <==> p in st.taken + st.queue)
    && (x.running.Some? <==> p in st.taken)
    && (x.running.Some? ==> x.running.value < |st.jobs| && st.jobs[x.running.value] == On(p))
    && (x.initialized <==> x.stage == Ready || x.stage == Failed)
    && (x.monitored ==> x.initialized)
    && (p in st.executors <==> Present(x))
  }

  ghost predicate JobOk(st: State, j: JobId)
    requires j < |st.jobs|
  {
    match st.jobs[j]
    case Pending => true
    case On(p) => p < |st.procs| && st.procs[p].running == Some(j)
    case Refused(_) => false
  }

  ghost predicate ListsOk(st: State) {
    && Distinct(st.taken + st.queue) && Distinct(st.executors)
    && (forall p :: p in st.taken + st.queue ==> p < |st.procs|)
    && (forall p :: p in st.executors ==> p < |st.procs|)
  }

  ghost predicate CountsOk(st: State, permits: nat) {
    && st.free + Count(st.procs, Inside) == permits
    && st.waiting == Count(st.jobs, IsPending)
    && Shortage(st) <= st.lost + st.uncovered
  }

  ghost predicate Inv(st: State, permits: nat) {
    && (forall p :: 0 <= p < |st.procs| ==> ProcOk(st, p))
    && (forall j :: 0 <= j < |st.jobs| ==> JobOk(st, j))
    && ListsOk(st) && CountsOk(st, permits)
  }

  // ----- counting

  lemma CountSnoc<T>(s: seq<T>, x: T, p: T -> bool)
    ensures Count(s + [x], p) == Count(s, p) + (if p(x) then 1 else 0)
  {
    assert DropLast(s + [x]) == s;
  }

  lemma {:induction false} CountUpdate<T>(s: seq<T>, i: nat, x: T, p: T -> bool)
    requires i < |s|
    ensures Count(s[i := x], p) == Count(s, p) - (if p(s[i]) then 1 else 0) + (if p(x) then 1 else 0)
  {
    if i == |s| - 1 {
      assert DropLast(s[i := x]) == DropLast(s);
    } else {
      assert DropLast(s[i := x]) == DropLast(s)[i := x];
      CountUpdate(DropLast(s), i, x, p);
    }
  }

  // ----- the list of executors

  lemma {:induction false} RemoveOne(s: seq<ExecId>, p: ExecId)
    requires Distinct(s)
    ensures Distinct(Remove(s, p)) && forall q :: q in Remove(s, p) <==> q in s && q != p
  {
    if s != [] {
      assert s == [s[0]] + s[1..];
      if s[0] != p {
        RemoveOne(s[1..], p);
        assert s[0] !in s[1..];
        ConsDistinct(s[0], Remove(s[1..], p));
      }
    }
  }

  lemma ConsDistinct(x: ExecId, s: seq<ExecId>)
    requires Distinct(s) && x !in s
    ensures Distinct([x] + s)
  {
  }

  lemma DistinctSnoc(s: seq<ExecId>, x: ExecId)
    requires Distinct(s) && x !in s
    ensures Distinct(s + [x])
  {
  }

  // ----- steps that change one executor only

  /** What a step of a spawn or monitor task may do to its executor. */
  predicate Moves(x: Proc, y: Proc) {
    && y.running == x.running && (y.stage == Ready <==> x.stage == Ready)
    && (y.initialized <==> y.stage == Ready || y.stage == Failed) && (y.monitored ==> y.initialized)
    && (Present(y) ==> Present(x)) && (Spawning(y) ==> Spawning(x))
  }

  lemma SetProc(st: State, st': State, p: ExecId, y: Proc)
    requires p < |st.procs| && ProcOk(st, p) && Moves(st.procs[p], y) && Distinct(st.executors)
    requires st'.procs == st.procs[p := y] && st'.jobs == st.jobs && st'.taken == st.taken && st'.queue == st.queue
    requires st'.executors == if Present(y) then st.executors else Remove(st.executors, p)
    ensures ProcOk(st', p) && Distinct(st'.executors)
    ensures forall q :: q != p ==> (q in st'.executors <==> q in st.executors)
  {
    RemoveOne(st.executors, p);
  }

  lemma SetOthers(st: State, st': State, p: ExecId, y: Proc)
    requires (forall q :: 0 <= q < |st.procs| ==> ProcOk(st, q)) && (forall j :: 0 <= j < |st.jobs| ==> JobOk(st, j))
    requires p < |st.procs| && y.running == st.procs[p].running
    requires st'.procs == st.procs[p := y] && st'.jobs == st.jobs && st'.taken == st.taken && st'.queue == st.queue
    requires forall q :: q != p ==> (q in st'.executors <==> q in st.executors)
    requires ProcOk(st', p)
    ensures (forall q :: 0 <= q < |st'.procs| ==> ProcOk(st', q)) && (forall j :: 0 <= j < |st'.jobs| ==> JobOk(st', j))
  {
    forall q | 0 <= q < |st'.procs|
      ensures ProcOk(st', q)
    {
      assert ProcOk(st, q);
    }
    forall j | 0 <= j < |st'.jobs|
      ensures JobOk(st', j)
    {
      assert JobOk(st, j);
    }
  }

  lemma SetCounts(st: State, st': State, p: ExecId, y: Proc, permits: nat)
    requires CountsOk(st, permits) && p < |st.procs| && (Spawning(y) ==> Spawning(st.procs[p]))
    requires st'.procs == st.procs[p := y] && st'.jobs == st.jobs && st'.queue == st.queue && st'.waiting == st.waiting
    requires st'.unborn == st.unborn && st'.uncovered == st.uncovered
    requires st'.free + (if Inside(y) then 1 else 0) == st.free + (if Inside(st.procs[p]) then 1 else 0)
    requires st'.lost == st.lost + (if Spawning(st.procs[p]) && !Spawning(y) then 1 else 0)
    ensures CountsOk(st', permits)
  {
    CountUpdate(st.procs, p, y, Inside);
    CountUpdate(st.procs, p, y, Spawning);
  }

  /** A step that changes executor `p` and the list of executors. */
  lemma SetKeeps(st: State, st': State, p: ExecId, y: Proc, permits: nat)
    requires Inv(st, permits) && p < |st.procs| && Moves(st.procs[p], y)
    requires st' == st.(procs := st.procs[p := y], executors := st'.executors, ended := st'.ended, free := st'.free,
                        lost := st'.lost)
    requires st'.executors == if Present(y) then st.executors else Remove(st.executors, p)
    requires st'.free + (if Inside(y) then 1 else 0) == st.free + (if Inside(st.procs[p]) then 1 else 0)
    requires st'.lost == st.lost + (if Spawning(st.procs[p]) && !Spawning(y) then 1 else 0)
    ensures Inv(st', permits)
  {
    assert ProcOk(st, p);
    RemoveOne(st.executors, p);
    SetProc(st, st', p, y);
    SetOthers(st, st', p, y);
    SetCounts(st, st', p, y, permits);
  }

  // ----- an executor becomes ready

  lemma InitializedKeeps(st: State, p: ExecId, permits: nat, idle: nat)
    requires Inv(st, permits) && Enabled(st, Initialized(p))
    ensures Inv(Next(st, Initialized(p), idle), permits)
  {
    var st' := Next(st, Initialized(p), idle);
    var y := st'.procs[p];
    assert ProcOk(st, p);
    assert st'.taken + st'.queue == (st.taken + st.queue) + [p];
    DistinctSnoc(st.taken + st.queue, p);
    CountUpdate(st.procs, p, y, Inside);
    CountUpdate(st.procs, p, y, Spawning);
    forall q | 0 <= q < |st'.procs|
      ensures ProcOk(st', q)
    {
      assert ProcOk(st, q);
    }
    forall j | 0 <= j < |st'.jobs|
      ensures JobOk(st', j)
    {
      assert JobOk(st, j);
    }
  }

  // ----- a new executor

  lemma BeginKeeps(st: State, permits: nat, idle: nat)
    requires Inv(st, permits) && Enabled(st, Begin)
    ensures Inv(Next(st, Begin, idle), permits)
  {
    var n := |st.procs|;
    DistinctSnoc(st.executors, n);
    CountSnoc(st.procs, NEW_PROC, Inside);
    CountSnoc(st.procs, NEW_PROC, Spawning);
    BeginOthers(st, Next(st, Begin, idle));
  }

  lemma BeginOthers(st: State, st': State)
    requires (forall q :: 0 <= q < |st.procs| ==> ProcOk(st, q)) && (forall j :: 0 <= j < |st.jobs| ==> JobOk(st, j)) &&
             ListsOk(st)
    requires st'.procs == st.procs + [NEW_PROC] && st'.executors == st.executors + [|st.procs|]
    requires st'.jobs == st.jobs && st'.taken == st.taken && st'.queue == st.queue
    ensures (forall q :: 0 <= q < |st'.procs| ==> ProcOk(st', q)) && (forall j :: 0 <= j < |st'.jobs| ==> JobOk(st', j))
  {
    forall q | 0 <= q < |st'.procs|
      ensures ProcOk(st', q)
    {
      if q < |st.procs| {
        assert ProcOk(st, q);
      } else {
        assert q !in st.taken + st.queue;
      }
    }
    forall j | 0 <= j < |st'.jobs|
      ensures JobOk(st', j)
    {
      assert JobOk(st, j);
    }
  }

  // ----- launching

  /** The executor at the head of the queue is initialized and idle: the errors of `launch_job` cannot occur. */
  lemma HeadIsFit(st: State, permits: nat)
    requires Inv(st, permits) && st.queue != []
    ensures st.queue[0] < |st.procs| && TryLaunch(st.procs[st.queue[0]], 0) == None
  {
    var p := st.queue[0];
    assert (st.taken + st.queue)[|st.taken|] == p;
    assert p in st.taken + st.queue;
    assert ProcOk(st, p);
    forall i | 0 <= i < |st.taken|
      ensures st.taken[i] != p
    {
      assert (st.taken + st.queue)[i] != (st.taken + st.queue)[|st.taken|];
    }
  }

  lemma TakeKeeps(st: State, j: JobId, permits: nat)
    requires Inv(st, permits) && j < |st.jobs| && st.jobs[j] == Pending
    requires st.queue != [] && st.queue[0] < |st.procs| && st.waiting > 0
    ensures Inv(Take(st, j), permits)
  {
    var st' := Take(st, j);
    var p := st.queue[0];
    HeadIsFit(st, permits);
    assert st'.taken + st'.queue == st.taken + st.queue;
    CountUpdate(st.jobs, j, On(p), IsPending);
    CountUpdate(st.procs, p, st'.procs[p], Inside);
    CountUpdate(st.procs, p, st'.procs[p], Spawning);
    TakeOthers(st, st', j, p);
  }

  lemma TakeOthers(st: State, st': State, j: JobId, p: ExecId)
    requires (forall q :: 0 <= q < |st.procs| ==> ProcOk(st, q)) && (forall k :: 0 <= k < |st.jobs| ==> JobOk(st, k))
    requires j < |st.jobs| && p < |st.procs| && st.jobs[j] == Pending && st.procs[p].running == None
    requires st'.procs == st.procs[p := st.procs[p].(running := Some(j))] && st'.jobs == st.jobs[j := On(p)]
    requires st'.taken == st.taken + [p] && st'.taken + st'.queue == st.taken + st.queue &&
             st'.executors == st.executors
    ensures (forall q :: 0 <= q < |st'.procs| ==> ProcOk(st', q)) && (forall k :: 0 <= k < |st'.jobs| ==> JobOk(st', k))
  {
    forall q | 0 <= q < |st'.procs|
      ensures ProcOk(st', q)
    {
      assert ProcOk(st, q);
    }
    forall k | 0 <= k < |st'.jobs|
      ensures JobOk(st', k)
    {
      assert JobOk(st, k);
    }
  }

  /**
    A launch counted in, before it perhaps takes a process: the shortage may be one more than recorded, for as
    long as that.
   */
  lemma ArriveKeeps(st: State, permits: nat)
    requires Inv(st, permits)
    ensures var st' := CountedIn(st);
            Inv(st', permits) && st'.waiting > 0
  {
    var st' := CountedIn(st);
    ArriveCounts(st, permits);
    ArriveOthers(st, st');
  }

  lemma ArriveCounts(st: State, permits: nat)
    requires CountsOk(st, permits)
    ensures CountsOk(CountedIn(st), permits)
  {
    CountSnoc(st.jobs, Pending, IsPending);
    ArrivingCovered(st);
  }

  lemma ArrivingCovered(st: State)
    ensures Shortage(CountedIn(st)) <= Shortage(st) + (if Uncovers(st) then 1 else 0)
  {
    var st' := CountedIn(st);
    assert Coming(st') == Coming(st) + (st'.unborn - st.unborn);
  }

  /** A spawn task that ends stays in the set. */
  lemma EndingCount(st: State, p: ExecId, y: Proc)
    requires p < |st.procs| && Spawning(st.procs[p]) && !Spawning(y)
    ensures SpawnTasks(Set(st, p, y).(ended := st.ended + 1)) == SpawnTasks(st)
  {
    CountUpdate(st.procs, p, y, Spawning);
  }

  lemma ArriveOthers(st: State, st': State)
    requires (forall q :: 0 <= q < |st.procs| ==> ProcOk(st, q)) && (forall k :: 0 <= k < |st.jobs| ==> JobOk(st, k))
    requires st'.procs == st.procs && st'.executors == st.executors && st'.taken == st.taken && st'.queue == st.queue
    requires st'.jobs == st.jobs + [Pending]
    ensures (forall q :: 0 <= q < |st'.procs| ==> ProcOk(st', q)) && (forall k :: 0 <= k < |st'.jobs| ==> JobOk(st', k))
  {
    forall q | 0 <= q < |st'.procs|
      ensures ProcOk(st', q)
    {
      assert ProcOk(st, q);
    }
    forall k | 0 <= k < |st'.jobs|
      ensures JobOk(st', k)
    {
      if k < |st.jobs| {
        assert JobOk(st, k);
      }
    }
  }

  lemma LaunchKeeps(st: State, permits: nat, idle: nat)
    requires Inv(st, permits) && Enabled(st, LaunchJob)
    ensures Inv(Next(st, LaunchJob, idle), permits)
  {
    ArriveKeeps(st, permits);
    if st.queue != [] {
      TakeKeeps(CountedIn(st), |st.jobs|, permits);
    }
  }

  // ----- any step

  lemma StepKeeps(st: State, e: Event, permits: nat, idle: nat)
    requires Inv(st, permits) && Enabled(st, e)
    ensures Inv(Next(st, e, idle), permits)
  {
    var st' := Next(st, e, idle);
    match e
    case LaunchJob => LaunchKeeps(st, permits, idle);
    case Resume(j) => TakeKeeps(st, j, permits);
    case Begin => BeginKeeps(st, permits, idle);
    case Initialized(p) => InitializedKeeps(st, p, permits, idle);
    case Discard => OtherKeeps(st, st', permits);
    case Tick => OtherKeeps(st, st', permits);
    case SetTarget(_) => OtherKeeps(st, st', permits);
    case Close => OtherKeeps(st, st', permits);
    case _ => ProcStepKeeps(st, e, permits, idle);
  }

  lemma ProcStepKeeps(st: State, e: Event, permits: nat, idle: nat)
    requires Inv(st, permits) && Enabled(st, e)
    requires e.Enter? || e.Started? || e.StartFails? || e.InitFails? || e.Exits?
    ensures Inv(Next(st, e, idle), permits)
  {
    assert ProcOk(st, e.proc);
    SetKeeps(st, Next(st, e, idle), e.proc, Next(st, e, idle).procs[e.proc], permits);
  }

  lemma OtherKeeps(st: State, st': State, permits: nat)
    requires Inv(st, permits) && st'.unborn >= st.unborn
    requires st' == st.(unborn := st'.unborn, ended := st'.ended, target := st'.target, closed := st'.closed)
    ensures Inv(st', permits)
  {
    forall q | 0 <= q < |st'.procs|
      ensures ProcOk(st', q)
    {
      assert ProcOk(st, q);
    }
    forall k | 0 <= k < |st'.jobs|
      ensures JobOk(st', k)
    {
      assert JobOk(st, k);
    }
  }

  /** Every reachable state satisfies the invariant. */
  lemma {:induction false} RunKeeps(events: seq<Event>, permits: nat, idle: nat)
    requires Run(Initial(permits, idle), events, idle).Some?
    ensures Inv(Run(Initial(permits, idle), events, idle).value, permits)
  {
    if events != [] {
      RunKeeps(DropLast(events), permits, idle);
      StepKeeps(Run(Initial(permits, idle), DropLast(events), idle).value, Last(events), permits, idle);
    }
  }

  // ----- what follows

  /** Each executor enters the warm queue at most once, and never again once it has left. */
  lemma WarmedOnce(events: seq<Event>, permits: nat, idle: nat)
    requires Run(Initial(permits, idle), events, idle).Some?
    ensures var st := Run(Initial(permits, idle), events, idle).value;
            Distinct(st.taken + st.queue) && forall p :: p in st.taken + st.queue ==>
                p < |st.procs| && st.procs[p].stage == Ready
  {
    RunKeeps(events, permits, idle);
    var st := Run(Initial(permits, idle), events, idle).value;
    forall p | p in st.taken + st.queue
      ensures p < |st.procs| && st.procs[p].stage == Ready
    {
      assert ProcOk(st, p);
    }
  }

  /**
    Each job submitted is still waiting or was launched on one executor that runs it and nothing else;
    `launch_job` never raised for it. The jobs still waiting are those counted.
   */
  lemma LaunchedOnce(events: seq<Event>, permits: nat, idle: nat)
    requires Run(Initial(permits, idle), events, idle).Some?
    ensures var st := Run(Initial(permits, idle), events, idle).value;
            && (forall j :: 0 <= j < |st.jobs| ==> !st.jobs[j].Refused?)
            && (forall j :: 0 <= j < |st.jobs| && st.jobs[j].On? ==>
                st.jobs[j].proc < |st.procs| && st.procs[st.jobs[j].proc].running == Some(j))
            && (forall i, j :: 0 <= i < j < |st.jobs| && st.jobs[i].On? ==> st.jobs[i] != st.jobs[j])
            && st.waiting == Count(st.jobs, IsPending)
  {
    RunKeeps(events, permits, idle);
    var st := Run(Initial(permits, idle), events, idle).value;
    forall j | 0 <= j < |st.jobs|
      ensures !st.jobs[j].Refused?
      ensures st.jobs[j].On? ==> st.jobs[j].proc < |st.procs| && st.procs[st.jobs[j].proc].running == Some(j)
    {
      assert JobOk(st, j);
    }
  }

  /** What was launched stays where it is, whatever happens next. */
  lemma {:induction false} LaunchIsFinal(events: seq<Event>, more: seq<Event>, permits: nat, idle: nat, j: JobId)
    requires Run(Initial(permits, idle), events + more, idle).Some?
    ensures var before := Run(Initial(permits, idle), events, idle);
            var after := Run(Initial(permits, idle), events + more, idle);
            before.Some? && (j < |before.value.jobs| && before.value.jobs[j].On? ==>
              j < |after.value.jobs| && after.value.jobs[j] == before.value.jobs[j])
  {
    if more == [] {
      assert events + more == events;
    } else {
      assert DropLast(events + more) == events + DropLast(more);
      LaunchIsFinal(events, DropLast(more), permits, idle, j);
      JobStays(Run(Initial(permits, idle), events + DropLast(more), idle).value, Last(more), idle, j);
    }
  }

  lemma JobStays(st: State, e: Event, idle: nat, j: JobId)
    requires Enabled(st, e)
    ensures j < |st.jobs| && st.jobs[j].On? ==> j < |Next(st, e, idle).jobs| && Next(st, e, idle).jobs[j] == st.jobs[j]
  {
  }

  /** `list.remove` never fails: the executor to remove is in the list. */
  lemma RemoveFinds(events: seq<Event>, permits: nat, idle: nat, p: ExecId)
    requires Run(Initial(permits, idle), events, idle).Some?
    ensures var st := Run(Initial(permits, idle), events, idle).value;
            Enabled(st, Exits(p)) || Enabled(st, Enter(p)) ==> p in st.executors
  {
    RunKeeps(events, permits, idle);
    var st := Run(Initial(permits, idle), events, idle).value;
    if p < |st.procs| {
      assert ProcOk(st, p);
    }
  }

  /** No more processes initialize at once than the semaphore allows. */
  lemma InitializationsBounded(events: seq<Event>, permits: nat, idle: nat)
    requires Run(Initial(permits, idle), events, idle).Some?
    ensures Count(Run(Initial(permits, idle), events, idle).value.procs, Inside) <= permits
  {
    RunKeeps(events, permits, idle);
  }

  /**
    In every run, the waiting launches with no process warm or coming are at most as many as the spawn tasks
    that failed and the launches that left one more without a process.
   */
  lemma WaitersCovered(events: seq<Event>, permits: nat, idle: nat)
    requires Run(Initial(permits, idle), events, idle).Some?
    ensures var st := Run(Initial(permits, idle), events, idle).value;
            st.waiting <= |st.queue| + Coming(st) + st.lost + st.uncovered
  {
    RunKeeps(events, permits, idle);
  }

  /** And the condition is exact: a launch makes the shortage grow, by one, just when `Uncovers` holds. */
  lemma LaunchUncoversIff(st: State, permits: nat, idle: nat)
    requires Inv(st, permits) && Enabled(st, LaunchJob)
    ensures var st' := Next(st, LaunchJob, idle);
            && (Shortage(st') > Shortage(st) <==> Uncovers(st))
            && Shortage(st') == Shortage(st) + (if Uncovers(st) then 1 else 0)
  {
    if st.queue != [] {
      HeadIsFit(st, permits);
      CountUpdate(st.procs, st.queue[0], Assigned(st.procs[st.queue[0]], |st.jobs|), Spawning);
    }
  }

  /** Besides launches, only a spawn task that fails makes it grow. */
  lemma OnlyFailuresElse(st: State, e: Event, permits: nat, idle: nat)
    requires Inv(st, permits) && Enabled(st, e) && !e.LaunchJob? && Shortage(Next(st, e, idle)) > Shortage(st)
    ensures e.StartFails? || e.InitFails? || (e.Enter? && st.closed)
  {
    var st' := Next(st, e, idle);
    if e.Begin? {
      CountSnoc(st.procs, NEW_PROC, Spawning);
    } else if e.Resume? {
      HeadIsFit(st, permits);
      CountUpdate(st.procs, st.queue[0], Assigned(st.procs[st.queue[0]], e.job), Spawning);
    } else if e.Enter? || e.Started? || e.Initialized? || e.Exits? {
      CountUpdate(st.procs, e.proc, st'.procs[e.proc], Spawning);
    }
  }

  lemma Extend(events: seq<Event>, e: Event, st: State, before: State, idle: nat) returns (longer: seq<Event>)
    requires Run(st, events, idle) == Some(before) && Enabled(before, e)
    ensures Run(st, longer, idle) == Some(Next(before, e, idle))
  {
    longer := events + [e];
    assert DropLast(longer) == events;
  }

  lemma Replace(procs: seq<Proc>, x: Proc, y: Proc)
    ensures (procs + [x])[|procs| := y] == procs + [y]
  {
  }

  /** A spawn task left alone: its process ends up at the back of the warm queue, the task still in the set. */
  lemma BringUp(events: seq<Event>, start: State, st: State, idle: nat) returns (longer: seq<Event>, after: State)
    requires Run(start, events, idle) == Some(st) && st.unborn > 0 && st.free > 0 && !st.closed
    ensures Run(start, longer, idle) == Some(after)
    ensures var n := |st.procs|;
            after == st.(unborn := st.unborn - 1, ended := st.ended + 1, procs := st.procs + [READY_PROC],
                         executors := st.executors + [n], queue := st.queue + [n],
                         idleReady := st.idleReady || |st.queue| + 1 >= idle)
  {
    var n := |st.procs|;
    longer := Extend(events, Begin, start, st, idle);
    var s2 := Next(st, Begin, idle);
    longer := Extend(longer, Enter(n), start, s2, idle);
    var s3 := Next(s2, Enter(n), idle);
    Replace(st.procs, NEW_PROC, Proc(Starting, false, false, None));
    longer := Extend(longer, Started(n), start, s3, idle);
    var s4 := Next(s3, Started(n), idle);
    Replace(st.procs, Proc(Starting, false, false, None), Proc(Initializing, false, false, None));
    longer := Extend(longer, Initialized(n), start, s4, idle);
    after := Next(s4, Initialized(n), idle);
    Replace(st.procs, Proc(Initializing, false, false, None), READY_PROC);
  }

  const READY_PROC := Proc(Ready, true, true, None)

  // ----- two launches left waiting

  /** A launch waits with no process warm and no spawn task in the set, and no round of the main task changes that. */
  predicate Stranded(st: State, idle: nat) {
    st.waiting == 1 && st.lost == 0 && st.queue == [] && SpawnTasks(st) == 0 && Next(st, Tick, idle) == st
  }

  /** One process, ready, and nothing else in the set of spawn tasks. */
  lemma OneReady(st: State)
    requires |st.procs| == 1 && st.procs[0].stage == Ready && st.unborn == 0
    ensures Coming(st) == 0
  {
    CountSnoc([], st.procs[0], Spawning);
    assert [] + [st.procs[0]] == st.procs;
  }

  /** A pool with nothing in it. */
  ghost predicate Empty(st: State) {
    && st.procs == [] && st.executors == [] && st.queue == [] && st.jobs == [] && st.unborn == 0 && st.ended == 0
    && st.free > 0 && st.waiting == 0 && st.lost == 0 && !st.closed
  }

  lemma FirstLaunch(start: State)
    requires Empty(start)
    ensures Next(start, LaunchJob, 0) == start.(waiting := 1, jobs := [Pending], unborn := 1)
  {
  }

  /** A launch that takes the only warm process, over one that waits; then the discard. */
  lemma SecondLaunch(st: State)
    requires st.queue == [0] && st.unborn == 0 && st.ended == 1 && st.procs == [READY_PROC] && st.jobs == [Pending]
    requires st.waiting == 1 && st.target == 0 && st.lost == 0
    ensures var st' := Next(st, LaunchJob, 0);
            && st'.ended == 1 && st'.jobs == [Pending, On(0)] && Stranded(st'.(ended := 0), 0)
  {
    OneReady(Next(st, LaunchJob, 0).(ended := 0));
  }

  lemma OvertakenFrom(start: State) returns (events: seq<Event>, st: State)
    requires Empty(start) && start.target == 0
    ensures Run(start, events, 0) == Some(st) && st.jobs == [Pending, On(0)] && Stranded(st, 0)
  {
    FirstLaunch(start);
    var s1 := Next(start, LaunchJob, 0);
    events := Extend([], LaunchJob, start, start, 0);
    var s5;
    events, s5 := BringUp(events, start, s1, 0);
    assert [] + [READY_PROC] == [READY_PROC] && [] + [0] == [0];
    SecondLaunch(s5);
    events := Extend(events, LaunchJob, start, s5, 0);
    var s6 := Next(s5, LaunchJob, 0);
    events := Extend(events, Discard, start, s6, 0);
    st := Next(s6, Discard, 0);
  }

  /**
    In a pool that keeps no idle processes a second launch takes the process spawned for the first, which
    is left waiting.
   */
  lemma OvertakenWaits(permits: nat) returns (events: seq<Event>, st: State)
    requires permits > 0
    ensures Run(Initial(permits, 0), events, 0) == Some(st) && st.jobs == [Pending, On(0)] && Stranded(st, 0)
  {
    StartsEmpty(permits, 0);
    events, st := OvertakenFrom(Initial(permits, 0));
  }

  /** A round of the main task of an empty pool that keeps one idle process. */
  lemma FirstRound(start: State)
    requires Empty(start) && start.target == 1
    ensures Next(start, Tick, 1) == start.(unborn := 1)
  {
  }

  /** Nobody waits, and a launch takes the process whose spawn task has just ended. */
  lemma TakesTheLast(st: State)
    requires st.queue == [0] && st.unborn == 0 && st.ended == 1 && st.procs == [READY_PROC] && st.jobs == [] &&
             st.waiting == 0
    ensures Next(st, LaunchJob, 1) ==
            st.(queue := [], taken := st.taken + [0], jobs := [On(0)], procs := [READY_PROC.(running := Some(0))])
  {
    OneReady(st);
  }

  /** The next one finds the queue empty and that task still in the set: it waits and spawns nothing. */
  lemma SpawnsNothing(st: State)
    requires st.queue == [] && st.unborn == 0 && st.ended == 1 && st.procs == [READY_PROC.(running := Some(0))]
    requires st.jobs == [On(0)] && st.waiting == 0 && st.lost == 0
    ensures Uncovers(st)
    ensures var st' := Next(st, LaunchJob, 1);
            && st'.ended == 1 && st'.jobs == [On(0), Pending] && Stranded(st'.(ended := 0, target := 0), 1)
  {
    OneReady(st);
    OneReady(Next(st, LaunchJob, 1).(ended := 0, target := 0));
  }

  /** The two launches, the discard, and the lower target. */
  lemma TwoLaunches(events: seq<Event>, start: State, st: State) returns (longer: seq<Event>, after: State)
    requires Run(start, events, 1) == Some(st)
    requires st.queue == [0] && st.unborn == 0 && st.ended == 1 && st.procs == [READY_PROC] && st.jobs == []
    requires st.waiting == 0 && st.lost == 0
    ensures Run(start, longer, 1) == Some(after) && after.jobs == [On(0), Pending] && Stranded(after, 1)
  {
    TakesTheLast(st);
    longer := Extend(events, LaunchJob, start, st, 1);
    var s6 := Next(st, LaunchJob, 1);
    SpawnsNothing(s6);
    longer := Extend(longer, LaunchJob, start, s6, 1);
    var s7 := Next(s6, LaunchJob, 1);
    longer := Extend(longer, Discard, start, s7, 1);
    var s8 := Next(s7, Discard, 1);
    longer := Extend(longer, SetTarget(0), start, s8, 1);
    after := Next(s8, SetTarget(0), 1);
  }

  lemma UnspawnedFrom(start: State) returns (events: seq<Event>, st: State)
    requires Empty(start) && start.target == 1
    ensures Run(start, events, 1) == Some(st) && st.jobs == [On(0), Pending] && Stranded(st, 1)
  {
    FirstRound(start);
    events := Extend([], Tick, start, start, 1);
    var s1, s5 := Next(start, Tick, 1), start;
    events, s5 := BringUp(events, start, s1, 1);
    assert [] + [READY_PROC] == [READY_PROC] && [] + [0] == [0];
    events, st := TwoLaunches(events, start, s5);
  }

  /**
    In a pool that keeps one idle process, nobody overtaken: of two launches that follow the end of a spawn
    task before its done callback, the second is left waiting once the target is lowered.
   */
  lemma UnspawnedWaits(permits: nat) returns (events: seq<Event>, st: State)
    requires permits > 0
    ensures Run(Initial(permits, 1), events, 1) == Some(st) && st.jobs == [On(0), Pending] && Stranded(st, 1)
  {
    StartsEmpty(permits, 1);
    events, st := UnspawnedFrom(Initial(permits, 1));
  }

  /** The pool as constructed is such a pool. */
  lemma StartsEmpty(permits: nat, idle: nat)
    requires permits > 0
    ensures Empty(Initial(permits, idle)) && Initial(permits, idle).target == idle
  {
  }
}
