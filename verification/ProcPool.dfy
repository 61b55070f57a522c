/**
  The classes of agent/livekit/agents/ipc/proc_pool.py and job_proc_executor.py: every method is what its
  coroutine does between two awaits, proved to be a step of the pool machine.
 */
module ProcPool {
  import opened Wrappers
  import opened PoolMachine
  import opened PoolLaws

  class ProcJobExecutor {
    ghost const id: ExecId
    var initializeFut: bool
    var runningJob: Option<JobId>

    // where the spawn task of this executor stands, and whether a monitor task runs for it
    ghost var stage: Stage
    ghost var monitored: bool

    ghost function Value(): Proc
      reads this
    {
      Proc(stage, initializeFut, monitored, runningJob)
    }

    constructor (ghost id: ExecId)
      ensures this.id == id && Value() == NEW_PROC
    {
      this.id := id;
      initializeFut, runningJob := false, None;
      stage, monitored := Created, false;
    }

    /** `launch_job`: `error` is the exception raised. */
    method LaunchJob(info: JobId) returns (error: Option<LaunchError>)
      modifies `runningJob
      ensures error == TryLaunch(old(Value()), info)
      ensures Value() == Assigned(old(Value()), info)
    {
      if runningJob.Some? {
        return Some(Busy);
      }
      if !initializeFut {
        return Some(NotInitialized);
      }
      runningJob := Some(info);
      error := None;
    }
  }

  ghost function IdsOf(procs: seq<ProcJobExecutor>): (r: seq<ExecId>)
    ensures |r| == |procs|
  {
    seq(|procs|, i requires 0 <= i < |procs| => procs[i].id)
  }

  /** Every executor of the list is one of `procs`, at the position it names. */
  ghost predicate AllListed(procs: seq<ProcJobExecutor>, list: seq<ProcJobExecutor>) {
    forall i :: 0 <= i < |list| ==> list[i].id < |procs| && procs[list[i].id] == list[i]
  }

  lemma PopFront(procs: seq<ProcJobExecutor>, list: seq<ProcJobExecutor>)
    requires AllListed(procs, list) && list != []
    ensures AllListed(procs, list[1..]) && IdsOf(list[1..]) == IdsOf(list)[1..]
  {
  }

  lemma PushBack(procs: seq<ProcJobExecutor>, list: seq<ProcJobExecutor>, proc: ProcJobExecutor)
    requires AllListed(procs, list) && proc.id < |procs| && procs[proc.id] == proc
    ensures AllListed(procs, list + [proc]) && IdsOf(list + [proc]) == IdsOf(list) + [proc.id]
  {
  }

  lemma Grow(procs: seq<ProcJobExecutor>, list: seq<ProcJobExecutor>, proc: ProcJobExecutor)
    requires AllListed(procs, list)
    ensures AllListed(procs + [proc], list)
  {
  }

  class ProcPool {
    const defaultNumIdle: nat
    var executors: seq<ProcJobExecutor>
    var warmedProcQueue: seq<ProcJobExecutor>
    var spawnTasks: nat
    var initSem: nat
    var jobsWaiting: nat
    var targetIdle: nat
    var closed: bool
    var idleReady: bool

    // all executors made so far, and the state of the pool machine
    ghost var procs: seq<ProcJobExecutor>
    ghost var model: State

    ghost predicate Fields()
      reads this
    {
      && AllListed(procs, executors) && IdsOf(executors) == model.executors
      && AllListed(procs, warmedProcQueue) && IdsOf(warmedProcQueue) == model.queue
      && initSem == model.free && jobsWaiting == model.waiting
      && targetIdle == model.target && closed == model.closed && idleReady == model.idleReady
    }

    ghost predicate Procs()
      reads `procs, `model, procs
    {
      |procs| == |model.procs| && forall i :: 0 <= i < |procs| ==>
          procs[i].id == i && procs[i].Value() == model.procs[i]
    }

    /** The fields are those of the machine's state. */
    ghost predicate Valid()
      reads this, procs
    {
      Procs() && Fields() && spawnTasks == SpawnTasks(model)
    }

    constructor (numIdle: nat, maxInitializations: nat)
      ensures Valid() && defaultNumIdle == numIdle && model == Initial(maxInitializations, numIdle)
    {
      defaultNumIdle, targetIdle, initSem := numIdle, numIdle, maxInitializations;
      executors, warmedProcQueue, spawnTasks, jobsWaiting := [], [], 0, 0;
      closed, idleReady := false, false;
      procs, model := [], Initial(maxInitializations, numIdle);
    }

    /** The part of `launch_job` before it waits in the queue. */
    method CountIn()
      requires Valid()
      modifies `jobsWaiting, `spawnTasks, `model
      ensures Valid() && model == CountedIn(old(model))
    {
      jobsWaiting := jobsWaiting + 1;
      if |warmedProcQueue| == 0 && spawnTasks < jobsWaiting {
        spawnTasks := spawnTasks + 1;
      }
      model := CountedIn(model);
    }

    /** `await proc.launch_job(info)`; `error` is what it raises. */
    method Assign(proc: ProcJobExecutor, info: JobId) returns (error: Option<LaunchError>)
      requires Procs() && proc.id < |procs| && procs[proc.id] == proc
      modifies `model, proc`runningJob
      ensures Procs() && error == TryLaunch(old(model.procs[proc.id]), info)
      ensures model == Set(old(model), proc.id, Assigned(old(model.procs[proc.id]), info))
      ensures SpawnTasks(model) == SpawnTasks(old(model))
    {
      CountUpdate(model.procs, proc.id, Assigned(model.procs[proc.id], info), Spawning);
      error := proc.LaunchJob(info);
      model := Set(model, proc.id, Assigned(model.procs[proc.id], info));
    }

    /** `Queue.get` takes the head of the queue. */
    method GetProcess() returns (proc: ProcJobExecutor)
      requires Valid() && warmedProcQueue != [] && jobsWaiting > 0
      modifies `warmedProcQueue, `jobsWaiting, `model
      ensures Valid() && proc == old(warmedProcQueue[0]) && proc.id == old(model).queue[0]
      ensures proc.id < |procs| && procs[proc.id] == proc && old(model).queue != [] && old(model).waiting > 0
      ensures model == old(model).(queue := old(model).queue[1..], taken := old(model).taken + [proc.id],
                                   waiting := old(model).waiting - 1)
    {
      proc := warmedProcQueue[0];
      PopFront(procs, warmedProcQueue);
      warmedProcQueue := warmedProcQueue[1..];
      jobsWaiting := jobsWaiting - 1;
      model := model.(queue := model.queue[1..], taken := model.taken + [proc.id], waiting := model.waiting - 1);
    }

    /** The part after it waited. */
    method TakeProcess(info: JobId, ghost head: ProcJobExecutor) returns (error: Option<LaunchError>)
      requires Valid() && info < |model.jobs| && warmedProcQueue != [] && warmedProcQueue[0] == head && jobsWaiting > 0
      modifies `warmedProcQueue, `jobsWaiting, `model, head`runningJob
      ensures Valid() && model == Take(old(model), info) && model.jobs[info] == Outcome(error, head.id)
    {
      var proc := GetProcess();
      error := Assign(proc, info);
      model := model.(jobs := model.jobs[info := Outcome(error, proc.id)]);
    }

    /** `launch_job` up to its first suspension. */
    method LaunchJob(info: JobId) returns (error: Option<LaunchError>)
      requires Valid() && info == |model.jobs|
      modifies `jobsWaiting, `spawnTasks, `warmedProcQueue, `model, warmedProcQueue
      ensures Valid() && model == Next(old(model), Event.LaunchJob, defaultNumIdle)
      ensures error.Some? ==> model.jobs[info] == Refused(error.value)
    {
      CountIn();
      if warmedProcQueue == [] {
        return None;
      }
      error := TakeProcess(info, warmedProcQueue[0]);
    }

    /** A new executor, in no list yet. */
    method NewExecutor() returns (proc: ProcJobExecutor)
      requires Procs()
      modifies `procs, `model
      ensures Procs() && fresh(proc) && proc.id == |old(procs)| && procs == old(procs) + [proc]
      ensures model == old(model).(procs := old(model).procs + [NEW_PROC])
    {
      proc := new ProcJobExecutor(|procs|);
      procs := procs + [proc];
      model := model.(procs := model.procs + [NEW_PROC]);
    }

    /** `_proc_spawn_task` up to the semaphore. */
    method SpawnBegin() returns (proc: ProcJobExecutor)
      requires Valid() && Enabled(model, Begin)
      modifies `executors, `procs, `model
      ensures Valid() && fresh(proc) && model == Next(old(model), Begin, 0)
    {
      CountSnoc(model.procs, NEW_PROC, Spawning);
      proc := NewExecutor();
      Grow(old(procs), warmedProcQueue, proc);
      Grow(old(procs), executors, proc);
      PushBack(procs, executors, proc);
      executors := executors + [proc];
      model := model.(executors := model.executors + [proc.id], unborn := model.unborn - 1);
    }

    /** An executor changes. */
    method Become(proc: ProcJobExecutor, ghost stage: Stage, initialized: bool, ghost monitored: bool)
      requires Procs() && proc.id < |procs| && procs[proc.id] == proc
      modifies `model, proc`stage, proc`initializeFut, proc`monitored
      ensures Procs() && model == Set(old(model), proc.id,
                                      Proc(stage, initialized, monitored, old(model.procs[proc.id]).running))
    {
      proc.initializeFut := initialized;
      proc.stage := stage;
      proc.monitored := monitored;
      model := Set(model, proc.id, Proc(stage, initialized, monitored, model.procs[proc.id].running));
    }

    /** The spawn task goes on: it holds the semaphore, or leaves `start`. */
    method GoOn(proc: ProcJobExecutor, ghost stage: Stage)
      requires Valid() && proc.id < |procs| && procs[proc.id] == proc
      requires Spawning(proc.Value()) && Spawning(proc.Value().(stage := stage))
      modifies `model, proc`stage, proc`initializeFut, proc`monitored
      ensures Valid() && model == Set(old(model), proc.id, old(model.procs[proc.id]).(stage := stage))
    {
      CountUpdate(model.procs, proc.id, model.procs[proc.id].(stage := stage), Spawning);
      Become(proc, stage, proc.initializeFut, proc.monitored);
    }

    /**
      The spawn task ends, still in the set; unless the executor was dropped or never started, a monitor task
      begins.
     */
    method TaskEnds(proc: ProcJobExecutor, ghost stage: Stage, initialized: bool)
      requires Valid() && proc.id < |procs| && procs[proc.id] == proc && Spawning(proc.Value())
      requires stage == Ready || stage == Failed || stage == Unstarted || stage == Dropped
      modifies `model, proc`stage, proc`initializeFut, proc`monitored
      ensures Valid()
      ensures model == Set(old(model), proc.id,
                           Proc(stage, initialized, initialized, old(model.procs[proc.id]).running)).(
                         ended := old(model).ended + 1, lost := old(model).lost + (if stage == Ready then 0 else 1))
    {
      EndingCount(model, proc.id, Proc(stage, initialized, initialized, model.procs[proc.id].running));
      Become(proc, stage, initialized, initialized);
      model := model.(ended := model.ended + 1, lost := model.lost + (if stage == Ready then 0 else 1));
    }

    /** `_spawn_tasks.discard`, the done callback of a spawn task. */
    method DiscardTask()
      requires Valid() && Enabled(model, Discard)
      modifies `spawnTasks, `model
      ensures Valid() && model == Next(old(model), Discard, 0)
    {
      spawnTasks := spawnTasks - 1;
      model := model.(ended := model.ended - 1);
    }

    /** `self._executors.remove(proc)`. */
    method RemoveExecutor(proc: ProcJobExecutor)
      requires Valid() && proc.id < |procs| && procs[proc.id] == proc
      modifies `executors, `model
      ensures Valid() && model == old(model).(executors := Remove(old(model).executors, proc.id))
    {
      Removal(procs, executors, proc);
      executors := RemoveFirst(executors, proc);
      model := model.(executors := Remove(model.executors, proc.id));
    }

    /** Acquiring and releasing the semaphore. */
    method Acquire()
      requires Valid() && initSem > 0
      modifies `initSem, `model
      ensures Valid() && model == old(model).(free := old(model).free - 1)
    {
      initSem := initSem - 1;
      model := model.(free := model.free - 1);
    }

    method Release()
      requires Valid()
      modifies `initSem, `model
      ensures Valid() && model == old(model).(free := old(model).free + 1)
    {
      initSem := initSem + 1;
      model := model.(free := model.free + 1);
    }

    /** The semaphore is free: up to the first await inside; `closed` ends the task. */
    method SpawnEnter(proc: ProcJobExecutor)
      requires Valid() && Enabled(model, Enter(proc.id)) && procs[proc.id] == proc && !proc.initializeFut &&
               !proc.monitored
      modifies `executors, `initSem, `model, proc`stage, proc`initializeFut, proc`monitored
      ensures Valid() && model == Next(old(model), Enter(proc.id), 0)
    {
      if closed {
        RemoveExecutor(proc);
        TaskEnds(proc, Dropped, false);
        return;
      }
      Acquire();
      GoOn(proc, Starting);
    }

    /** `start` returned. */
    method SpawnStarted(proc: ProcJobExecutor)
      requires Valid() && Enabled(model, Started(proc.id)) && procs[proc.id] == proc
      modifies `model, proc`stage, proc`initializeFut, proc`monitored
      ensures Valid() && model == Next(old(model), Started(proc.id), 0)
    {
      GoOn(proc, Initializing);
    }

    /** `start` raised, which ends the task. */
    method SpawnStartFailed(proc: ProcJobExecutor)
      requires Valid() && Enabled(model, StartFails(proc.id)) && procs[proc.id] == proc && !proc.initializeFut &&
               !proc.monitored
      modifies `initSem, `model, proc`stage, proc`initializeFut, proc`monitored
      ensures Valid() && model == Next(old(model), StartFails(proc.id), 0)
    {
      Release();
      TaskEnds(proc, Unstarted, false);
    }

    /** `put_nowait` into the warm queue. */
    method PutWarm(proc: ProcJobExecutor)
      requires Valid() && proc.id < |procs| && procs[proc.id] == proc
      modifies `warmedProcQueue, `idleReady, `model
      ensures Valid() && model == old(model).(queue := old(model).queue + [proc.id],
                                              idleReady := old(model).idleReady ||
                                                  |old(model).queue| + 1 >= defaultNumIdle)
    {
      PushBack(procs, warmedProcQueue, proc);
      model := model.(queue := model.queue + [proc.id],
                      idleReady := model.idleReady || |model.queue| + 1 >= defaultNumIdle);
      warmedProcQueue := warmedProcQueue + [proc];
      if |warmedProcQueue| >= defaultNumIdle {
        idleReady := true;
      }
    }

    /** `initialize` returned, to the end of the task. */
    method SpawnInitialized(proc: ProcJobExecutor)
      requires Valid() && Enabled(model, Initialized(proc.id)) && procs[proc.id] == proc
      modifies `initSem, `warmedProcQueue, `idleReady, `model, proc`stage, proc`initializeFut, proc`monitored
      ensures Valid() && model == Next(old(model), Initialized(proc.id), defaultNumIdle)
    {
      PutWarm(proc);
      Release();
      TaskEnds(proc, Ready, true);
    }

    /** `initialize` raised, to the end of the task. */
    method SpawnInitFailed(proc: ProcJobExecutor)
      requires Valid() && Enabled(model, InitFails(proc.id)) && procs[proc.id] == proc
      modifies `initSem, `model, proc`stage, proc`initializeFut, proc`monitored
      ensures Valid() && model == Next(old(model), InitFails(proc.id), 0)
    {
      Release();
      TaskEnds(proc, Failed, true);
    }

    /** The end of `_monitor_process_task`. */
    method MonitorEnds(proc: ProcJobExecutor)
      requires Valid() && Enabled(model, Exits(proc.id)) && procs[proc.id] == proc
      modifies `executors, `model, proc`stage, proc`initializeFut, proc`monitored
      ensures Valid() && model == Next(old(model), Exits(proc.id), 0)
    {
      RemoveExecutor(proc);
      CountUpdate(model.procs, proc.id, model.procs[proc.id].(monitored := false), Spawning);
      Become(proc, proc.stage, proc.initializeFut, false);
    }

    /** One round of `_main_task`. */
    method MainRound()
      requires Valid()
      modifies `spawnTasks, `model
      ensures Valid() && model == Next(old(model), Tick, defaultNumIdle)
    {
      if closed {
        return;
      }
      var currentPending := |warmedProcQueue| + spawnTasks;
      var toSpawn := Min(targetIdle, defaultNumIdle) - currentPending;
      for i := 0 to if toSpawn < 0 then 0 else toSpawn
        invariant model == old(model) && spawnTasks == old(spawnTasks) + i
      {
        spawnTasks := spawnTasks + 1;
      }
      model := Next(model, Tick, defaultNumIdle);
    }
  }

  // ----- the list of executors

  /** `list.remove`. */
  function RemoveFirst(list: seq<ProcJobExecutor>, proc: ProcJobExecutor): seq<ProcJobExecutor> {
    if list == [] then [] else if list[0] == proc then list[1..] else [list[0]] + RemoveFirst(list[1..], proc)
  }

  lemma {:induction false} Removal(procs: seq<ProcJobExecutor>, list: seq<ProcJobExecutor>, proc: ProcJobExecutor)
    requires AllListed(procs, list)
    requires proc.id < |procs| && procs[proc.id] == proc
    ensures IdsOf(RemoveFirst(list, proc)) == Remove(IdsOf(list), proc.id)
    ensures AllListed(procs, RemoveFirst(list, proc))
  {
    if list != [] {
      assert IdsOf(list) == [list[0].id] + IdsOf(list[1..]);
      assert list == [list[0]] + list[1..];
      Removal(procs, list[1..], proc);
      assert IdsOf([list[0]] + RemoveFirst(list[1..], proc)) == [list[0].id] + IdsOf(RemoveFirst(list[1..], proc));
    }
  }
}
