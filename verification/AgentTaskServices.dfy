/**
 The assembly and load-test services over the task store and the runners. Each command is shown here
 without interruption, and to be a run of the steps of `AgentTasks`.
 */
module AgentTaskServices {
  import opened Wrappers
  import opened AgentTasks
  import opened BuildSupersession

  function RunningAssemblies(tasks: Tasks): set<Key> {
    set key | key in tasks && key.kind.Build? && IsRunning(tasks[key])
  }

  /** All running assemblies but those that are left have been canceled. */
  ghost function Stopped(tasks: Tasks, left: set<Key>, now: int): Tasks {
    EndAll(tasks, RunningAssemblies(tasks) - left, Canceled, now)
  }

  lemma StopOneMore(tasks: Tasks, left: set<Key>, key: Key, now: int)
    requires key in left && left <= RunningAssemblies(tasks)
    ensures EndIfRunning(Stopped(tasks, left, now), key, Canceled, now) == Stopped(tasks, left - {key}, now)
  {
    var running := RunningAssemblies(tasks);
    assert running - (left - {key}) == running - left + {key};
  }

  /** What stopping makes of a stored task: a running assembly is canceled now, anything else is kept. */
  ghost predicate IsStopped(task: Task, key: Key, after: Task, now: int) {
    if key.kind == Build && task.state in {Started, Restarted, StartedOnResource, Working}
    then after == task.(state := Canceled, endTimeStamp := Some(now))
    else after == task
  }

  lemma StoppedEnds(tasks: Tasks, now: int)
    ensures Stopped(tasks, RunningAssemblies(tasks), now) == tasks
    ensures Stopped(tasks, {}, now) == EndAll(tasks, RunningAssemblies(tasks), Canceled, now)
    ensures (forall key :: key in tasks ==> tasks[key].key == key) ==>
              forall key :: key in tasks ==> IsStopped(tasks[key], key, Stopped(tasks, {}, now)[key], now)
  {
    var running := RunningAssemblies(tasks);
    assert running - running == {} && running - {} == running;
  }

  ghost predicate IsRun(s: System, steps: seq<Step>, t: System) {
    Runs(s, steps) && After(s, steps) == t
  }

  lemma CancelRun(s: System, steps: seq<Step>, t: System, key: Key, now: int)
    requires IsRun(s, steps, t)
    ensures IsRun(s, steps + [Cancel(key, now)], t.(tasks := EndIfRunning(t.tasks, key, Canceled, now)))
  {
    RunsSnoc(s, steps, Cancel(key, now));
  }

  lemma DeleteRun(s: System, steps: seq<Step>, t: System, key: Key)
    requires IsRun(s, steps, t)
    ensures IsRun(s, steps + [Delete(key)], t.(tasks := t.tasks - {key}))
  {
    RunsSnoc(s, steps, Delete(key));
  }

  /** Read, cancellation and put one after the other. */
  lemma RebuildIsRun(s: System, key: Key, now: int, logId: int) returns (steps: seq<Step>)
    requires s.rebuilds == map[] && key in s.tasks && key.kind.Build? && s.tasks[key].key == key
    ensures IsRun(s, steps, Launch(s, Restart(s.tasks[key], now, logId)))
  {
    steps := [ReadRebuild(0, key)];
    RunsSnoc(s, [], steps[0]);
    assert [] + steps == steps;
    if IsRunning(s.tasks[key]) {
      RunsSnoc(s, steps, CancelRebuilt(0, now));
      steps := steps + [CancelRebuilt(0, now)];
    }
    var t := After(s, steps);
    assert t.rebuilds - {0} == map[];
    RunsSnoc(s, steps, PutRebuilt(0, now, logId));
    steps := steps + [PutRebuilt(0, now, logId)];
  }

  datatype TaskError = TaskDoesNotExist(key: Key)

  class TaskService {
    var tasks: Tasks
    var runners: map<nat, Runner>
    var nextRunner: nat
    var nextId: int

    ghost function View(): System
      reads this
    {
      System(tasks, runners, nextRunner, nextId, map[], map[])
    }

    constructor ()
      ensures View() == EMPTY
    {
      tasks, runners, nextRunner, nextId := map[], map[], 0, 0;
    }

    // the writes of the callbacks

    method UpdateTask(task: Task)
      modifies this`tasks
      ensures tasks == PutIfRunning(old(tasks), task)
    {
      if task.key in tasks {
        if IsRunning(tasks[task.key]) {
          tasks := tasks[task.key := task];
        }
      }
    }

    method EndTask(key: Key, state: State, now: int)
      modifies this`tasks
      ensures tasks == EndIfRunning(old(tasks), key, state, now)
    {
      if key in tasks {
        var task := tasks[key];
        if IsRunning(task) {
          tasks := tasks[key := task.(endTimeStamp := Some(now), state := state)];
        }
      }
    }

    // commands

    method LaunchTask(task: Task)
      modifies this`tasks, this`runners, this`nextRunner
      ensures View() == Launch(old(View()), task)
    {
      tasks := tasks[task.key := task];
      runners := runners[nextRunner := Runner(task, Queued)];
      nextRunner := nextRunner + 1;
    }

    method CancelTask(key: Key, now: int) returns (r: Result<Task, TaskError>)
      modifies this
      ensures View() == Next(old(View()), Cancel(key, now))
      ensures r == if key in old(tasks) then Success(tasks[key]) else Failure(TaskDoesNotExist(key))
    {
      if key !in tasks {
        return Failure(TaskDoesNotExist(key));
      }
      EndTask(key, Canceled, now);
      r := Success(tasks[key]);
    }

    method CancelSuperseded(scope: Scope, now: int)
      modifies this`tasks
      ensures tasks == EndAll(old(tasks), Superseded(old(tasks), scope), Canceled, now)
    {
      ghost var before := tasks;
      ghost var superseded := Superseded(tasks, scope);
      var victims := Superseded(tasks, scope);
      while exists key :: key in victims
        invariant victims <= superseded
        invariant tasks == EndAll(before, superseded - victims, Canceled, now)
        decreases |victims|
      {
        var key :| key in victims;
        EndTask(key, Canceled, now);
        victims := victims - {key};
      }
      assert victims == {} && superseded - victims == superseded;
    }

    /** The whole build command: cancel what it supersedes, then store and launch the new assembly. */
    method BuildProject(scope: Scope, now: int, logId: int) returns (assembly: Task)
      requires Sound(View())
      modifies this
      ensures View() == AtomicBuild(old(View()), scope, now, logId)
      ensures Sound(View()) && (NoneSuperseded(old(tasks)) ==> NoneSuperseded(tasks))
      ensures assembly == Task(Key(Build, old(nextId)), scope, Started, now, None, logId, {})
      ensures assembly.key in tasks && tasks[assembly.key] == assembly
      ensures forall key :: key in old(tasks) ==>
                && key in tasks
                && (tasks[key] != old(tasks)[key] ==>
                      && tasks[key] == old(tasks)[key].(state := Canceled, endTimeStamp := Some(now))
                      && key.kind == Build
                      && old(tasks)[key].scope.projectId == scope.projectId
                      && old(tasks)[key].scope.version == scope.version
                      && old(tasks)[key].scope.configurations <= scope.configurations)
    {
      forall key ensures key in tasks ==> key in AtomicBuild(View(), scope, now, logId).tasks {
        BuildWrites(View(), scope, now, logId, key);
      }
      AtomicBuildKeeps(View(), 0, scope, now, logId);
      CancelSuperseded(scope, now);
      assembly := Task(Key(Build, nextId), scope, Started, now, None, logId, {});
      nextId := nextId + 1;
      LaunchTask(assembly);
    }

    method RebuildProject(key: Key, now: int, logId: int) returns (r: Result<(), TaskError>)
      requires key.kind.Build? && Sound(View())
      modifies this
      ensures r == if key in old(tasks) then Success(()) else Failure(TaskDoesNotExist(key))
      ensures View() == if key in old(tasks) then Launch(old(View()), Restart(old(tasks)[key], now, logId)) else old(View())
      ensures exists steps :: IsRun(old(View()), steps, View())
    {
      if key !in tasks {
        assert IsRun(View(), [], View());
        return Failure(TaskDoesNotExist(key));
      }
      ghost var before := View();
      ghost var steps := RebuildIsRun(before, key, now, logId);
      var assembly := tasks[key];
      if IsRunning(assembly) {
        EndTask(key, Canceled, now);
      }
      LaunchTask(Restart(assembly, now, logId));
      assert View() == Launch(before, Restart(assembly, now, logId));
      r := Success(());
    }

    method DeleteTask(key: Key) returns (r: Result<(), TaskError>)
      modifies this
      ensures View() == Next(old(View()), Delete(key))
      ensures r == if key in old(tasks) then Success(()) else Failure(TaskDoesNotExist(key))
    {
      r := if key in tasks then Success(()) else Failure(TaskDoesNotExist(key));
      tasks := tasks - {key};
    }

    /** Every assembly of the project is canceled, then deleted. */
    method DeleteProjectAssemblies(projectId: int, now: int) returns (ghost steps: seq<Step>)
      modifies this
      ensures View() == old(View()).(tasks := old(tasks) - ProjectAssemblies(old(tasks), projectId))
      ensures forall key :: key in tasks <==>
                key in old(tasks) && !(key.kind == Build && old(tasks)[key].scope.projectId == projectId)
      ensures forall key :: key in tasks ==> tasks[key] == old(tasks)[key]
      ensures IsRun(old(View()), steps, View())
      ensures forall key :: key in ProjectAssemblies(old(tasks), projectId) ==> Delete(key) in steps
      ensures forall step | step in steps :: step.Cancel? || step.Delete?
    {
      ghost var before := View();
      ghost var doomed := ProjectAssemblies(tasks, projectId);
      var left := ProjectAssemblies(tasks, projectId);
      steps := [];
      while exists key :: key in left
        invariant left <= doomed
        invariant tasks == before.tasks - (doomed - left)
        invariant View() == before.(tasks := tasks)
        invariant IsRun(before, steps, View())
        invariant forall key :: key in doomed - left ==> Delete(key) in steps
        invariant forall step | step in steps :: step.Cancel? || step.Delete?
        decreases |left|
      {
        var key :| key in left;
        CancelRun(before, steps, View(), key, now);
        EndTask(key, Canceled, now);
        DeleteRun(before, steps + [Cancel(key, now)], View(), key);
        tasks := tasks - {key};
        left := left - {key};
        steps := steps + [Cancel(key, now)] + [Delete(key)];
      }
      assert left == {} && doomed - left == doomed;
    }

    method StopRunningAssemblies(now: int) returns (ghost steps: seq<Step>)
      modifies this
      ensures View() == old(View()).(tasks := EndAll(old(tasks), RunningAssemblies(old(tasks)), Canceled, now))
      ensures Sound(old(View())) ==>
                forall key :: key in old(tasks) ==> key in tasks && IsStopped(old(tasks)[key], key, tasks[key], now)
      ensures IsRun(old(View()), steps, View())
      ensures forall step | step in steps :: step.Cancel?
    {
      ghost var before := View();
      var left := RunningAssemblies(tasks);
      StoppedEnds(tasks, now);
      steps := [];
      while exists key :: key in left
        invariant left <= RunningAssemblies(before.tasks)
        invariant View() == before.(tasks := Stopped(before.tasks, left, now))
        invariant IsRun(before, steps, View())
        invariant forall step | step in steps :: step.Cancel?
        decreases |left|
      {
        var key :| key in left;
        StopOneMore(before.tasks, left, key, now);
        CancelRun(before, steps, View(), key, now);
        EndTask(key, Canceled, now);
        left := left - {key};
        steps := steps + [Cancel(key, now)];
      }
      assert left == {};
    }

    // a runner

    /** Each of the two cancellation checks before the agent is connected; a missing task throws. */
    method CheckRunner(r: nat) returns (goesOn: bool)
      requires Enabled(View(), CheckCanceled(r))
      modifies this
      ensures View() == Next(old(View()), CheckCanceled(r))
      ensures goesOn <==> r in runners
    {
      var runner := runners[r];
      goesOn := false;
      if runner.captured.key in tasks {
        goesOn := tasks[runner.captured.key].state != Canceled;
      }
      runners := if goesOn then runners[r := runner.(phase := if runner.phase.Queued? then Starting else Connecting)]
                 else runners - {r};
    }

    method ConnectRunner(r: nat)
      requires Enabled(View(), Connect(r))
      modifies this
      ensures View() == Next(old(View()), Connect(r))
    {
      var runner := runners[r];
      UpdateTask(runner.captured.(state := StartedOnResource));
      runners := runners[r := runner.(phase := Streaming)];
    }

    method OnEvent(r: nat, payload: Task, now: int)
      requires Enabled(View(), Deliver(r, payload, now))
      modifies this
      ensures View() == Next(old(View()), Deliver(r, payload, now))
    {
      var key := runners[r].captured.key;
      if key in tasks && IsRunning(tasks[key]) {
        if !SameForEvent(payload, tasks[key]) {
          tasks := tasks[payload.key := payload.(state := Working, endTimeStamp := Some(now))];
        }
      }
    }

    method OnComplete(r: nat, now: int)
      requires Enabled(View(), Complete(r, now))
      modifies this
      ensures View() == Next(old(View()), Complete(r, now))
    {
      EndTask(runners[r].captured.key, Done, now);
      runners := runners - {r};
    }

    method OnError(r: nat, now: int)
      requires Enabled(View(), Fail(r, now))
      modifies this
      ensures View() == Next(old(View()), Fail(r, now))
    {
      EndTask(runners[r].captured.key, Failed, now);
      runners := runners - {r};
    }
  }
}
