/**
 Assemblies and load tests, the two kinds of task that run on a remote agent.

 A command stores a task as started and launches a runner. The runner checks twice that the task is
 not canceled, connects, and then streams events until completion or error; users cancel, rebuild and
 delete meanwhile. Every callback writes only while the stored task is running.

 `System` is everything between two steps, and a command with several writes is several steps. A build
 scans for the running builds it supersedes, cancels each of them and puts the new one. A rebuild reads
 the assembly, cancels it if it read it running, and puts what it read as restarted, whatever is stored
 by then. Stopping all assemblies, or deleting those of a project, is a run of cancellations and deletions.
 */
module AgentTasks {
  import opened Wrappers

  datatype Kind = Build | LoadTest

  datatype Key = Key(kind: Kind, id: int)

  /** Of an assembly: STARTED, RESTARTED, STARTED_ON_RESOURCE, BUILDING, DONE, FAILED, CANCELED. */
  datatype State = Started | Restarted | StartedOnResource | Working | Done | Failed | Canceled

  /** What a task is about. A load test has no artifact configurations. */
  datatype Scope = Scope(projectId: int, version: string, configurations: set<int>)

  datatype Task = Task(
    key: Key, scope: Scope, state: State, startTimeStamp: int, endTimeStamp: Option<int>, logId: int, artifacts: set<int>)

  type Tasks = map<Key, Task>

  datatype Phase = Queued | Starting | Connecting | Streaming

  /** The asynchronous part of a task, with the task it captured. */
  datatype Runner = Runner(captured: Task, phase: Phase)

  /** A build between its scan and its put, with the builds it still has to cancel. */
  datatype BuildCommand = BuildCommand(scope: Scope, victims: set<Key>)

  /** A rebuild between its read and its put; it cancels what it read running. */
  datatype RebuildCommand = RebuildCommand(captured: Task, canceling: bool)

  datatype System = System(
    tasks: Tasks,
    runners: map<nat, Runner>,
    nextRunner: nat,
    nextId: int,
    builds: map<nat, BuildCommand>,
    rebuilds: map<nat, RebuildCommand>)

  datatype Step =
    // commands
    | ScanBuild(build: nat, scope: Scope)
    | CancelVictim(build: nat, key: Key, now: int)
    | PutBuild(build: nat, now: int, logId: int)
    | StartLoadTest(scope: Scope, now: int, logId: int)
    | Cancel(key: Key, now: int)
    | ReadRebuild(rebuild: nat, key: Key)
    | CancelRebuilt(rebuild: nat, now: int)
    | PutRebuilt(rebuild: nat, now: int, logId: int)
    | Delete(key: Key)
    // callbacks of the runner with a number
    | CheckCanceled(runner: nat)
    | Connect(runner: nat)
    | Deliver(runner: nat, payload: Task, now: int)
    | Complete(runner: nat, now: int)
    | Fail(runner: nat, now: int)
    | Dispose(runner: nat)

  predicate RunningState(kind: Kind, state: State) {
    match kind
    case Build => state.Started? || state.Restarted? || state.Working? || state.StartedOnResource?
    case LoadTest => state.Started? || state.Working? || state.StartedOnResource?
  }

  predicate IsRunning(task: Task) {
    RunningState(task.key.kind, task.state)
  }

  predicate Running(tasks: Tasks, key: Key) {
    key in tasks && IsRunning(tasks[key])
  }

  // ----- the writes

  /** Equality of assemblies leaves artifacts and artifact configurations out; that of load tests is full. */
  predicate SameForEvent(a: Task, b: Task) {
    && a.key == b.key && a.scope.projectId == b.scope.projectId && a.scope.version == b.scope.version
    && a.state == b.state && a.startTimeStamp == b.startTimeStamp && a.endTimeStamp == b.endTimeStamp
    && a.logId == b.logId
    && (a.key.kind.LoadTest? ==> a.artifacts == b.artifacts && a.scope.configurations == b.scope.configurations)
  }

  function PutIfRunning(tasks: Tasks, task: Task): Tasks {
    if Running(tasks, task.key) then tasks[task.key := task] else tasks
  }

  /** `updateAssembly(event)`. */
  function PutEvent(tasks: Tasks, key: Key, payload: Task, now: int): Tasks {
    if Running(tasks, key) && !SameForEvent(payload, tasks[key])
    then tasks[payload.key := payload.(state := Working, endTimeStamp := Some(now))]
    else tasks
  }

  /** Cancellation, completion and failure differ in the state they end in. */
  function EndIfRunning(tasks: Tasks, key: Key, state: State, now: int): Tasks {
    if Running(tasks, key) then tasks[key := tasks[key].(state := state, endTimeStamp := Some(now))] else tasks
  }

  function EndAll(tasks: Tasks, keys: set<Key>, state: State, now: int): Tasks {
    map key | key in tasks ::
      if key in keys && IsRunning(tasks[key]) then tasks[key].(state := state, endTimeStamp := Some(now)) else tasks[key]
  }

  // ----- steps

  /** The running builds of the same project and version whose configurations are all among these. */
  predicate Supersedes(scope: Scope, task: Task) {
    && task.key.kind.Build? && IsRunning(task)
    && task.scope.version == scope.version && task.scope.projectId == scope.projectId
    && task.scope.configurations <= scope.configurations
  }

  function Superseded(tasks: Tasks, scope: Scope): set<Key> {
    set key | key in tasks && Supersedes(scope, tasks[key])
  }

  function Launch(s: System, task: Task): System {
    s.(tasks := s.tasks[task.key := task],
       runners := s.runners[s.nextRunner := Runner(task, Queued)],
       nextRunner := s.nextRunner + 1)
  }

  function Create(s: System, kind: Kind, scope: Scope, now: int, logId: int): System {
    Launch(s.(nextId := s.nextId + 1), Task(Key(kind, s.nextId), scope, Started, now, None, logId, {}))
  }

  predicate Enabled(s: System, step: Step) {
    match step
    case ScanBuild(b, _) => b !in s.builds
    case CancelVictim(b, key, _) => b in s.builds && key in s.builds[b].victims
    case PutBuild(b, _, _) => b in s.builds && s.builds[b].victims == {}
    case ReadRebuild(b, key) => b !in s.rebuilds && key.kind.Build?
    case CancelRebuilt(b, _) => b in s.rebuilds && s.rebuilds[b].canceling
    case PutRebuilt(b, _, _) => b in s.rebuilds && !s.rebuilds[b].canceling
    case CheckCanceled(r) => r in s.runners && (s.runners[r].phase.Queued? || s.runners[r].phase.Starting?)
    case Connect(r) => r in s.runners && s.runners[r].phase.Connecting?
    case Deliver(r, payload, _) =>
      && r in s.runners && s.runners[r].phase.Streaming?
      && payload.key == s.runners[r].captured.key && payload.scope == s.runners[r].captured.scope
    case Complete(r, _) => r in s.runners && s.runners[r].phase.Streaming?
    case Fail(r, _) => r in s.runners
    case Dispose(r) => r in s.runners
    case _ => true
  }

  function Restart(task: Task, now: int, logId: int): Task {
    task.(startTimeStamp := now, state := Restarted, logId := logId, artifacts := {})
  }

  /** A command on a missing task throws: it changes nothing, and what it was part of is abandoned. */
  function Next(s: System, step: Step): System
    requires Enabled(s, step)
  {
    match step
    case ScanBuild(b, scope) => s.(builds := s.builds[b := BuildCommand(scope, Superseded(s.tasks, scope))])
    case CancelVictim(b, key, now) =>
      if key !in s.tasks then s.(builds := s.builds - {b})
      else s.(tasks := EndIfRunning(s.tasks, key, Canceled, now),
              builds := s.builds[b := s.builds[b].(victims := s.builds[b].victims - {key})])
    case PutBuild(b, now, logId) => Create(s.(builds := s.builds - {b}), Build, s.builds[b].scope, now, logId)
    case StartLoadTest(scope, now, logId) => Create(s, LoadTest, scope, now, logId)
    case Cancel(key, now) => s.(tasks := EndIfRunning(s.tasks, key, Canceled, now))
    case ReadRebuild(b, key) =>
      if key !in s.tasks then s
      else s.(rebuilds := s.rebuilds[b := RebuildCommand(s.tasks[key], IsRunning(s.tasks[key]))])
    case CancelRebuilt(b, now) =>
      var key := s.rebuilds[b].captured.key;
      if key !in s.tasks then s.(rebuilds := s.rebuilds - {b})
      else s.(tasks := EndIfRunning(s.tasks, key, Canceled, now),
              rebuilds := s.rebuilds[b := s.rebuilds[b].(canceling := false)])
    case PutRebuilt(b, now, logId) =>
      Launch(s.(rebuilds := s.rebuilds - {b}), Restart(s.rebuilds[b].captured, now, logId))
    case Delete(key) => s.(tasks := s.tasks - {key})
    case CheckCanceled(r) =>
      var runner := s.runners[r];
      if runner.captured.key !in s.tasks || s.tasks[runner.captured.key].state.Canceled? then s.(runners := s.runners - {r})
      else s.(runners := s.runners[r := runner.(phase := if runner.phase.Queued? then Starting else Connecting)])
    case Connect(r) =>
      var runner := s.runners[r];
      s.(tasks := PutIfRunning(s.tasks, runner.captured.(state := StartedOnResource)),
         runners := s.runners[r := runner.(phase := Streaming)])
    case Deliver(r, payload, now) => s.(tasks := PutEvent(s.tasks, s.runners[r].captured.key, payload, now))
    case Complete(r, now) =>
      s.(tasks := EndIfRunning(s.tasks, s.runners[r].captured.key, Done, now), runners := s.runners - {r})
    case Fail(r, now) =>
      s.(tasks := EndIfRunning(s.tasks, s.runners[r].captured.key, Failed, now), runners := s.runners - {r})
    case Dispose(r) => s.(runners := s.runners - {r})
  }

  predicate Runs(s: System, steps: seq<Step>)
    decreases |steps|
  {
    |steps| == 0 || (Enabled(s, steps[0]) && Runs(Next(s, steps[0]), steps[1..]))
  }

  function After(s: System, steps: seq<Step>): System
    requires Runs(s, steps)
    decreases |steps|
  {
    if |steps| == 0 then s else After(Next(s, steps[0]), steps[1..])
  }

  predicate IsCallback(step: Step) {
    step.CheckCanceled? || step.Connect? || step.Deliver? || step.Complete? || step.Fail? || step.Dispose?
  }

  /** Running `first`, then `second` from where it ended. */
  lemma {:induction false} RunsConcat(s: System, first: seq<Step>, second: seq<Step>)
    requires Runs(s, first) && Runs(After(s, first), second)
    ensures Runs(s, first + second) && After(s, first + second) == After(After(s, first), second)
    decreases |first|
  {
    if |first| == 0 {
      assert first + second == second;
    } else {
      RunsConcat(Next(s, first[0]), first[1..], second);
      assert (first + second)[1..] == first[1..] + second;
    }
  }

  lemma RunsSnoc(s: System, steps: seq<Step>, step: Step)
    requires Runs(s, steps) && Enabled(After(s, steps), step)
    ensures Runs(s, steps + [step]) && After(s, steps + [step]) == Next(After(s, steps), step)
  {
    RunsConcat(s, steps, [step]);
  }

  const EMPTY := System(map[], map[], 0, 0, map[], map[])

  // ----- soundness of the store

  ghost predicate TasksSound(s: System) {
    forall key :: key in s.tasks ==> s.tasks[key].key == key && key.id < s.nextId
  }

  ghost predicate RunnersSound(s: System) {
    forall r :: r in s.runners ==> r < s.nextRunner && s.runners[r].captured.key.id < s.nextId
  }

  ghost predicate VictimsSound(s: System) {
    forall b, key :: b in s.builds && key in s.builds[b].victims ==> key.id < s.nextId
  }

  ghost predicate RebuildsSound(s: System) {
    forall b :: b in s.rebuilds ==>
      s.rebuilds[b].captured.key.id < s.nextId && s.rebuilds[b].captured.key.kind.Build?
  }

  /** Tasks are stored under their keys, and every id and number in use was given out. */
  ghost predicate KeysSound(s: System) {
    TasksSound(s) && RunnersSound(s) && VictimsSound(s) && RebuildsSound(s)
  }

  /** The task is known with this scope: stored, or captured by a runner or a rebuild. */
  ghost predicate Mentions(s: System, key: Key, scope: Scope) {
    || (key in s.tasks && s.tasks[key].scope == scope)
    || (exists r :: r in s.runners && s.runners[r].captured.key == key && s.runners[r].captured.scope == scope)
    || (exists b :: b in s.rebuilds && s.rebuilds[b].captured.key == key && s.rebuilds[b].captured.scope == scope)
  }

  /** A task is known with one scope only. */
  ghost predicate ScopesKept(s: System) {
    forall key, a, b :: Mentions(s, key, a) && Mentions(s, key, b) ==> a == b
  }

  ghost predicate Sound(s: System) {
    KeysSound(s) && ScopesKept(s)
  }

  lemma MentionedIsOld(s: System, key: Key, scope: Scope)
    requires KeysSound(s) && Mentions(s, key, scope)
    ensures key.id < s.nextId
  {
  }

  lemma CallbackKeepsTask(s: System, step: Step, key: Key)
    requires TasksSound(s) && Enabled(s, step) && IsCallback(step) && key in Next(s, step).tasks
    ensures Next(s, step).tasks[key].key == key && key.id < Next(s, step).nextId
  {
  }

  lemma CommandKeepsTask(s: System, step: Step, key: Key)
    requires TasksSound(s) && RebuildsSound(s) && Enabled(s, step) && !IsCallback(step) && key in Next(s, step).tasks
    ensures Next(s, step).tasks[key].key == key && key.id < Next(s, step).nextId
  {
  }

  /** A runner keeps what it captured, or is launched for the task as it is put. */
  lemma NextKeepsCaptured(s: System, step: Step, r: nat)
    requires Enabled(s, step) && r in Next(s, step).runners
    ensures var captured := Next(s, step).runners[r].captured;
            || (r in s.runners && captured == s.runners[r].captured)
            || (r == s.nextRunner && captured.key in Next(s, step).tasks && captured == Next(s, step).tasks[captured.key])
  {
  }

  lemma NextKeepsVictimIds(s: System, step: Step)
    requires TasksSound(s) && VictimsSound(s) && Enabled(s, step)
    ensures VictimsSound(Next(s, step))
  {
  }

  lemma NextKeepsRebuilds(s: System, step: Step)
    requires TasksSound(s) && RebuildsSound(s) && Enabled(s, step)
    ensures RebuildsSound(Next(s, step))
  {
  }

  lemma NextKeepsRunners(s: System, step: Step)
    requires TasksSound(s) && RunnersSound(s) && RebuildsSound(s) && Enabled(s, step)
    ensures RunnersSound(Next(s, step))
  {
  }

  lemma NextKeepsKeys(s: System, step: Step)
    requires KeysSound(s) && Enabled(s, step)
    ensures KeysSound(Next(s, step))
    ensures Next(s, step).nextId >= s.nextId && Next(s, step).nextRunner >= s.nextRunner
  {
    var t := Next(s, step);
    assert t.nextId >= s.nextId && t.nextRunner >= s.nextRunner;
    forall key | key in t.tasks ensures t.tasks[key].key == key && key.id < t.nextId {
      if IsCallback(step) {
        CallbackKeepsTask(s, step, key);
      } else {
        CommandKeepsTask(s, step, key);
      }
    }
    NextKeepsRunners(s, step);
    NextKeepsVictimIds(s, step);
    NextKeepsRebuilds(s, step);
  }

  /** The scope of the task a step creates. */
  ghost function CreatedScope(s: System, step: Step): Option<Scope>
    requires Enabled(s, step)
  {
    match step
    case PutBuild(b, _, _) => Some(s.builds[b].scope)
    case StartLoadTest(scope, _, _) => Some(scope)
    case _ => None
  }

  lemma CallbackMentionsTask(s: System, step: Step, key: Key)
    requires TasksSound(s) && Enabled(s, step) && IsCallback(step) && key in Next(s, step).tasks
    ensures Mentions(s, key, Next(s, step).tasks[key].scope)
  {
    var task := Next(s, step).tasks[key];
    if key !in s.tasks || task.scope != s.tasks[key].scope {
      assert s.runners[step.runner].captured.key == key && s.runners[step.runner].captured.scope == task.scope;
    }
  }

  lemma CommandMentionsTask(s: System, step: Step, key: Key)
    requires TasksSound(s) && Enabled(s, step) && !IsCallback(step) && key in Next(s, step).tasks
    ensures var scope := Next(s, step).tasks[key].scope;
            Mentions(s, key, scope) || (key.id == s.nextId && CreatedScope(s, step) == Some(scope))
  {
    if PutsRebuilt(s, step, key) {
      assert s.rebuilds[step.rebuild].captured.scope == Next(s, step).tasks[key].scope;
    } else {
      assert key in s.tasks ==> Next(s, step).tasks[key].scope == s.tasks[key].scope;
    }
  }

  /** A stored task was known with its scope, or is created. */
  lemma NextMentionsTask(s: System, step: Step, key: Key)
    requires KeysSound(s) && Enabled(s, step) && key in Next(s, step).tasks
    ensures var scope := Next(s, step).tasks[key].scope;
            Mentions(s, key, scope) || (key.id == s.nextId && CreatedScope(s, step) == Some(scope))
  {
    if IsCallback(step) {
      CallbackMentionsTask(s, step, key);
    } else {
      CommandMentionsTask(s, step, key);
    }
  }

  lemma NextMentionsRebuild(s: System, step: Step, b: nat)
    requires TasksSound(s) && Enabled(s, step) && b in Next(s, step).rebuilds
    ensures var captured := Next(s, step).rebuilds[b].captured; Mentions(s, captured.key, captured.scope)
  {
  }

  /** No step makes a task known with a scope, except that it creates it. */
  lemma NextMentions(s: System, step: Step, key: Key, scope: Scope)
    requires KeysSound(s) && Enabled(s, step) && Mentions(Next(s, step), key, scope)
    ensures Mentions(s, key, scope) || (key.id == s.nextId && CreatedScope(s, step) == Some(scope))
  {
    var t := Next(s, step);
    if key in t.tasks && t.tasks[key].scope == scope {
      NextMentionsTask(s, step, key);
    } else if b :| b in t.rebuilds && t.rebuilds[b].captured.key == key && t.rebuilds[b].captured.scope == scope {
      NextMentionsRebuild(s, step, b);
    } else {
      var r :| r in t.runners && t.runners[r].captured.key == key && t.runners[r].captured.scope == scope;
      NextKeepsCaptured(s, step, r);
      assert r in s.runners && t.runners[r].captured == s.runners[r].captured;
    }
  }

  lemma NextKeepsSound(s: System, step: Step)
    requires Sound(s) && Enabled(s, step)
    ensures Sound(Next(s, step))
    ensures Next(s, step).nextId >= s.nextId && Next(s, step).nextRunner >= s.nextRunner
  {
    var t := Next(s, step);
    NextKeepsKeys(s, step);
    forall key, a, b | Mentions(t, key, a) && Mentions(t, key, b) ensures a == b {
      NextMentions(s, step, key, a);
      NextMentions(s, step, key, b);
      if Mentions(s, key, a) {
        MentionedIsOld(s, key, a);
      }
      if Mentions(s, key, b) {
        MentionedIsOld(s, key, b);
      }
    }
  }

  lemma {:induction false} RunsKeepSound(s: System, steps: seq<Step>)
    requires Sound(s) && Runs(s, steps)
    ensures Sound(After(s, steps)) && After(s, steps).nextId >= s.nextId
    decreases |steps|
  {
    if |steps| != 0 {
      NextKeepsSound(s, steps[0]);
      RunsKeepSound(Next(s, steps[0]), steps[1..]);
    }
  }

  // ----- what every step writes

  /** The step cancels the task: by command, as the victim of a build, or as the first part of a rebuild. */
  predicate CancelsTask(s: System, step: Step, key: Key) {
    || (step.Cancel? && step.key == key)
    || (step.CancelVictim? && step.key == key)
    || (step.CancelRebuilt? && step.rebuild in s.rebuilds && s.rebuilds[step.rebuild].captured.key == key)
  }

  /** The step puts a rebuild of the task. */
  predicate PutsRebuilt(s: System, step: Step, key: Key) {
    step.PutRebuilt? && step.rebuild in s.rebuilds && s.rebuilds[step.rebuild].captured.key == key
  }

  /** The step is a callback of a runner that captured this task. */
  predicate IsCallbackOf(s: System, step: Step, key: Key) {
    IsCallback(step) && step.runner in s.runners && s.runners[step.runner].captured.key == key
  }

  /** The states from which an end is recorded. */
  predicate CanEnd(task: Task) {
    || task.state.Started? || task.state.StartedOnResource? || task.state.Working?
    || (task.key.kind.Build? && task.state.Restarted?)
  }

  /**
   A stored task becomes DONE exactly by the completion of a runner of it that finds it running, FAILED
   exactly by such an error, and CANCELED exactly by a cancellation that finds it running. Only the state
   and the end time change then.
   */
  lemma EndsAreCaused(s: System, step: Step, key: Key)
    requires TasksSound(s) && Enabled(s, step) && key in s.tasks && key in Next(s, step).tasks
    ensures var task, after := s.tasks[key], Next(s, step).tasks[key];
            && ((task.state != Done && after.state == Done) <==>
                  step.Complete? && IsCallbackOf(s, step, key) && CanEnd(task))
            && ((task.state != Failed && after.state == Failed) <==>
                  step.Fail? && IsCallbackOf(s, step, key) && CanEnd(task))
            && ((task.state != Canceled && after.state == Canceled) <==>
                  CancelsTask(s, step, key) && CanEnd(task))
  {
    if IsCallback(step) {
      CallbackEnds(s, step, key);
    } else {
      CommandEnds(s, step, key);
    }
  }

  lemma CallbackEnds(s: System, step: Step, key: Key)
    requires TasksSound(s) && Enabled(s, step) && IsCallback(step) && key in s.tasks
    ensures key in Next(s, step).tasks
    ensures var task, after := s.tasks[key], Next(s, step).tasks[key];
            && (step.Complete? && IsCallbackOf(s, step, key) && CanEnd(task) ==>
                  after == task.(state := Done, endTimeStamp := Some(step.now)))
            && (step.Fail? && IsCallbackOf(s, step, key) && CanEnd(task) ==>
                  after == task.(state := Failed, endTimeStamp := Some(step.now)))
            && (after == task || (IsCallbackOf(s, step, key) && CanEnd(task)
                  && (step.Complete? || step.Fail? || after.state.Working? || after.state.StartedOnResource?)))
  {
  }

  lemma CommandEnds(s: System, step: Step, key: Key)
    requires TasksSound(s) && Enabled(s, step) && !IsCallback(step)
    requires key in s.tasks && key in Next(s, step).tasks
    ensures var task, after := s.tasks[key], Next(s, step).tasks[key];
            && (CancelsTask(s, step, key) && CanEnd(task) ==>
                  after == task.(state := Canceled, endTimeStamp := Some(step.now)))
            && (after == task || (CancelsTask(s, step, key) && CanEnd(task))
                || (PutsRebuilt(s, step, key) && after.state.Restarted?))
  {
  }

  /** What an end changes, and that nothing else is an end. */
  lemma EndsWrite(s: System, step: Step, key: Key)
    requires TasksSound(s) && Enabled(s, step) && key in s.tasks && key in Next(s, step).tasks
    ensures var task, after := s.tasks[key], Next(s, step).tasks[key];
            CanEnd(task) && after.state in {Done, Failed, Canceled} ==>
              && (step.Complete? || step.Fail? || CancelsTask(s, step, key))
              && after == task.(state := after.state, endTimeStamp := Some(step.now))
  {
    if IsCallback(step) {
      CallbackEnds(s, step, key);
    } else {
      CommandEnds(s, step, key);
    }
  }

  /** Connecting and events: exactly what they store, while the task runs. */
  lemma ProgressWrites(s: System, step: Step, key: Key)
    requires TasksSound(s) && Enabled(s, step) && key in s.tasks && IsCallbackOf(s, step, key)
    ensures key in Next(s, step).tasks
    ensures var task, after := s.tasks[key], Next(s, step).tasks[key];
            && (step.Connect? ==>
                  after == if CanEnd(task) then s.runners[step.runner].captured.(state := StartedOnResource) else task)
            && (step.Deliver? ==>
                  after == if CanEnd(task) && !SameForEvent(step.payload, task)
                           then step.payload.(state := Working, endTimeStamp := Some(step.now)) else task)
            && (step.CheckCanceled? || step.Dispose? ==> after == task)
  {
  }

  /** What an event may differ in without being stored: of an assembly, artifacts and configurations. */
  lemma SameUpToArtifacts(a: Task, b: Task)
    requires a.key == b.key
    ensures SameForEvent(a, b) <==>
              if a.key.kind.LoadTest? then a == b
              else a == b.(artifacts := a.artifacts, scope := b.scope.(configurations := a.scope.configurations))
  {
  }

  /** A runner goes on to the next stage exactly if its task is stored and not canceled, else it is gone. */
  lemma CheckWrites(s: System, r: nat)
    requires Enabled(s, CheckCanceled(r))
    ensures var t, runner := Next(s, CheckCanceled(r)), s.runners[r];
            && t.tasks == s.tasks && t.runners - {r} == s.runners - {r}
            && (r in t.runners <==> runner.captured.key in s.tasks && s.tasks[runner.captured.key].state != Canceled)
            && (r in t.runners ==>
                  && t.runners[r].captured == runner.captured
                  && (runner.phase == Queued ==> t.runners[r].phase == Starting)
                  && (runner.phase == Starting ==> t.runners[r].phase == Connecting))
  {
  }

  /** A callback moves its own runner only: connected it streams, ended or disposed of it is gone. */
  lemma RunnerMoves(s: System, step: Step)
    requires Enabled(s, step) && IsCallback(step)
    ensures var t := Next(s, step);
            && t == s.(tasks := t.tasks, runners := t.runners)
            && t.runners - {step.runner} == s.runners - {step.runner}
            && (step.Complete? || step.Fail? || step.Dispose? ==> step.runner !in t.runners)
            && (step.Connect? ==>
                  step.runner in t.runners && t.runners[step.runner] == Runner(s.runners[step.runner].captured, Streaming))
            && (step.Deliver? ==> t.runners == s.runners)
  {
  }

  /** A rebuild keeps what it reads, and is going to cancel it exactly if it reads it running. */
  lemma RebuildReads(s: System, b: nat, key: Key)
    requires TasksSound(s) && Enabled(s, ReadRebuild(b, key))
    ensures var t := Next(s, ReadRebuild(b, key));
            if key !in s.tasks then t == s
            else
              && t == s.(rebuilds := t.rebuilds) && t.rebuilds.Keys == s.rebuilds.Keys + {b}
              && (forall c :: c in s.rebuilds ==> t.rebuilds[c] == s.rebuilds[c])
              && t.rebuilds[b].captured == s.tasks[key]
              && (t.rebuilds[b].canceling <==> CanEnd(s.tasks[key]))
  {
  }

  /** The put of a rebuild: everything as it was read, but restarted now, with a new log and no artifacts. */
  lemma RebuildWrites(s: System, step: Step, key: Key)
    requires Enabled(s, step) && PutsRebuilt(s, step, key)
    ensures key in Next(s, step).tasks
    ensures var read, after := s.rebuilds[step.rebuild].captured, Next(s, step).tasks[key];
            && after.state == Restarted && after.startTimeStamp == step.now && after.logId == step.logId
            && after.artifacts == {}
            && after.key == read.key && after.scope == read.scope && after.endTimeStamp == read.endTimeStamp
            && s.nextRunner in Next(s, step).runners
            && Next(s, step).runners[s.nextRunner] == Runner(after, Queued)
  {
  }

  /** A task that a step creates: started now, not ended, with a queued runner. */
  lemma CreationWrites(s: System, step: Step, key: Key)
    requires TasksSound(s) && Enabled(s, step) && CreatedScope(s, step).Some? && key.id == s.nextId
    requires key in Next(s, step).tasks
    ensures var after := Next(s, step).tasks[key];
            && after == Task(key, CreatedScope(s, step).value, Started, step.now, None, step.logId, {})
            && (key.kind.Build? <==> step.PutBuild?)
            && s.nextRunner in Next(s, step).runners
            && Next(s, step).runners[s.nextRunner] == Runner(after, Queued)
  {
  }

  /** In the run some step ends the task in this way. */
  ghost predicate IsEndedIn(s: System, steps: seq<Step>, key: Key, state: State)
    requires Runs(s, steps)
    decreases |steps|
  {
    |steps| != 0
    && (|| (key in s.tasks && CanEnd(s.tasks[key])
            && match state
               case Done => steps[0].Complete? && IsCallbackOf(s, steps[0], key)
               case Failed => steps[0].Fail? && IsCallbackOf(s, steps[0], key)
               case Canceled => CancelsTask(s, steps[0], key)
               case _ => false)
        || IsEndedIn(Next(s, steps[0]), steps[1..], key, state))
  }

  /** A task that a run leaves DONE, FAILED or CANCELED was so before, or was ended so in the run. */
  lemma {:induction false} EndsHaveCauses(s: System, steps: seq<Step>, key: Key)
    requires Sound(s) && Runs(s, steps)
    requires key in After(s, steps).tasks && After(s, steps).tasks[key].state in {Done, Failed, Canceled}
    ensures var state := After(s, steps).tasks[key].state;
            (key in s.tasks && s.tasks[key].state == state) || IsEndedIn(s, steps, key, state)
    decreases |steps|
  {
    if |steps| != 0 {
      var t, state := Next(s, steps[0]), After(s, steps).tasks[key].state;
      NextKeepsSound(s, steps[0]);
      EndsHaveCauses(t, steps[1..], key);
      if key in t.tasks && t.tasks[key].state == state {
        if key in s.tasks {
          EndsAreCaused(s, steps[0], key);
        } else {
          AppearsRunning(s, steps[0], key);
        }
      }
    }
  }

  lemma AppearsRunning(s: System, step: Step, key: Key)
    requires TasksSound(s) && Enabled(s, step) && key !in s.tasks && key in Next(s, step).tasks
    ensures Next(s, step).tasks[key].state in {Started, Restarted}
  {
  }

  // ----- ended tasks

  ghost predicate NeverPutsRebuilt(s: System, steps: seq<Step>, key: Key)
    requires Runs(s, steps)
    decreases |steps|
  {
    |steps| == 0 || (!PutsRebuilt(s, steps[0], key) && NeverPutsRebuilt(Next(s, steps[0]), steps[1..], key))
  }

  /** Only the put of its rebuild brings an ended task back; every other step leaves it alone or deletes it. */
  lemma NextKeepsEnded(s: System, step: Step, key: Key)
    requires TasksSound(s) && Enabled(s, step) && !PutsRebuilt(s, step, key)
    requires key in s.tasks && !IsRunning(s.tasks[key])
    ensures key in Next(s, step).tasks ==> Next(s, step).tasks[key] == s.tasks[key]
  {
  }

  /** Deleted or never created, and old: only the put of its rebuild brings the task into the store. */
  lemma NextKeepsMissing(s: System, step: Step, key: Key)
    requires TasksSound(s) && Enabled(s, step) && key !in s.tasks && key.id < s.nextId
    ensures key in Next(s, step).tasks <==> PutsRebuilt(s, step, key)
  {
  }

  lemma {:induction false} MissingStaysMissing(s: System, steps: seq<Step>, key: Key)
    requires Sound(s) && Runs(s, steps) && NeverPutsRebuilt(s, steps, key)
    requires key !in s.tasks && key.id < s.nextId
    ensures key !in After(s, steps).tasks
    decreases |steps|
  {
    if |steps| != 0 {
      NextKeepsSound(s, steps[0]);
      NextKeepsMissing(s, steps[0], key);
      MissingStaysMissing(Next(s, steps[0]), steps[1..], key);
    }
  }

  /**
   DONE, FAILED and CANCELED are absorbing: whatever events, completions, errors and cancellations
   arrive, and however late, the task keeps its exact record until it is rebuilt or deleted.
   */
  lemma {:induction false} EndedStaysEnded(s: System, steps: seq<Step>, key: Key)
    requires Sound(s) && Runs(s, steps) && NeverPutsRebuilt(s, steps, key)
    requires key in s.tasks && !IsRunning(s.tasks[key])
    ensures key in After(s, steps).tasks ==> After(s, steps).tasks[key] == s.tasks[key]
    decreases |steps|
  {
    if |steps| != 0 {
      var t := Next(s, steps[0]);
      NextKeepsSound(s, steps[0]);
      NextKeepsEnded(s, steps[0], key);
      if key in t.tasks {
        EndedStaysEnded(t, steps[1..], key);
      } else {
        MissingStaysMissing(t, steps[1..], key);
      }
    }
  }

  function One(b: bool): nat {
    if b then 1 else 0
  }

  /** The step records an end of the task. */
  predicate Ends(s: System, step: Step, key: Key)
    requires Enabled(s, step)
  {
    Running(s.tasks, key) && key in Next(s, step).tasks && !Running(Next(s, step).tasks, key)
  }

  /** The step begins an incarnation of the task. */
  predicate Begins(s: System, step: Step, key: Key)
    requires Enabled(s, step)
  {
    PutsRebuilt(s, step, key) || (key !in s.tasks && key in Next(s, step).tasks)
  }

  function EndCount(s: System, steps: seq<Step>, key: Key): nat
    requires Runs(s, steps)
    decreases |steps|
  {
    if |steps| == 0 then 0 else One(Ends(s, steps[0], key)) + EndCount(Next(s, steps[0]), steps[1..], key)
  }

  function BeginCount(s: System, steps: seq<Step>, key: Key): nat
    requires Runs(s, steps)
    decreases |steps|
  {
    if |steps| == 0 then 0 else One(Begins(s, steps[0], key)) + BeginCount(Next(s, steps[0]), steps[1..], key)
  }

  lemma EndNeedsBegin(s: System, step: Step, key: Key)
    requires Sound(s) && Enabled(s, step)
    ensures One(Ends(s, step, key)) + One(Running(Next(s, step).tasks, key))
              <= One(Running(s.tasks, key)) + One(Begins(s, step, key))
  {
    if key in s.tasks && !IsRunning(s.tasks[key]) && !PutsRebuilt(s, step, key) {
      NextKeepsEnded(s, step, key);
    }
  }

  /** Each incarnation of a task records at most one end: over any run, ends never outnumber beginnings. */
  lemma {:induction false} OneEndPerIncarnation(s: System, steps: seq<Step>, key: Key)
    requires Sound(s) && Runs(s, steps)
    ensures EndCount(s, steps, key) + One(Running(After(s, steps).tasks, key))
              <= One(Running(s.tasks, key)) + BeginCount(s, steps, key)
    decreases |steps|
  {
    if |steps| != 0 {
      EndNeedsBegin(s, steps[0], key);
      NextKeepsSound(s, steps[0]);
      OneEndPerIncarnation(Next(s, steps[0]), steps[1..], key);
    }
  }

  // ----- runners left over from before a rebuild

  /** A runner other than `own` ends the task by completing or failing. */
  ghost predicate EndedByOther(s: System, steps: seq<Step>, key: Key, own: nat)
    requires Runs(s, steps)
    decreases |steps|
  {
    |steps| != 0
    && (|| ((steps[0].Complete? || steps[0].Fail?) && steps[0].runner != own && Ends(s, steps[0], key))
        || EndedByOther(Next(s, steps[0]), steps[1..], key, own))
  }

  /** A run without a rebuild of the task in which another runner ends it. */
  ghost predicate IsStaleEnd(s: System, steps: seq<Step>, key: Key, own: nat) {
    Runs(s, steps) && NeverPutsRebuilt(s, steps, key) && EndedByOther(s, steps, key, own)
  }

  ghost predicate HasRunner(s: System, key: Key) {
    exists r :: r in s.runners && s.runners[r].captured.key == key
  }

  ghost predicate OnlyRunner(s: System, key: Key, own: nat) {
    forall r :: r in s.runners && s.runners[r].captured.key == key ==> r == own
  }

  lemma NextKeepsOnlyRunner(s: System, step: Step, key: Key, own: nat)
    requires Enabled(s, step) && key.id < s.nextId
    requires OnlyRunner(s, key, own) && !PutsRebuilt(s, step, key)
    ensures OnlyRunner(Next(s, step), key, own)
  {
  }

  lemma {:induction false} OwnRunnerEnds(s: System, steps: seq<Step>, key: Key, own: nat)
    requires Sound(s) && Runs(s, steps) && NeverPutsRebuilt(s, steps, key)
    requires OnlyRunner(s, key, own) && key.id < s.nextId
    ensures !EndedByOther(s, steps, key, own)
    decreases |steps|
  {
    if |steps| != 0 {
      NextKeepsSound(s, steps[0]);
      NextKeepsOnlyRunner(s, steps[0], key, own);
      OwnRunnerEnds(Next(s, steps[0]), steps[1..], key, own);
    }
  }

  lemma LeftRunnerEnds(s: System, b: nat, now: int, logId: int, r: nat)
    requires Sound(s) && Enabled(s, PutRebuilt(b, now, logId))
    requires r in s.runners && s.runners[r].captured.key == s.rebuilds[b].captured.key
    ensures var t, key := Next(s, PutRebuilt(b, now, logId)), s.rebuilds[b].captured.key;
            IsStaleEnd(t, [Fail(r, now)], key, s.nextRunner)
  {
    var t := Next(s, PutRebuilt(b, now, logId));
    assert Running(t.tasks, s.rebuilds[b].captured.key) && t.runners[r] == s.runners[r];
    assert [Fail(r, now)][1..] == [];
  }

  /**
   The guard looks at the state only. After a rebuild, some run without another rebuild of the assembly
   lets a runner other than the new one end the new incarnation exactly if a runner was left over.
   */
  lemma StaleRunnerEndsRebuild(s: System, b: nat, now: int, logId: int)
    requires Sound(s) && Enabled(s, PutRebuilt(b, now, logId))
    ensures var t, key := Next(s, PutRebuilt(b, now, logId)), s.rebuilds[b].captured.key;
            (exists steps :: IsStaleEnd(t, steps, key, s.nextRunner)) <==> HasRunner(s, key)
  {
    var t, key := Next(s, PutRebuilt(b, now, logId)), s.rebuilds[b].captured.key;
    NextKeepsSound(s, PutRebuilt(b, now, logId));
    if r :| r in s.runners && s.runners[r].captured.key == key {
      LeftRunnerEnds(s, b, now, logId, r);
    } else {
      assert OnlyRunner(t, key, s.nextRunner);
      forall steps ensures !IsStaleEnd(t, steps, key, s.nextRunner) {
        if Runs(t, steps) && NeverPutsRebuilt(t, steps, key) {
          OwnRunnerEnds(t, steps, key, s.nextRunner);
        }
      }
    }
  }

  /** Such a state is reached: a first build whose runner is still starting while the assembly is rebuilt. */
  lemma StaleRunnerIsReached(scope: Scope, now: int, logId: int) returns (steps: seq<Step>)
    ensures Runs(EMPTY, steps) && Enabled(After(EMPTY, steps), PutRebuilt(0, now, logId))
    ensures After(EMPTY, steps).rebuilds[0].captured.key == Key(Build, 0)
    ensures HasRunner(After(EMPTY, steps), Key(Build, 0)) && Sound(After(EMPTY, steps))
  {
    steps := FirstBuild(scope, now, logId);
    var s := After(EMPTY, steps);
    RunsSnoc(EMPTY, steps, CheckCanceled(0));
    steps := steps + [CheckCanceled(0)];
    RunsSnoc(EMPTY, steps, ReadRebuild(0, Key(Build, 0)));
    steps := steps + [ReadRebuild(0, Key(Build, 0))];
    RunsSnoc(EMPTY, steps, CancelRebuilt(0, now));
    steps := steps + [CancelRebuilt(0, now)];
    RunsKeepSound(EMPTY, steps);
    assert 0 in After(EMPTY, steps).runners;
  }

  /** The run that builds once. */
  lemma FirstBuild(scope: Scope, now: int, logId: int) returns (steps: seq<Step>)
    ensures Runs(EMPTY, steps)
    ensures var task := Task(Key(Build, 0), scope, Started, now, None, logId, {});
            After(EMPTY, steps) == System(map[task.key := task], map[0 := Runner(task, Queued)], 1, 1, map[], map[])
  {
    steps := [ScanBuild(0, scope)];
    var s := Next(EMPTY, steps[0]);
    assert steps[1..] == [] && After(EMPTY, steps) == s;
    assert s.builds[0].victims == {} && s.builds - {0} == map[];
    RunsSnoc(EMPTY, steps, PutBuild(0, now, logId));
    steps := steps + [PutBuild(0, now, logId)];
  }

  // ----- deletion

  /** A callback neither creates nor deletes a task. */
  lemma {:induction false} CallbacksKeepKeys(s: System, steps: seq<Step>)
    requires Runs(s, steps)
    requires forall step | step in steps :: IsCallback(step)
    ensures After(s, steps).tasks.Keys == s.tasks.Keys
    decreases |steps|
  {
    if |steps| != 0 {
      assert steps[0] in steps;
      CallbacksKeepKeys(Next(s, steps[0]), steps[1..]);
    }
  }

  /** A rebuild has read the task and has nothing left to do but put it. */
  ghost predicate PutIsDue(s: System, key: Key) {
    exists b :: b in s.rebuilds && s.rebuilds[b].captured.key == key && !s.rebuilds[b].canceling
  }

  lemma NextKeepsNoPutDue(s: System, step: Step, key: Key)
    requires TasksSound(s) && Enabled(s, step)
    requires key !in s.tasks && !PutIsDue(s, key)
    ensures !PutIsDue(Next(s, step), key)
  {
  }

  lemma NextKeepsDeleted(s: System, step: Step, key: Key)
    requires TasksSound(s) && Enabled(s, step)
    requires key !in s.tasks && key.id < s.nextId && !PutIsDue(s, key)
    ensures key !in Next(s, step).tasks && !PutIsDue(Next(s, step), key)
  {
    NextKeepsMissing(s, step, key);
    assert !PutsRebuilt(s, step, key);
    NextKeepsNoPutDue(s, step, key);
  }

  lemma {:induction false} DeletedStaysDeleted(s: System, steps: seq<Step>, key: Key)
    requires Sound(s) && Runs(s, steps)
    requires key !in s.tasks && key.id < s.nextId && !PutIsDue(s, key)
    ensures key !in After(s, steps).tasks
    decreases |steps|
  {
    if |steps| != 0 {
      NextKeepsSound(s, steps[0]);
      NextKeepsDeleted(s, steps[0], key);
      DeletedStaysDeleted(Next(s, steps[0]), steps[1..], key);
    }
  }

  ghost predicate BringsBack(s: System, steps: seq<Step>, key: Key) {
    Runs(s, steps) && key in After(s, steps).tasks
  }

  /**
   A deleted task comes back in some run of commands and callbacks exactly if, at that moment, a
   rebuild of it is between its cancellation and its put.
   */
  lemma DeletedComesBack(s: System, key: Key)
    requires Sound(s) && key !in s.tasks && key.id < s.nextId
    ensures (exists steps :: BringsBack(s, steps, key)) <==> PutIsDue(s, key)
  {
    if b :| b in s.rebuilds && s.rebuilds[b].captured.key == key && !s.rebuilds[b].canceling {
      RunsSnoc(s, [], PutRebuilt(b, 0, 0));
      assert [] + [PutRebuilt(b, 0, 0)] == [PutRebuilt(b, 0, 0)];
      assert BringsBack(s, [PutRebuilt(b, 0, 0)], key);
    } else {
      forall steps ensures !BringsBack(s, steps, key) {
        if Runs(s, steps) {
          DeletedStaysDeleted(s, steps, key);
        }
      }
    }
  }

  /** Such a state is reached: the assembly is deleted while its rebuild is about to put it. */
  lemma DueRebuildIsReached(scope: Scope, now: int, logId: int) returns (steps: seq<Step>)
    ensures Runs(EMPTY, steps) && Sound(After(EMPTY, steps))
    ensures Delete(Key(Build, 0)) in steps && Key(Build, 0) !in After(EMPTY, steps).tasks
    ensures PutIsDue(After(EMPTY, steps), Key(Build, 0))
  {
    steps := StaleRunnerIsReached(scope, now, logId);
    RunsSnoc(EMPTY, steps, Delete(Key(Build, 0)));
    steps := steps + [Delete(Key(Build, 0))];
    RunsKeepSound(EMPTY, steps);
    assert 0 in After(EMPTY, steps).rebuilds;
  }

  lemma {:induction false} DeletedInRun(s: System, steps: seq<Step>, key: Key)
    requires Sound(s) && Runs(s, steps) && NeverPutsRebuilt(s, steps, key)
    requires Delete(key) in steps && key.id < s.nextId
    ensures key !in After(s, steps).tasks
    decreases |steps|
  {
    NextKeepsSound(s, steps[0]);
    if steps[0] == Delete(key) {
      MissingStaysMissing(Next(s, steps[0]), steps[1..], key);
    } else {
      DeletedInRun(Next(s, steps[0]), steps[1..], key);
    }
  }

  function ProjectAssemblies(tasks: Tasks, projectId: int): set<Key> {
    set key | key in tasks && key.kind.Build? && tasks[key].scope.projectId == projectId
  }

  /**
   Once a project is deleted, by deleting each of its assemblies among whatever else happens, an
   assembly of it is gone for every continuation, unless its rebuild is put meanwhile or is due.
   */
  lemma DeletedProjectStaysEmpty(s: System, projectId: int, deletion: seq<Step>, later: seq<Step>, key: Key)
    requires Sound(s) && Runs(s, deletion) && Runs(After(s, deletion), later)
    requires forall k :: k in ProjectAssemblies(s.tasks, projectId) ==> Delete(k) in deletion
    requires key in ProjectAssemblies(s.tasks, projectId)
    requires NeverPutsRebuilt(s, deletion, key) && !PutIsDue(After(s, deletion), key)
    ensures key !in After(s, deletion).tasks && key !in After(After(s, deletion), later).tasks
  {
    RunsKeepSound(s, deletion);
    DeletedInRun(s, deletion, key);
    DeletedStaysDeleted(After(s, deletion), later, key);
  }
}
