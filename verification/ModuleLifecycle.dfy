/**
 The lifecycle of modules: commands of users overlap with the callbacks of remote agents.

 A command stores the module as started and launches a job. The job connects to an agent, which
 stores the module as in progress; from then on the agent sends modules, completes or fails, and each
 of these writes only through a guard on the stored state. An exception anywhere in the job ends in a
 handler without a guard. `System` is everything between two of these steps.
 */
module ModuleLifecycle {
  import opened Wrappers
  import opened ModuleStates

  /** `details` stands for the fields no step looks at. */
  datatype Module = Module(
    id: int, projectId: int, name: string, state: ModuleState, updateTimeStamp: int, details: string)

  type Modules = map<int, Module>

  /** An asynchronous operation with the module it captured when it was launched. */
  datatype Job = Job(operation: Operation, captured: Module, connected: bool)

  datatype System = System(
    modules: Modules,
    jobs: map<nat, Job>,
    nextJob: nat,
    unprocessed: set<int>,  // installations started and not processed
    openUpdates: set<int>,  // updates started and not processed
    sweeps: map<nat, Modules>)  // changing modules that were read to be failed

  datatype Step =
    // commands
    | StartInstallation(id: int, projectId: int, name: string, details: string, now: int)
    | ProcessInstallation(value: Module)
    | StartUpdating(id: int, name: string, details: string)
    | ProcessUpdating(value: Module)
    | RewriteArtifact(value: Module, details: string)
    | Order(operation: Operation, id: int)
    | DeleteModule(id: int)
    | ReadChanging(sweep: nat)
    | FailChanging(sweep: nat, id: int)
    // callbacks of the job with a number
    | Connect(job: nat)
    | Deliver(job: nat, payload: Module)
    | Complete(job: nat, now: int)
    | Fail(job: nat, now: int)
    | Throw(job: nat, now: int)

  function FinalState(operation: Operation): ModuleState {
    match operation
    case Install => Run
    case Update => Run
    case Restart => Run
    case Stop => Stopped
    case Uninstall => NotInstalled
  }

  // ----- the writes of the callbacks

  function PutIfPresent(modules: Modules, newModule: Module): Modules {
    if newModule.id in modules then modules[newModule.id := newModule] else modules
  }

  function PutIfInState(modules: Modules, state: ModuleState, newModule: Module): Modules {
    if newModule.id in modules && modules[newModule.id].state == state then modules[newModule.id := newModule]
    else modules
  }

  function FinishIfInState(modules: Modules, id: int, state: ModuleState, final: ModuleState, now: int): Modules {
    if id in modules && modules[id].state == state
    then modules[id := modules[id].(state := final, updateTimeStamp := now)]
    else modules
  }

  function InvalidateIfPresent(modules: Modules, id: int, now: int): Modules {
    if id in modules then modules[id := modules[id].(state := Invalid, updateTimeStamp := now)] else modules
  }

  // ----- steps

  predicate NameIsTaken(modules: Modules, projectId: int, name: string) {
    exists id :: id in modules && modules[id].projectId == projectId && modules[id].name == name
  }

  function Changing(modules: Modules): Modules {
    map id | id in modules && IsChanging(modules[id].state) :: modules[id]
  }

  function Launch(s: System, operation: Operation, value: Module): System {
    var started := value.(state := Started(operation));
    s.(modules := s.modules[value.id := started],
       jobs := s.jobs[s.nextJob := Job(operation, started, false)],
       nextJob := s.nextJob + 1)
  }

  predicate Enabled(s: System, step: Step) {
    match step
    case StartInstallation(id, _, _, _, _) => id !in s.modules
    case RewriteArtifact(value, _) => value.state == Run
    case ReadChanging(w) => w !in s.sweeps
    case FailChanging(w, id) => w in s.sweeps && id in s.sweeps[w]
    case Connect(j) => j in s.jobs && !s.jobs[j].connected
    case Deliver(j, payload) =>
      && j in s.jobs && s.jobs[j].connected
      && payload.id == s.jobs[j].captured.id && payload.state == InProgress(s.jobs[j].operation)
    case Complete(j, _) => j in s.jobs && s.jobs[j].connected
    case Fail(j, _) => j in s.jobs && s.jobs[j].connected
    case Throw(j, _) => j in s.jobs
    case _ => true
  }

  /** A command on a missing module, or a taken name, throws and changes nothing. */
  function Next(s: System, step: Step): System
    requires Enabled(s, step)
  {
    match step
    case StartInstallation(id, projectId, name, details, now) =>
      if NameIsTaken(s.modules, projectId, name) then s
      else s.(modules := s.modules[id := Module(id, projectId, name, Started(Install), now, details)],
              unprocessed := s.unprocessed + {id})
    case ProcessInstallation(value) =>
      Launch(s.(unprocessed := s.unprocessed - {value.id}), Install, value)
    case StartUpdating(id, name, details) =>
      if id !in s.modules then s
      else s.(modules := s.modules[id := s.modules[id].(name := name, details := details, state := Started(Update))],
              openUpdates := s.openUpdates + {id})
    case ProcessUpdating(value) =>
      Launch(s.(openUpdates := s.openUpdates - {value.id}), Update, value)
    case RewriteArtifact(value, details) =>
      s.(modules := s.modules[value.id := value.(details := details)])
    case Order(operation, id) =>
      if id !in s.modules then s else Launch(s, operation, s.modules[id])
    case DeleteModule(id) => s.(modules := s.modules - {id})
    case ReadChanging(w) => s.(sweeps := s.sweeps[w := Changing(s.modules)])
    case FailChanging(w, id) =>
      s.(modules := s.modules[id := s.sweeps[w][id].(state := Invalid)],
         sweeps := s.sweeps[w := s.sweeps[w] - {id}])
    case Connect(j) =>
      var job := s.jobs[j];
      s.(modules := PutIfPresent(s.modules, job.captured.(state := InProgress(job.operation))),
         jobs := s.jobs[j := job.(connected := true)])
    case Deliver(j, payload) =>
      s.(modules := PutIfInState(s.modules, InProgress(s.jobs[j].operation), payload))
    case Complete(j, now) =>
      var job := s.jobs[j];
      s.(modules := FinishIfInState(s.modules, job.captured.id, InProgress(job.operation), FinalState(job.operation), now),
         jobs := s.jobs - {j})
    case Fail(j, now) =>
      var job := s.jobs[j];
      s.(modules := FinishIfInState(s.modules, job.captured.id, InProgress(job.operation), Invalid, now),
         jobs := s.jobs - {j})
    case Throw(j, now) =>
      s.(modules := InvalidateIfPresent(s.modules, s.jobs[j].captured.id, now), jobs := s.jobs - {j})
  }

  predicate Runs(s: System, steps: seq<Step>)
    decreases |steps|
  {
    |steps| == 0 || (Enabled(s, steps[0]) && Runs(Next(s, steps[0]), steps[1..]))
  }

  function After(s: System, steps: seq<Step>): System
    requires Runs(s, steps)
    decreases |steps|
  {
    if |steps| == 0 then s else After(Next(s, steps[0]), steps[1..])
  }

  // ----- every changing state has its cause

  ghost predicate HasJob(jobs: map<nat, Job>, id: int, operation: Operation, connected: bool) {
    exists j :: j in jobs && jobs[j].captured.id == id && jobs[j].operation == operation && jobs[j].connected == connected
  }

  /** In progress needs a connected job of that kind, started a waiting one or an open reservation. */
  ghost predicate Justified(s: System, id: int)
    requires id in s.modules
  {
    match s.modules[id].state
    case InProgress(operation) => HasJob(s.jobs, id, operation, true)
    case Started(operation) =>
      || HasJob(s.jobs, id, operation, false)
      || (operation == Install && id in s.unprocessed)
      || (operation == Update && id in s.openUpdates)
    case _ => true
  }

  ghost predicate Sound(s: System) {
    && (forall id :: id in s.modules ==> s.modules[id].id == id && Justified(s, id))
    && (forall j :: j in s.jobs ==> j < s.nextJob)
    && (forall w, id :: w in s.sweeps && id in s.sweeps[w] ==> s.sweeps[w][id].id == id)
  }

  /** From `s` to `t` nothing that justifies a module other than `id` is lost. */
  ghost predicate SameElsewhere(s: System, t: System, id: int) {
    && (forall i :: i in t.modules && i != id ==> i in s.modules && t.modules[i] == s.modules[i])
    && (forall j :: j in s.jobs && s.jobs[j].captured.id != id ==> j in t.jobs && t.jobs[j] == s.jobs[j])
    && s.unprocessed - {id} <= t.unprocessed
    && s.openUpdates - {id} <= t.openUpdates
  }

  lemma ElsewhereJustified(s: System, t: System, id: int)
    requires Sound(s) && SameElsewhere(s, t, id)
    ensures forall i :: i in t.modules && i != id ==> t.modules[i].id == i && Justified(t, i)
  {
    forall i | i in t.modules && i != id ensures t.modules[i].id == i && Justified(t, i) {
      assert Justified(s, i);
    }
  }

  lemma LaunchKeepsSound(s: System, r: System, operation: Operation, value: Module)
    requires Sound(s)
    requires r == s.(unprocessed := r.unprocessed, openUpdates := r.openUpdates)
    requires s.unprocessed - {value.id} <= r.unprocessed && s.openUpdates - {value.id} <= r.openUpdates
    ensures Sound(Launch(r, operation, value))
  {
    var t := Launch(r, operation, value);
    ElsewhereJustified(s, t, value.id);
    assert t.jobs[s.nextJob].captured.id == value.id;
  }

  lemma EndKeepsSound(s: System, j: nat, modules: Modules)
    requires Sound(s) && j in s.jobs
    requires modules.Keys == s.modules.Keys
    requires forall i :: i in modules && i != s.jobs[j].captured.id ==> modules[i] == s.modules[i]
    requires var id := s.jobs[j].captured.id;
             id in modules ==>
               && modules[id].id == id
               && (modules[id] == s.modules[id] || IsSettled(modules[id].state))
               && (s.jobs[j].connected ==> modules[id].state != InProgress(s.jobs[j].operation))
               && (!s.jobs[j].connected ==> IsSettled(modules[id].state))
    ensures Sound(s.(modules := modules, jobs := s.jobs - {j}))
  {
    var t := s.(modules := modules, jobs := s.jobs - {j});
    var id := s.jobs[j].captured.id;
    ElsewhereJustified(s, t, id);
    if id in modules && !IsSettled(modules[id].state) {
      assert Justified(s, id);
      forall k | k in s.jobs && k != j ensures k in t.jobs && t.jobs[k] == s.jobs[k] {
      }
    }
  }

  lemma ConnectKeepsSound(s: System, j: nat)
    requires Sound(s) && Enabled(s, Connect(j))
    ensures Sound(Next(s, Connect(j)))
  {
    var t := Next(s, Connect(j));
    ElsewhereJustified(s, t, s.jobs[j].captured.id);
    assert t.jobs[j].captured.id == s.jobs[j].captured.id;
  }

  lemma CommandKeepsSound(s: System, step: Step)
    requires Sound(s) && Enabled(s, step)
    requires step.StartInstallation? || step.StartUpdating? || step.RewriteArtifact? || step.DeleteModule?
    ensures Sound(Next(s, step))
  {
    ElsewhereJustified(s, Next(s, step), if step.RewriteArtifact? then step.value.id else step.id);
  }

  lemma SweepKeepsSound(s: System, step: Step)
    requires Sound(s) && Enabled(s, step) && (step.ReadChanging? || step.FailChanging?)
    ensures Sound(Next(s, step))
  {
    var t := Next(s, step);
    if step.FailChanging? {
      ElsewhereJustified(s, t, step.id);
    } else {
      forall id | id in t.modules ensures t.modules[id].id == id && Justified(t, id) {
        assert Justified(s, id);
      }
    }
  }

  lemma NextKeepsSound(s: System, step: Step)
    requires Sound(s) && Enabled(s, step)
    ensures Sound(Next(s, step))
  {
    match step
    case ProcessInstallation(value) => LaunchKeepsSound(s, s.(unprocessed := s.unprocessed - {value.id}), Install, value);
    case ProcessUpdating(value) => LaunchKeepsSound(s, s.(openUpdates := s.openUpdates - {value.id}), Update, value);
    case Order(operation, id) =>
      if id in s.modules {
        LaunchKeepsSound(s, s, operation, s.modules[id]);
      }
    case Connect(j) => ConnectKeepsSound(s, j);
    case Deliver(j, payload) => ElsewhereJustified(s, Next(s, step), payload.id);
    case Complete(j, _) => EndKeepsSound(s, j, Next(s, step).modules);
    case Fail(j, _) => EndKeepsSound(s, j, Next(s, step).modules);
    case Throw(j, _) => EndKeepsSound(s, j, Next(s, step).modules);
    case ReadChanging(_) => SweepKeepsSound(s, step);
    case FailChanging(_, _) => SweepKeepsSound(s, step);
    case _ => CommandKeepsSound(s, step);
  }

  lemma {:induction false} RunsKeepSound(s: System, steps: seq<Step>)
    requires Sound(s) && Runs(s, steps)
    ensures Sound(After(s, steps))
    decreases |steps|
  {
    if |steps| != 0 {
      NextKeepsSound(s, steps[0]);
      RunsKeepSound(Next(s, steps[0]), steps[1..]);
    }
  }

  /** No job, no reservation, and no module between two states: what `failChangingModules` leaves. */
  ghost predicate Idle(s: System) {
    && s.jobs == map[] && s.unprocessed == {} && s.openUpdates == {} && s.sweeps == map[]
    && forall id :: id in s.modules ==> s.modules[id].id == id && !IsChanging(s.modules[id].state)
  }

  /**
   Quiescence: in every run of overlapping commands and callbacks, once every job has ended and no
   update is reserved, no module is left between two states except an installation nobody processed:
   in a store without unknown states, every other module is RUN, STOPPED, NOT_INSTALLED or INVALID.
   */
  lemma NothingIsLeftChanging(s: System, steps: seq<Step>, id: int)
    requires Idle(s) && Runs(s, steps)
    requires After(s, steps).jobs == map[] && After(s, steps).openUpdates == {}
    requires id in After(s, steps).modules
    ensures var t := After(s, steps);
            && (IsChanging(t.modules[id].state) ==> t.modules[id].state == Started(Install) && id in t.unprocessed)
            && (StatesKnown(s) && !IsChanging(t.modules[id].state) ==> IsSettled(t.modules[id].state))
  {
    RunsKeepSound(s, steps);
    assert Justified(After(s, steps), id);
    if StatesKnown(s) {
      RunsKeepStates(s, steps);
    }
  }

  ghost predicate StatesKnown(s: System) {
    && (forall id :: id in s.modules ==> !s.modules[id].state.Unknown?)
    && (forall w, id :: w in s.sweeps && id in s.sweeps[w] ==> !s.sweeps[w][id].state.Unknown?)
  }

  /** No command and no callback stores a state outside the fourteen. */
  lemma NextKeepsStates(s: System, step: Step)
    requires StatesKnown(s) && Enabled(s, step)
    ensures StatesKnown(Next(s, step))
  {
  }

  lemma {:induction false} RunsKeepStates(s: System, steps: seq<Step>)
    requires StatesKnown(s) && Runs(s, steps)
    ensures StatesKnown(After(s, steps))
    decreases |steps|
  {
    if |steps| != 0 {
      NextKeepsStates(s, steps[0]);
      RunsKeepStates(Next(s, steps[0]), steps[1..]);
    }
  }

  // ----- what ends a job writes

  /** A completion that finds its module in its own progress, and what it leaves, state by state. */
  lemma CompletionWrites(s: System, j: nat, now: int)
    requires Enabled(s, Complete(j, now))
    ensures var id, operation, t := s.jobs[j].captured.id, s.jobs[j].operation, Next(s, Complete(j, now));
            && t.modules.Keys == s.modules.Keys && t.jobs == s.jobs - {j}
            && (forall i :: i in s.modules && i != id ==> t.modules[i] == s.modules[i])
            && (id in s.modules ==>
                  var value := s.modules[id];
                  t.modules[id] ==
                    match operation
                    case Install => if value.state == InProgress(Install) then value.(state := Run, updateTimeStamp := now) else value
                    case Update => if value.state == InProgress(Update) then value.(state := Run, updateTimeStamp := now) else value
                    case Restart => if value.state == InProgress(Restart) then value.(state := Run, updateTimeStamp := now) else value
                    case Stop => if value.state == InProgress(Stop) then value.(state := Stopped, updateTimeStamp := now) else value
                    case Uninstall =>
                      if value.state == InProgress(Uninstall) then value.(state := NotInstalled, updateTimeStamp := now) else value)
  {
  }

  /** A stream error leaves INVALID, under the same guard. */
  lemma ErrorWrites(s: System, j: nat, now: int)
    requires Enabled(s, Fail(j, now))
    ensures var id, t := s.jobs[j].captured.id, Next(s, Fail(j, now));
            && t.modules.Keys == s.modules.Keys && t.jobs == s.jobs - {j}
            && (forall i :: i in s.modules && i != id ==> t.modules[i] == s.modules[i])
            && (id in s.modules ==>
                  t.modules[id] == if s.modules[id].state == InProgress(s.jobs[j].operation)
                                   then s.modules[id].(state := Invalid, updateTimeStamp := now) else s.modules[id])
  {
  }

  /** The step completes a job of this kind on this module. */
  predicate CompletesJob(s: System, step: Step, operation: Operation, id: int) {
    && step.Complete? && step.job in s.jobs
    && s.jobs[step.job].operation == operation && s.jobs[step.job].captured.id == id
  }

  ghost predicate HasState(s: System, id: int, state: ModuleState) {
    id in s.modules && s.modules[id].state == state
  }

  /** Exactly when a module enters STOPPED and NOT_INSTALLED, and what it takes to enter RUN and INVALID. */
  lemma RestIsCaused(s: System, step: Step, id: int)
    requires Sound(s) && Enabled(s, step)
    ensures !HasState(s, id, Stopped) && HasState(Next(s, step), id, Stopped) <==>
              CompletesJob(s, step, Stop, id) && HasState(s, id, InProgress(Stop))
    ensures !HasState(s, id, NotInstalled) && HasState(Next(s, step), id, NotInstalled) <==>
              CompletesJob(s, step, Uninstall, id) && HasState(s, id, InProgress(Uninstall))
    ensures !HasState(s, id, Run) && HasState(Next(s, step), id, Run) ==>
              || (CompletesJob(s, step, Install, id) && HasState(s, id, InProgress(Install)))
              || (CompletesJob(s, step, Update, id) && HasState(s, id, InProgress(Update)))
              || (CompletesJob(s, step, Restart, id) && HasState(s, id, InProgress(Restart)))
              || (step.RewriteArtifact? && step.value.id == id)
    ensures !HasState(s, id, Invalid) && HasState(Next(s, step), id, Invalid) ==>
              || ((step.Fail? || step.Throw?) && step.job in s.jobs && s.jobs[step.job].captured.id == id)
              || (step.FailChanging? && step.id == id)
  {
  }

  ghost predicate IsCompletedIn(s: System, steps: seq<Step>, operation: Operation, id: int)
    requires Runs(s, steps)
    decreases |steps|
  {
    |steps| != 0
    && (|| (CompletesJob(s, steps[0], operation, id) && HasState(s, id, InProgress(operation)))
        || IsCompletedIn(Next(s, steps[0]), steps[1..], operation, id))
  }

  /** A run brings a module to STOPPED only by the completion of a stop of it, to NOT_INSTALLED only of an uninstall. */
  lemma {:induction false} RestHasCause(s: System, steps: seq<Step>, id: int)
    requires Sound(s) && Runs(s, steps)
    ensures HasState(After(s, steps), id, Stopped) ==> HasState(s, id, Stopped) || IsCompletedIn(s, steps, Stop, id)
    ensures HasState(After(s, steps), id, NotInstalled) ==>
              HasState(s, id, NotInstalled) || IsCompletedIn(s, steps, Uninstall, id)
    decreases |steps|
  {
    if |steps| != 0 {
      NextKeepsSound(s, steps[0]);
      RestIsCaused(s, steps[0], id);
      RestHasCause(Next(s, steps[0]), steps[1..], id);
    }
  }

  // ----- what commands and progress write

  /** The commands on a stored module write the started state of their kind, and launch one waiting job for it. */
  lemma OrderWrites(s: System, operation: Operation, id: int)
    requires Sound(s) && id in s.modules
    ensures var t := Next(s, Order(operation, id));
            && t.modules == s.modules[id := s.modules[id].(state := Started(operation))]
            && t.jobs == s.jobs[s.nextJob := Job(operation, t.modules[id], false)]
            && t.nextJob == s.nextJob + 1 && t.unprocessed == s.unprocessed && t.openUpdates == s.openUpdates
  {
  }

  /** Starting an installation: refused exactly if the project has a module of this name, else one new record. */
  lemma InstallationWrites(s: System, id: int, projectId: int, name: string, details: string, now: int)
    requires id !in s.modules
    ensures var t := Next(s, StartInstallation(id, projectId, name, details, now));
            if exists i :: i in s.modules && s.modules[i].projectId == projectId && s.modules[i].name == name then t == s
            else
              && t.modules.Keys == s.modules.Keys + {id} && (forall i :: i in s.modules ==> t.modules[i] == s.modules[i])
              && t == s.(modules := t.modules, unprocessed := s.unprocessed + {id})
              && t.modules[id].id == id && t.modules[id].projectId == projectId && t.modules[id].name == name
              && t.modules[id].state == Started(Install)
              && t.modules[id].updateTimeStamp == now && t.modules[id].details == details
  {
  }

  /** Starting an update keeps the id, project and time of the module, and opens a reservation. */
  lemma UpdatingWrites(s: System, id: int, name: string, details: string)
    requires id in s.modules
    ensures var t := Next(s, StartUpdating(id, name, details));
            && t == s.(modules := t.modules, openUpdates := s.openUpdates + {id})
            && t.modules.Keys == s.modules.Keys
            && (forall i :: i in s.modules && i != id ==> t.modules[i] == s.modules[i])
    ensures var before, after := s.modules[id], Next(s, StartUpdating(id, name, details)).modules[id];
            && after.name == name && after.details == details && after.state == Started(Update)
            && after.id == before.id && after.projectId == before.projectId
            && after.updateTimeStamp == before.updateTimeStamp
  {
  }

  /** Processing stores what the user sent, as started, whatever is stored, and launches a waiting job that captured it. */
  lemma ProcessingWrites(s: System, value: Module)
    ensures var started, t := value.(state := Started(Install)), Next(s, ProcessInstallation(value));
            && t.modules == s.modules[value.id := started] && t.jobs == s.jobs[s.nextJob := Job(Install, started, false)]
            && t.unprocessed == s.unprocessed - {value.id} && t.openUpdates == s.openUpdates
    ensures var started, t := value.(state := Started(Update)), Next(s, ProcessUpdating(value));
            && t.modules == s.modules[value.id := started] && t.jobs == s.jobs[s.nextJob := Job(Update, started, false)]
            && t.openUpdates == s.openUpdates - {value.id} && t.unprocessed == s.unprocessed
  {
  }

  /** A job that connects stores what it captured as in progress, if the module is stored. */
  lemma ConnectionWrites(s: System, j: nat)
    requires Enabled(s, Connect(j))
    ensures var id, t := s.jobs[j].captured.id, Next(s, Connect(j));
            && t.modules == (if id in s.modules
                             then s.modules[id := s.jobs[j].captured.(state := InProgress(s.jobs[j].operation))]
                             else s.modules)
            && t.jobs == s.jobs[j := Job(s.jobs[j].operation, s.jobs[j].captured, true)]
  {
  }

  /** A delivery stores exactly what the agent sent, while the module is in the progress of the job. */
  lemma DeliveryWrites(s: System, j: nat, payload: Module)
    requires Enabled(s, Deliver(j, payload))
    ensures var id, t := s.jobs[j].captured.id, Next(s, Deliver(j, payload));
            && t == s.(modules := t.modules) && t.modules.Keys == s.modules.Keys
            && (forall i :: i in s.modules && i != id ==> t.modules[i] == s.modules[i])
            && (id in s.modules ==>
                  t.modules[id] == if s.modules[id].state == InProgress(s.jobs[j].operation) then payload else s.modules[id])
  {
  }

  /** A new version rewrites a running module as it was read, but for its artifact. */
  lemma RewriteWrites(s: System, value: Module, details: string)
    requires Enabled(s, RewriteArtifact(value, details))
    ensures var t := Next(s, RewriteArtifact(value, details));
            && t == s.(modules := t.modules) && t.modules.Keys == s.modules.Keys + {value.id}
            && (forall i :: i in s.modules && i != value.id ==> t.modules[i] == s.modules[i])
            && t.modules[value.id].details == details && t.modules[value.id] == value.(details := details)
            && t.modules[value.id].state == Run
  {
  }

  // ----- who may write

  predicate IsCallback(step: Step) {
    step.Connect? || step.Deliver? || step.Complete? || step.Fail? || step.Throw?
  }

  predicate IsGuarded(step: Step) {
    step.Deliver? || step.Complete? || step.Fail?
  }

  /** A delivery, completion or stream error that changes anything found the module in its own progress. */
  lemma GuardedWriteFindsOwnState(s: System, step: Step)
    requires Enabled(s, step) && IsGuarded(step)
    requires Next(s, step).modules != s.modules
    ensures var job := s.jobs[step.job];
            && job.captured.id in s.modules
            && s.modules[job.captured.id].state == InProgress(job.operation)
            && Next(s, step).modules - {job.captured.id} == s.modules - {job.captured.id}
  {
  }

  /** Step `step` is a job of this kind on this module starting its progress. */
  predicate StartsProgress(s: System, step: Step, operation: Operation, id: int) {
    step.Connect? && step.job in s.jobs && s.jobs[step.job].operation == operation && s.jobs[step.job].captured.id == id
  }

  ghost predicate InProgressOf(s: System, operation: Operation, id: int) {
    id in s.modules && s.modules[id].state == InProgress(operation)
  }

  /** No job of this kind on this module starts its progress anywhere in the run. */
  ghost predicate NeverStartsProgress(s: System, steps: seq<Step>, operation: Operation, id: int)
    requires Runs(s, steps)
    decreases |steps|
  {
    |steps| == 0
    || (!StartsProgress(s, steps[0], operation, id)
        && NeverStartsProgress(Next(s, steps[0]), steps[1..], operation, id))
  }

  /** A delivery, completion or stream error of a job of this kind on this module. */
  predicate IsCallbackOf(s: System, step: Step, operation: Operation, id: int)
    requires Enabled(s, step)
  {
    IsGuarded(step) && s.jobs[step.job].operation == operation && s.jobs[step.job].captured.id == id
  }

  /** No delivery, completion or stream error of a job of this kind on this module writes in the run. */
  ghost predicate WritesNothing(s: System, steps: seq<Step>, operation: Operation, id: int)
    requires Runs(s, steps)
    decreases |steps|
  {
    |steps| == 0
    || ((IsCallbackOf(s, steps[0], operation, id) ==> Next(s, steps[0]).modules == s.modules)
        && WritesNothing(Next(s, steps[0]), steps[1..], operation, id))
  }

  lemma ProgressNeedsStart(s: System, step: Step, operation: Operation, id: int)
    requires Enabled(s, step)
    requires !InProgressOf(s, operation, id) && InProgressOf(Next(s, step), operation, id)
    ensures StartsProgress(s, step, operation, id)
  {
  }

  /**
   Supersession: once a module is out of the progress of some kind, the jobs of that kind write
   nothing to it, however many of their callbacks arrive, until one of them starts its progress.
   */
  lemma {:induction false} SupersededJobsWriteNothing(s: System, steps: seq<Step>, operation: Operation, id: int)
    requires Runs(s, steps)
    requires !InProgressOf(s, operation, id) && NeverStartsProgress(s, steps, operation, id)
    ensures WritesNothing(s, steps, operation, id)
    ensures !InProgressOf(After(s, steps), operation, id)
    decreases |steps|
  {
    if |steps| != 0 {
      var t := Next(s, steps[0]);
      if InProgressOf(t, operation, id) {
        ProgressNeedsStart(s, steps[0], operation, id);
      }
      SupersededJobsWriteNothing(t, steps[1..], operation, id);
    }
  }

  /**
   The exception handler has no guard: an exception changes the store unless the module is gone or has
   already been invalidated at that very time, whatever another operation has made of it.
   */
  lemma ThrowIgnoresState(s: System, j: nat, now: int)
    requires Sound(s) && Enabled(s, Throw(j, now))
    ensures var id := s.jobs[j].captured.id;
            Next(s, Throw(j, now)).modules == s.modules <==>
              id !in s.modules || (s.modules[id].state == Invalid && s.modules[id].updateTimeStamp == now)
    ensures var id := s.jobs[j].captured.id;
            id in s.modules ==>
              Next(s, Throw(j, now)).modules[id] == s.modules[id].(state := Invalid, updateTimeStamp := now)
  {
    var id := s.jobs[j].captured.id;
    if id in s.modules {
      assert Next(s, Throw(j, now)).modules[id] == s.modules[id].(state := Invalid, updateTimeStamp := now);
    }
  }

  lemma RunsSnoc(s: System, steps: seq<Step>, step: Step)
    requires Runs(s, steps) && Enabled(After(s, steps), step)
    ensures Runs(s, steps + [step]) && After(s, steps + [step]) == Next(After(s, steps), step)
  {
    RunsConcat(s, steps, [step]);
  }

  /** Running `first`, then `second` from where it ended. */
  lemma {:induction false} RunsConcat(s: System, first: seq<Step>, second: seq<Step>)
    requires Runs(s, first) && Runs(After(s, first), second)
    ensures Runs(s, first + second) && After(s, first + second) == After(After(s, first), second)
    decreases |first|
  {
    if |first| == 0 {
      assert first + second == second;
    } else {
      RunsConcat(Next(s, first[0]), first[1..], second);
      assert (first + second)[1..] == first[1..] + second;
    }
  }

  /** A stop and then a restart are ordered; neither agent has started. */
  lemma StopAndRestart(value: Module) returns (steps: seq<Step>)
    ensures Runs(OnlyModule(value), steps)
    ensures After(OnlyModule(value), steps) ==
              System(map[value.id := value.(state := Started(Restart))],
                     map[0 := Job(Stop, value.(state := Started(Stop)), false),
                         1 := Job(Restart, value.(state := Started(Restart)), false)],
                     2, {}, {}, map[])
  {
    var s := OnlyModule(value);
    steps := [Order(Stop, value.id)];
    RunsSnoc(s, [], Order(Stop, value.id));
    assert [] + steps == steps;
    RunsSnoc(s, steps, Order(Restart, value.id));
    steps := steps + [Order(Restart, value.id)];
  }

  function OnlyModule(value: Module): System {
    System(map[value.id := value], map[], 0, {}, {}, map[])
  }

  /** A module that a restart has brought to RUN is invalidated by a stop whose agent did not start. */
  lemma ThrowHitsRunningModule(value: Module, now: int) returns (steps: seq<Step>)
    requires !IsChanging(value.state)
    ensures Idle(OnlyModule(value)) && Runs(OnlyModule(value), steps)
    ensures var t := After(OnlyModule(value), steps);
            && Enabled(t, Throw(0, now)) && t.jobs.Keys == {0}
            && t.jobs[0].operation == Stop && t.jobs[0].captured.id == value.id
            && value.id in t.modules && t.modules[value.id].state == Run
            && Next(t, Throw(0, now)).modules[value.id].state == Invalid
  {
    var s := OnlyModule(value);
    steps := StopAndRestart(value);
    RunsSnoc(s, steps, Connect(1));
    steps := steps + [Connect(1)];
    RunsSnoc(s, steps, Complete(1, now));
    steps := steps + [Complete(1, now)];
  }

  // ----- deletion

  /** The steps that make the module appear when it is not stored. */
  predicate Creates(s: System, step: Step, id: int) {
    || (step.StartInstallation? && step.id == id && !NameIsTaken(s.modules, step.projectId, step.name))
    || ((step.ProcessInstallation? || step.ProcessUpdating? || step.RewriteArtifact?) && step.value.id == id)
    || (step.FailChanging? && step.id == id)
  }

  /** Exactly these steps make a module that is not stored appear; no callback is among them. */
  lemma OnlyCommandsCreate(s: System, step: Step, id: int)
    requires Sound(s) && Enabled(s, step) && id !in s.modules
    ensures id in Next(s, step).modules <==> Creates(s, step, id)
    ensures Creates(s, step, id) ==> !IsCallback(step)
  {
  }

  ghost predicate NeverCreates(s: System, steps: seq<Step>, id: int)
    requires Runs(s, steps)
    decreases |steps|
  {
    |steps| == 0 || (!Creates(s, steps[0], id) && NeverCreates(Next(s, steps[0]), steps[1..], id))
  }

  lemma {:induction false} MissingStaysMissing(s: System, steps: seq<Step>, id: int)
    requires Sound(s) && Runs(s, steps) && NeverCreates(s, steps, id) && id !in s.modules
    ensures id !in After(s, steps).modules
    decreases |steps|
  {
    if |steps| != 0 {
      NextKeepsSound(s, steps[0]);
      OnlyCommandsCreate(s, steps[0], id);
      MissingStaysMissing(Next(s, steps[0]), steps[1..], id);
    }
  }

  lemma {:induction false} DeletedInRun(s: System, steps: seq<Step>, id: int)
    requires Sound(s) && Runs(s, steps) && NeverCreates(s, steps, id) && DeleteModule(id) in steps
    ensures id !in After(s, steps).modules
    decreases |steps|
  {
    NextKeepsSound(s, steps[0]);
    if steps[0] == DeleteModule(id) {
      MissingStaysMissing(Next(s, steps[0]), steps[1..], id);
    } else {
      DeletedInRun(Next(s, steps[0]), steps[1..], id);
    }
  }

  /**
   Once a project is deleted, by deleting each of its modules among whatever else happens, a module of
   it stays away along every run, of commands and callbacks, that has no creating step for its id.
   */
  lemma DeletedProjectStaysEmpty(s: System, projectId: int, deletion: seq<Step>, later: seq<Step>, id: int)
    requires Sound(s) && Runs(s, deletion) && Runs(After(s, deletion), later)
    requires forall i :: i in s.modules && s.modules[i].projectId == projectId ==> DeleteModule(i) in deletion
    requires id in s.modules && s.modules[id].projectId == projectId
    requires NeverCreates(s, deletion, id) && NeverCreates(After(s, deletion), later, id)
    ensures id !in After(s, deletion).modules && id !in After(After(s, deletion), later).modules
  {
    RunsKeepSound(s, deletion);
    DeletedInRun(s, deletion, id);
    MissingStaysMissing(After(s, deletion), later, id);
  }

  /** Callbacks are such runs. */
  lemma {:induction false} CallbacksCreateNothing(s: System, steps: seq<Step>, id: int)
    requires Runs(s, steps)
    requires forall step | step in steps :: IsCallback(step)
    ensures NeverCreates(s, steps, id)
    decreases |steps|
  {
    if |steps| != 0 {
      assert steps[0] in steps;
      CallbacksCreateNothing(Next(s, steps[0]), steps[1..], id);
    }
  }

  /** A processing command that still holds the module brings it back: started, and with a job. */
  lemma ProcessingRevives(value: Module, now: int) returns (steps: seq<Step>)
    ensures var s := System(map[], map[], 0, {}, {}, map[]);
            && Idle(s) && Runs(s, steps) && value.id !in After(s, steps).modules
            && DeleteModule(value.id) in steps
            && var t := Next(After(s, steps), ProcessInstallation(value));
               && value.id in t.modules && t.modules[value.id].state == Started(Install)
               && HasJob(t.jobs, value.id, Install, false)
  {
    var s := System(map[], map[], 0, {}, {}, map[]);
    var start := StartInstallation(value.id, value.projectId, value.name, value.details, now);
    steps := [];
    RunsSnoc(s, steps, start);
    steps := steps + [start];
    RunsSnoc(s, steps, DeleteModule(value.id));
    steps := steps + [DeleteModule(value.id)];
    var t := Next(After(s, steps), ProcessInstallation(value));
    assert 0 in t.jobs;
  }

  /** Callbacks neither create nor delete modules, so whatever is deleted stays deleted among them. */
  lemma {:induction false} CallbacksKeepIds(s: System, steps: seq<Step>)
    requires Runs(s, steps)
    requires forall step | step in steps :: IsCallback(step)
    ensures After(s, steps).modules.Keys == s.modules.Keys
    decreases |steps|
  {
    if |steps| != 0 {
      assert steps[0] in steps;
      CallbacksKeepIds(Next(s, steps[0]), steps[1..]);
    }
  }

  // ----- the services

  datatype ModuleError = ModuleAlreadyExists | ModuleDoesNotExist(id: int)

  ghost predicate IsRun(s: System, steps: seq<Step>, t: System) {
    Runs(s, steps) && After(s, steps) == t
  }

  function ProjectModules(modules: Modules, projectId: int): set<int> {
    set id | id in modules && modules[id].projectId == projectId
  }

  /** All changing modules but those that are left have been invalidated. */
  ghost function FailedBut(modules: Modules, left: set<int>): Modules {
    map id | id in modules ::
      if IsChanging(modules[id].state) && id !in left then modules[id].(state := Invalid) else modules[id]
  }

  lemma FailOneMore(modules: Modules, left: set<int>, id: int)
    requires id in left && id in modules && IsChanging(modules[id].state)
    ensures FailedBut(modules, left)[id := modules[id].(state := Invalid)] == FailedBut(modules, left - {id})
  {
  }

  /** The run so far of failing what was read, and what is still to fail. */
  ghost predicate Failing(before: System, steps: seq<Step>, s: System, changing: Modules) {
    && (forall id :: id in changing ==> id in before.modules && changing[id] == before.modules[id])
    && (forall id :: id in changing ==> IsChanging(changing[id].state))
    && s == before.(modules := FailedBut(before.modules, changing.Keys))
    && IsRun(before, steps, s.(sweeps := map[0 := changing]))
  }

  lemma FailingStarts(s: System) returns (steps: seq<Step>)
    requires s.sweeps == map[]
    ensures Failing(s, steps, s, Changing(s.modules))
  {
    steps := [ReadChanging(0)];
    RunsSnoc(s, [], ReadChanging(0));
    assert [] + steps == steps;
    assert FailedBut(s.modules, Changing(s.modules).Keys) == s.modules;
  }

  lemma FailingOneMore(before: System, steps: seq<Step>, s: System, changing: Modules, id: int)
    requires Failing(before, steps, s, changing) && id in changing
    ensures Failing(before, steps + [FailChanging(0, id)],
                    s.(modules := s.modules[id := changing[id].(state := Invalid)]), changing - {id})
  {
    FailOneMore(before.modules, changing.Keys, id);
    RunsSnoc(before, steps, FailChanging(0, id));
    assert (changing - {id}).Keys == changing.Keys - {id};
  }

  /** The module services over the module store and the asynchronous jobs. */
  class ModuleService {
    var modules: Modules
    var jobs: map<nat, Job>
    var nextJob: nat
    ghost var unprocessed: set<int>
    ghost var openUpdates: set<int>

    ghost function View(): System
      reads this
    {
      System(modules, jobs, nextJob, unprocessed, openUpdates, map[])
    }

    constructor (modules: Modules)
      requires forall id :: id in modules ==> modules[id].id == id && !IsChanging(modules[id].state)
      ensures Idle(View()) && this.modules == modules
    {
      this.modules, jobs, nextJob, unprocessed, openUpdates := modules, map[], 0, {}, {};
    }

    // commands

    method StartModuleInstallation(id: int, projectId: int, name: string, details: string, now: int)
      returns (r: Result<Module, ModuleError>)
      requires id !in modules
      modifies this
      ensures View() == Next(old(View()), StartInstallation(id, projectId, name, details, now))
      ensures r.Failure? <==>
                exists i :: i in old(modules) && old(modules)[i].projectId == projectId && old(modules)[i].name == name
      ensures r.Success? ==> id in modules && r.value == modules[id] && r.value.state == Started(Install)
    {
      var others := modules.Keys;
      while exists i :: i in others
        invariant others <= modules.Keys
        invariant forall i :: i in modules && i !in others ==> !(modules[i].projectId == projectId && modules[i].name == name)
        decreases |others|
      {
        var i :| i in others;
        if modules[i].projectId == projectId && modules[i].name == name {
          return Failure(ModuleAlreadyExists);
        }
        others := others - {i};
      }
      var created := Module(id, projectId, name, Started(Install), now, details);
      modules := modules[id := created];
      unprocessed := unprocessed + {id};
      r := Success(created);
    }

    method LaunchJob(operation: Operation, value: Module)
      modifies this`modules, this`jobs, this`nextJob
      ensures View() == Launch(old(View()), operation, value)
    {
      var started := value.(state := Started(operation));
      modules := modules[value.id := started];
      jobs := jobs[nextJob := Job(operation, started, false)];
      nextJob := nextJob + 1;
    }

    method ProcessModuleInstallation(value: Module)
      modifies this
      ensures View() == Next(old(View()), ProcessInstallation(value))
    {
      unprocessed := unprocessed - {value.id};
      LaunchJob(Install, value);
    }

    method StartModuleUpdating(id: int, name: string, details: string) returns (r: Result<Module, ModuleError>)
      modifies this
      ensures View() == Next(old(View()), StartUpdating(id, name, details))
      ensures r == if id in old(modules) then Success(modules[id]) else Failure(ModuleDoesNotExist(id))
    {
      if id !in modules {
        return Failure(ModuleDoesNotExist(id));
      }
      modules := modules[id := modules[id].(name := name, details := details, state := Started(Update))];
      openUpdates := openUpdates + {id};
      r := Success(modules[id]);
    }

    method ProcessModuleUpdating(value: Module)
      modifies this
      ensures View() == Next(old(View()), ProcessUpdating(value))
    {
      openUpdates := openUpdates - {value.id};
      LaunchJob(Update, value);
    }

    /** `reinstallModule`, `refreshModuleArtifact`, `stopModule`, `restartModule`, `deleteModuleFromResource`. */
    method OrderOperation(operation: Operation, id: int) returns (r: Result<(), ModuleError>)
      modifies this
      ensures View() == Next(old(View()), Order(operation, id))
      ensures r == if id in old(modules) then Success(()) else Failure(ModuleDoesNotExist(id))
    {
      if id !in modules {
        return Failure(ModuleDoesNotExist(id));
      }
      LaunchJob(operation, modules[id]);
      r := Success(());
    }

    method DeleteModule(id: int) returns (r: Result<(), ModuleError>)
      modifies this
      ensures View() == Next(old(View()), Step.DeleteModule(id))
      ensures r == if id in old(modules) then Success(()) else Failure(ModuleDoesNotExist(id))
    {
      r := if id in modules then Success(()) else Failure(ModuleDoesNotExist(id));
      modules := modules - {id};
    }

    method DeleteProjectModules(projectId: int) returns (ghost steps: seq<Step>)
      modifies this
      ensures View() == old(View()).(modules := old(modules) - ProjectModules(old(modules), projectId))
      ensures forall id :: id in modules <==> id in old(modules) && old(modules)[id].projectId != projectId
      ensures forall id :: id in modules ==> modules[id] == old(modules)[id]
      ensures IsRun(old(View()), steps, View())
      ensures forall id :: id in ProjectModules(old(modules), projectId) ==> Step.DeleteModule(id) in steps
      ensures forall step | step in steps :: step.DeleteModule?
    {
      ghost var before := View();
      ghost var doomed := ProjectModules(modules, projectId);
      var left := ProjectModules(modules, projectId);
      steps := [];
      while exists id :: id in left
        invariant left <= doomed
        invariant View() == before.(modules := before.modules - (doomed - left))
        invariant IsRun(before, steps, View())
        invariant forall id :: id in doomed - left ==> Step.DeleteModule(id) in steps
        invariant forall step | step in steps :: step.DeleteModule?
        decreases |left|
      {
        var id :| id in left;
        RunsSnoc(before, steps, Step.DeleteModule(id));
        modules := modules - {id};
        left := left - {id};
        steps := steps + [Step.DeleteModule(id)];
      }
      assert left == {} && doomed - left == doomed;
    }

    /** Reads all modules, then fails those that were read changing. */
    method FailChangingModules() returns (ghost steps: seq<Step>)
      modifies this
      ensures Runs(old(View()), steps) && View() == After(old(View()), steps).(sweeps := map[])
      ensures View() == old(View()).(modules := FailedBut(old(modules), {}))
      ensures modules.Keys == old(modules).Keys
      ensures forall id :: id in old(modules) ==>
                modules[id] == (if old(modules)[id].state.Started? || old(modules)[id].state.InProgress?
                                then old(modules)[id].(state := Invalid) else old(modules)[id])
    {
      ghost var before := View();
      var changing := Changing(modules);
      steps := FailingStarts(before);
      while exists id :: id in changing
        invariant Failing(before, steps, View(), changing)
        decreases |changing.Keys|
      {
        var id :| id in changing;
        FailingOneMore(before, steps, View(), changing, id);
        modules := modules[id := changing[id].(state := Invalid)];
        changing := changing - {id};
        steps := steps + [FailChanging(0, id)];
      }
      assert changing.Keys == {};
    }

    // the writes of the callbacks

    /** `updateModule(newModule)`. */
    method UpdateModule(newModule: Module)
      modifies this`modules
      ensures modules == PutIfPresent(old(modules), newModule)
    {
      if newModule.id in modules {
        modules := modules[newModule.id := newModule];
      }
    }

    /** `updateModule(state, newModule)`. */
    method UpdateModuleInState(state: ModuleState, newModule: Module)
      modifies this`modules
      ensures modules == PutIfInState(old(modules), state, newModule)
    {
      if newModule.id in modules {
        if modules[newModule.id].state == state {
          modules := modules[newModule.id := newModule];
        }
      }
    }

    /** `completeModule(currentState, finalState)`, and `handleModuleError(state, error)` with an invalid end. */
    method FinishModule(id: int, current: ModuleState, final: ModuleState, now: int)
      requires id in modules ==> modules[id].id == id
      modifies this`modules
      ensures modules == FinishIfInState(old(modules), id, current, final, now)
    {
      if id in modules && modules[id].state == current {
        UpdateModule(modules[id].(state := final, updateTimeStamp := now));
      }
    }

    /** `handleModuleError(error)`. */
    method HandleModuleError(id: int, now: int)
      requires id in modules ==> modules[id].id == id
      modifies this`modules
      ensures modules == InvalidateIfPresent(old(modules), id, now)
    {
      if id in modules {
        UpdateModule(modules[id].(state := Invalid, updateTimeStamp := now));
      }
    }

    // a job

    /** Up to the subscription: the captured module is stored as in progress and sent to the agent. */
    method ConnectJob(j: nat) returns (request: Module)
      requires Enabled(View(), Connect(j))
      modifies this
      ensures View() == Next(old(View()), Connect(j))
      ensures request == jobs[j].captured.(state := InProgress(jobs[j].operation))
    {
      var job := jobs[j];
      request := job.captured.(state := InProgress(job.operation));
      UpdateModule(request);
      jobs := jobs[j := job.(connected := true)];
    }

    method OnNext(j: nat, payload: Module)
      requires Enabled(View(), Deliver(j, payload))
      modifies this
      ensures View() == Next(old(View()), Deliver(j, payload))
    {
      UpdateModuleInState(InProgress(jobs[j].operation), payload);
    }

    method OnComplete(j: nat, now: int)
      requires Sound(View()) && Enabled(View(), Complete(j, now))
      modifies this
      ensures View() == Next(old(View()), Complete(j, now))
    {
      var job := jobs[j];
      FinishModule(job.captured.id, InProgress(job.operation), FinalState(job.operation), now);
      jobs := jobs - {j};
    }

    method OnError(j: nat, now: int)
      requires Sound(View()) && Enabled(View(), Fail(j, now))
      modifies this
      ensures View() == Next(old(View()), Fail(j, now))
    {
      var job := jobs[j];
      FinishModule(job.captured.id, InProgress(job.operation), Invalid, now);
      jobs := jobs - {j};
    }

    method OnException(j: nat, now: int)
      requires Sound(View()) && Enabled(View(), Throw(j, now))
      modifies this
      ensures View() == Next(old(View()), Throw(j, now))
    {
      HandleModuleError(jobs[j].captured.id, now);
      jobs := jobs - {j};
    }
  }
}
