# Verification of the management panel

The platform runs long jobs on remote agents, moves files to its server in credit-controlled chunks, and
answers filtered and sorted queries. This project models the parts of the management panel in which
order, interleaving and arithmetic decide whether that works, and proves for all inputs and all runs
what they promise, or exactly when they keep the promise.

    dafny verify dfyconfig.toml

| module | component |
|---|---|
| `ModuleLifecycle`, `ModuleStates` | commands on modules against the callbacks of agents |
| `AgentTasks`, `AgentTaskServices` | assemblies and load tests: build, cancel, rebuild, delete, late events |
| `BuildSupersession` | the cancellation of running builds by a new build |
| `CreditFlow`, `Chunking`, `FileUpload` | credit of chunked streams, chunks, the upload from client to store |
| `ModuleFilter`, `AssemblyFilter`, `LegacyMergeSort` | the queries, and the merge sort of the JDK that the panel switches on |
| `PropertyGraph`, `ValueBindings` | reactive properties bound to each other, possibly in cycles |
| `Provisioning` | allocating, transferring and processing the additional files of a module |
| `ResourceImport` | importing external artifacts with their resources |
| `EventStream` | the event bus of the client |
| `Synchronization` | the completion synchronizer of the client |
| `Sequences`, `Wrappers` | shared definitions |

Code that changes state is modelled by classes and loops; each method is tied to a function of the old
state, and the theorems are about these functions, run over arbitrary sequences of steps. The step
systems take their interleavings from the code: a command with several writes is several steps, and
anything may happen between them.

## Assumptions

- One look-up with its guard and the write behind it is one step. A command with one write is one step
  with its reads; of the others, a build is a scan, a cancellation of each victim and a put, a rebuild a
  read, a cancellation and an unguarded put of what was read, failing the changing modules a read and an
  unguarded put for each, and deleting the modules or assemblies of a project, or stopping all assemblies,
  a run of single deletions and cancellations. The code takes no lock; finer interleavings are outside
  the claims.
- Agents preserve the id and scope of what they are sent, and the modules they send carry the
  in-progress state of their operation.
- Project look-up and the creation of module managers and builders succeed.
- Repositories are maps; putting a new record uses an id that is not in use. The name index of the
  resource spaces is unique, as `TarantoolConfigurator.kt` does not say otherwise for it, so that a put
  under a taken name is rejected. Times and random suffixes are parameters.
- Client and server libraries deliver frames in order; requests after the completion of a stream are
  ignored, and the `chunked` operator is the only one that requests.
- Actions that veto a property are pure, and the consumers of a property are setters of properties.

## What does not hold

- The upload of an empty file is never stored: the server throws (`FileUpload.UploadStoresPayload`).
- Two builds between scan and put end up both running exactly if they clash: one project and version,
  and one covers the configurations of the other (`BuildSupersession.SupersessionFailsByClash`).
- A runner left over from before a rebuild, and only that, can end the new incarnation
  (`AgentTasks.StaleRunnerEndsRebuild`).
- A deleted assembly comes back exactly if its rebuild was about to be put (`AgentTasks.DeletedComesBack`).
- An exception in a job invalidates whatever the module has become meanwhile
  (`ModuleLifecycle.ThrowIgnoresState`, `ModuleLifecycle.ThrowHitsRunningModule`).
- Deleting a project does not stop a processing command that already holds one of its modules
  (`ModuleLifecycle.OnlyCommandsCreate`, `ModuleLifecycle.ProcessingRevives`).
- The module comparator is not antisymmetric (`ModuleFilter.CompareIsNotAntisymmetric`). Over the fourteen
  states, the only ones the modelled steps store, the sort orders all the same; the order would be lost
  on a state outside them (`ModuleFilter.UnknownStateBreaksOrder`).
- The sort keeps ties in stored order in the last four ranks (`ModuleFilter.TiesKeepOrder`), but not in
  general: from seven elements on a third element can make one overtake the other
  (`LegacyMergeSort.MergeOvertakes`).
- The installer pairs files and ids by arrival (`Provisioning.InstallerPairsByArrival`), and provisioning
  stays unfinished exactly when a file to install is empty or a file to clone is missing.
- Two properties bound both ways after construction only do not agree (`PropertyGraph.TwoWayBindingAgrees`).
- A managed synchronizer drops half of its actions (`Synchronization.ManagedRunsHalf`), and surplus
  reports complete again (`Synchronization.SurplusReportsCompleteAgain`).
- An import of resources is rejected, in part done, when a new one has a taken name, by a stored resource
  or by an earlier one of the same request (`ResourceImport.ImportFailsExactly`).

## Model

| member | source | states |
|---|---|---|
| `ModuleLifecycle.NothingIsLeftChanging` | management-panel/src/main/kotlin/ru/art/platform/service/ModuleManagementService.kt:25-201 | Every run of overlapping commands and callbacks from an idle store: once no job and no update reservation is left, a module is between two states only if its installation was started and never processed; from known states every other module is RUN, STOPPED, NOT_INSTALLED or INVALID. |
| `ModuleLifecycle.NextKeepsSound` | management-panel/src/main/kotlin/ru/art/platform/service/ModuleManagementService.kt:167-201 | Every command and callback keeps the invariant that an in-progress module has a connected job of that kind, and a *_STARTED module a waiting job of that kind or an open reservation. |
| `ModuleLifecycle.RunsKeepSound` | management-panel/src/main/kotlin/ru/art/platform/service/ModuleService.kt:36-111 | The same along whole runs, from any sound state. |
| `ModuleLifecycle.GuardedWriteFindsOwnState` | management-panel/src/main/kotlin/ru/art/platform/service/ModuleManagementService.kt:167-201 | A delivery, completion or stream error that changes the store found its own module in the in-progress state of its own operation, and changes no other module. |
| `ModuleLifecycle.ProgressNeedsStart` | management-panel/src/main/kotlin/ru/art/platform/service/ModuleManagementService.kt:25-165 | Only the connection of a job of that kind on that module brings a module into the progress of that kind. |
| `ModuleLifecycle.SupersededJobsWriteNothing` | management-panel/src/main/kotlin/ru/art/platform/service/ModuleManagementService.kt:167-201 | From any state, while a module is out of the progress of a kind and no job of that kind connects, no callback of such a job changes anything, over whole runs. |
| `ModuleLifecycle.NextKeepsStates` | management-panel/src/main/kotlin/ru/art/platform/service/ModuleService.kt:36-111 | No step stores a state outside the fourteen. |
| `ModuleLifecycle.ThrowIgnoresState` | management-panel/src/main/kotlin/ru/art/platform/service/ModuleManagementService.kt:187-193 | The catch path has no guard: for every stored state an exception invalidates the module, and leaves the store as it is exactly if the module is gone or was invalidated at the same time. |
| `ModuleLifecycle.ThrowHitsRunningModule` | management-panel/src/main/kotlin/ru/art/platform/service/ModuleManagementService.kt:51-53 | A run from an idle store in which a stop whose agent did not start invalidates a module that a restart has brought to RUN. |
| `ModuleLifecycle.OnlyCommandsCreate` | management-panel/src/main/kotlin/ru/art/platform/service/ModuleService.kt:36-111 | Exactly which steps make a missing module appear; no callback is among them. |
| `ModuleLifecycle.CallbacksKeepIds` | management-panel/src/main/kotlin/ru/art/platform/service/ModuleManagementService.kt:167-201 | Along any sequence of callbacks the set of stored ids stays the same: nothing deleted is recreated. |
| `ModuleLifecycle.MissingStaysMissing` | management-panel/src/main/kotlin/ru/art/platform/service/ModuleService.kt:36-111 | A module that is not stored stays away along every run without one of the steps that create it. |
| `ModuleLifecycle.DeletedProjectStaysEmpty` | management-panel/src/main/kotlin/ru/art/platform/service/ProjectService.kt:189-193 | Once the modules of a project are deleted, among whatever else happens, each stays away along every run of commands and callbacks without a creating step for its id. |
| `ModuleLifecycle.CallbacksCreateNothing` | management-panel/src/main/kotlin/ru/art/platform/service/ModuleManagementService.kt:167-201 | Runs of callbacks are such runs. |
| `ModuleLifecycle.ProcessingRevives` | management-panel/src/main/kotlin/ru/art/platform/service/ModuleService.kt:41-44 | A run in which a processing command brings a deleted module back, started and with a job. |
| `ModuleLifecycle.CompletionWrites` | management-panel/src/main/kotlin/ru/art/platform/service/ModuleManagementService.kt:195-201 | A completion that finds its module in progress leaves RUN for install, update and restart, STOPPED for stop and NOT_INSTALLED for uninstall, at its time, and changes nothing else; otherwise it changes no module. |
| `ModuleLifecycle.ErrorWrites` | management-panel/src/main/kotlin/ru/art/platform/service/ModuleManagementService.kt:178-185 | A stream error leaves INVALID under the same guard. |
| `ModuleLifecycle.RestIsCaused` | management-panel/src/main/kotlin/ru/art/platform/service/ModuleManagementService.kt:25-201 | A module enters STOPPED exactly by the completion of a stop of it, NOT_INSTALLED exactly by that of an uninstall; what it takes to enter RUN and INVALID. |
| `ModuleLifecycle.RestHasCause` | management-panel/src/main/kotlin/ru/art/platform/service/ModuleManagementService.kt:92-165 | Over runs: a module left STOPPED or NOT_INSTALLED was so before, or a stop or an uninstall of it completed in the run. |
| `ModuleLifecycle.InstallationWrites` | management-panel/src/main/kotlin/ru/art/platform/service/ModuleService.kt:36-39 | The record an installation starts with, field by field, or the refusal for a name taken in the project. |
| `ModuleLifecycle.UpdatingWrites` | management-panel/src/main/kotlin/ru/art/platform/service/ModuleService.kt:52 | What starting an update changes and keeps, field by field. |
| `ModuleLifecycle.ProcessingWrites` | management-panel/src/main/kotlin/ru/art/platform/service/ModuleService.kt:41-57 | Processing stores what the user sent as started and launches one waiting job that captured it. |
| `ModuleLifecycle.OrderWrites` | management-panel/src/main/kotlin/ru/art/platform/service/ModuleService.kt:46-101 | The other commands put the started state of their kind and launch one waiting job. |
| `ModuleLifecycle.RewriteWrites` | management-panel/src/main/kotlin/ru/art/platform/service/ModuleService.kt:64-78 | A new version rewrites a running module as it was read, but for its artifact. |
| `ModuleLifecycle.ConnectionWrites` | management-panel/src/main/kotlin/ru/art/platform/service/ModuleManagementService.kt:36-37 | A job that connects stores exactly what it captured, as in progress of its kind. |
| `ModuleLifecycle.DeliveryWrites` | management-panel/src/main/kotlin/ru/art/platform/service/ModuleManagementService.kt:167-171 | A delivery stores exactly what the agent sent, under the guard, and nothing else. |
| `ModuleLifecycle.ModuleService.StartModuleInstallation` | management-panel/src/main/kotlin/ru/art/platform/service/ModuleService.kt:36-39 | Refuses exactly a name taken in the project; otherwise stores the new module under a fresh id. The new state is that of the step system. |
| `ModuleLifecycle.ModuleService.ProcessModuleInstallation` | management-panel/src/main/kotlin/ru/art/platform/service/ModuleService.kt:41-44 | Stores the module as started and launches the job that captured it, whatever is stored under the id. |
| `ModuleLifecycle.ModuleService.StartModuleUpdating` | management-panel/src/main/kotlin/ru/art/platform/service/ModuleService.kt:52 | Fails exactly on a missing module, else rewrites it as update-started. |
| `ModuleLifecycle.ModuleService.ProcessModuleUpdating` | management-panel/src/main/kotlin/ru/art/platform/service/ModuleService.kt:54-57 | Stores the module as started and launches the update job. |
| `ModuleLifecycle.ModuleService.OrderOperation` | management-panel/src/main/kotlin/ru/art/platform/service/ModuleService.kt:46-50 | Reinstall, refresh, stop, restart and uninstall: fail exactly on a missing module, else put the started state and launch. |
| `ModuleLifecycle.ModuleService.DeleteModule` | management-panel/src/main/kotlin/ru/art/platform/service/ModuleService.kt:103 | Removes the record only. |
| `ModuleLifecycle.ModuleService.DeleteProjectModules` | management-panel/src/main/kotlin/ru/art/platform/service/ModuleService.kt:107 | The loop leaves exactly the modules of other projects, and is a run of single deletions. |
| `ModuleLifecycle.ModuleService.FailChangingModules` | management-panel/src/main/kotlin/ru/art/platform/service/ModuleService.kt:109-111 | Uninterrupted, the loop turns exactly the changing modules invalid; it is a run of one read and a put for each. |
| `ModuleLifecycle.ModuleService.UpdateModule` | management-panel/src/main/kotlin/ru/art/platform/service/ModuleManagementService.kt:173-176 | Writes only over a stored module. |
| `ModuleLifecycle.ModuleService.UpdateModuleInState` | management-panel/src/main/kotlin/ru/art/platform/service/ModuleManagementService.kt:167-171 | Writes only over a stored module in the given state. |
| `ModuleLifecycle.ModuleService.FinishModule` | management-panel/src/main/kotlin/ru/art/platform/service/ModuleManagementService.kt:195-201 | Moves the stored module from the given state to the final one, with a time stamp, or does nothing. |
| `ModuleLifecycle.ModuleService.HandleModuleError` | management-panel/src/main/kotlin/ru/art/platform/service/ModuleManagementService.kt:187-193 | Invalidates a stored module whatever its state. |
| `ModuleLifecycle.ModuleService.ConnectJob` | management-panel/src/main/kotlin/ru/art/platform/service/ModuleManagementService.kt:35-37 | The in-progress record is written if the module still exists. |
| `ModuleLifecycle.ModuleService.OnNext` | management-panel/src/main/kotlin/ru/art/platform/service/ModuleManagementService.kt:50 | Replaces the module by the one sent exactly if it is still in the progress of the job. |
| `ModuleLifecycle.ModuleService.OnComplete` | management-panel/src/main/kotlin/ru/art/platform/service/ModuleManagementService.kt:49 | Ends the job, and moves the module to the final state of its kind exactly if it is still in its progress. |
| `ModuleLifecycle.ModuleService.OnError` | management-panel/src/main/kotlin/ru/art/platform/service/ModuleManagementService.kt:48 | Ends the job, and invalidates the module exactly if it is still in its progress. |
| `ModuleLifecycle.ModuleService.OnException` | management-panel/src/main/kotlin/ru/art/platform/service/ModuleManagementService.kt:51-53 | Ends the job, and invalidates the module if it is stored. |
| `AgentTasks.EndedStaysEnded` | management-panel/src/main/kotlin/ru/art/platform/service/ProjectAssemblyService.kt:98-153 | DONE, FAILED and CANCELED are absorbing: in every run without the put of a rebuild of the task its record stays exactly as it ended, or the task is deleted. |
| `AgentTasks.OneEndPerIncarnation` | management-panel/src/main/kotlin/ru/art/platform/service/AssemblyService.kt:39-74 | Over any run the ends recorded for a task never outnumber its beginnings (creation or put of a rebuild). |
| `AgentTasks.EndNeedsBegin` | management-panel/src/main/kotlin/ru/art/platform/service/ProjectAssemblyService.kt:121-153 | The one-step balance of ends and beginnings. |
| `AgentTasks.StaleRunnerEndsRebuild` | management-panel/src/main/kotlin/ru/art/platform/service/ProjectAssemblyService.kt:121-153 | The guard is not per runner: after the put of a rebuild some run without another one lets a runner other than the new one end the new incarnation, if and only if a runner of the task was left over. |
| `AgentTasks.StaleRunnerIsReached` | management-panel/src/main/kotlin/ru/art/platform/service/AssemblyService.kt:60-74 | A run from the empty store to such a state. |
| `AgentTasks.NextKeepsSound` | management-panel/src/main/kotlin/ru/art/platform/service/ProjectAssemblyService.kt:40-78 | Every step keeps ids and numbers in use below the next ones, tasks under their own keys, and a task known with one scope only, stored or captured. |
| `AgentTasks.NextKeepsEnded` | management-panel/src/main/kotlin/ru/art/platform/service/ProjectAssemblyService.kt:98-153 | No single step but the put of its rebuild changes an ended task. |
| `AgentTasks.NextKeepsMissing` | management-panel/src/main/kotlin/ru/art/platform/service/ProjectLoadTestingService.kt:78-132 | A step brings back a task that is not stored if and only if it puts a rebuild of it. |
| `AgentTasks.DeletedStaysDeleted` | management-panel/src/main/kotlin/ru/art/platform/service/AssemblyService.kt:60-74 | A deleted assembly or load test stays deleted along every run of commands and callbacks, unless a rebuild of it was between its cancellation and its put. |
| `AgentTasks.DeletedComesBack` | management-panel/src/main/kotlin/ru/art/platform/service/AssemblyService.kt:60-74 | Some run brings a deleted task back if and only if such a put was due. |
| `AgentTasks.DueRebuildIsReached` | management-panel/src/main/kotlin/ru/art/platform/service/AssemblyService.kt:60-74 | A run from the empty store to such a state. |
| `AgentTasks.CallbacksKeepKeys` | management-panel/src/main/kotlin/ru/art/platform/service/ProjectLoadTestingService.kt:78-132 | Callbacks alone neither create nor delete. |
| `AgentTasks.DeletedProjectStaysEmpty` | management-panel/src/main/kotlin/ru/art/platform/service/ProjectService.kt:189-193 | Once the assemblies of a project are deleted, among whatever else happens, each is gone for every continuation, unless its rebuild is put meanwhile or is due. |
| `AgentTasks.EndsAreCaused` | management-panel/src/main/kotlin/ru/art/platform/service/ProjectAssemblyService.kt:121-153 | A stored task becomes DONE exactly by the completion of a runner of it that finds it running, FAILED exactly by such an error, CANCELED exactly by a cancellation that finds it running. |
| `AgentTasks.EndsWrite` | management-panel/src/main/kotlin/ru/art/platform/service/ProjectAssemblyService.kt:121-153 | An end changes the state and the end time only. |
| `AgentTasks.EndsHaveCauses` | management-panel/src/main/kotlin/ru/art/platform/service/ProjectLoadTestingService.kt:101-132 | Over runs: a task left DONE, FAILED or CANCELED was so before, or was ended so in the run. |
| `AgentTasks.ProgressWrites` | management-panel/src/main/kotlin/ru/art/platform/service/ProjectAssemblyService.kt:98-119 | What connecting, events, checks and disposal store while the task runs, and that they store nothing otherwise. |
| `AgentTasks.SameUpToArtifacts` | management-panel/src/main/kotlin/ru/art/platform/service/ProjectAssemblyService.kt:105 | An event of an assembly is ignored exactly if it differs in artifacts and configurations only; of a load test, if it does not differ. |
| `AgentTasks.CheckWrites` | management-panel/src/main/kotlin/ru/art/platform/service/ProjectAssemblyService.kt:45-53 | A runner moves to its next stage exactly if its task is stored and not canceled, and else is gone. |
| `AgentTasks.RunnerMoves` | management-panel/src/main/kotlin/ru/art/platform/service/ProjectAssemblyService.kt:65-76 | A callback moves its own runner only: connected it streams, ended or disposed of it is gone. |
| `AgentTasks.RebuildReads` | management-panel/src/main/kotlin/ru/art/platform/service/AssemblyService.kt:61-64 | A rebuild keeps what it reads, and cancels it exactly if it reads it running. |
| `AgentTasks.RebuildWrites` | management-panel/src/main/kotlin/ru/art/platform/service/AssemblyService.kt:65-73 | The put of a rebuild, field by field. |
| `AgentTasks.CreationWrites` | management-panel/src/main/kotlin/ru/art/platform/service/AssemblyService.kt:33-35 | The record a build or a load test starts with, and its runner. |
| `BuildSupersession.BuildWrites` | management-panel/src/main/kotlin/ru/art/platform/service/AssemblyService.kt:29-37 | A build changes an old task exactly if it is a running assembly of the same project and version whose configurations are all among the new ones; that becomes CANCELED now, every other record stays equal, and one assembly is new. |
| `BuildSupersession.NextKeepsCovered` | management-panel/src/main/kotlin/ru/art/platform/service/AssemblyService.kt:78-83 | Whatever a pending build is going to cancel is an assembly of its project and version within its configurations. |
| `BuildSupersession.RunsKeepCovered` | management-panel/src/main/kotlin/ru/art/platform/service/AssemblyService.kt:30-32 | The same along whole runs. |
| `BuildSupersession.SupersededBuildsDoNotRun` | management-panel/src/main/kotlin/ru/art/platform/service/AssemblyService.kt:29-37 | In every run without rebuild puts in which no scan meets a clashing build between scan and put, no running build has all its configurations covered by a newer running one. Builds clash if they are for one project and version and one covers the configurations of the other. |
| `BuildSupersession.SupersessionFailsByClash` | management-panel/src/main/kotlin/ru/art/platform/service/AssemblyService.kt:29-33 | From a state that meets supersession some continuation without scans and rebuild puts breaks it if and only if two pending builds clash whose victims are all stored. |
| `BuildSupersession.ScanOpensBreach` | management-panel/src/main/kotlin/ru/art/platform/service/AssemblyService.kt:30-33 | A scan makes such a continuation possible if and only if it meets a clashing build. |
| `BuildSupersession.ClashingBuildsBothRun` | management-panel/src/main/kotlin/ru/art/platform/service/AssemblyService.kt:30-37 | Any two pending clashing builds that can finish have a run after which both assemblies run. |
| `BuildSupersession.ClashIsReached` | management-panel/src/main/kotlin/ru/art/platform/service/AssemblyService.kt:29-30 | Any two clashing scopes reach such a state from the empty store. |
| `BuildSupersession.NextKeepsSupersession` | management-panel/src/main/kotlin/ru/art/platform/service/AssemblyService.kt:78-83 | One step of the above. |
| `BuildSupersession.NextKeepsVictims` | management-panel/src/main/kotlin/ru/art/platform/service/AssemblyService.kt:29-32 | A pending build always still knows every running build it has to cancel, and pending builds do not clash. |
| `BuildSupersession.AtomicBuildIsRun` | management-panel/src/main/kotlin/ru/art/platform/service/AssemblyService.kt:29-37 | A build that nothing interleaves with is a run of its scan, its cancellations and its put. |
| `BuildSupersession.AtomicBuildKeeps` | management-panel/src/main/kotlin/ru/art/platform/service/AssemblyService.kt:29-37 | Such a build keeps the supersession property. |
| `AgentTaskServices.TaskService.BuildProject` | management-panel/src/main/kotlin/ru/art/platform/service/AssemblyService.kt:29-37 | Cancels exactly the superseded running builds, then stores and launches a fresh assembly; keeps supersession. |
| `AgentTaskServices.TaskService.CancelSuperseded` | management-panel/src/main/kotlin/ru/art/platform/service/AssemblyService.kt:30-32 | The loop over the running builds of the scope cancels each of them, whatever the order. |
| `AgentTaskServices.TaskService.CancelTask` | management-panel/src/main/kotlin/ru/art/platform/service/AssemblyService.kt:39-58 | Ends a running task as canceled, returns an ended one as it is, and fails exactly on a missing one. |
| `AgentTaskServices.TaskService.RebuildProject` | management-panel/src/main/kotlin/ru/art/platform/service/AssemblyService.kt:60-74 | Uninterrupted, restarts a stored task with new time stamp, log and no artifacts; fails exactly on a missing one; it is a run of read, cancellation and put. |
| `AgentTaskServices.TaskService.DeleteProjectAssemblies` | management-panel/src/main/kotlin/ru/art/platform/service/AssemblyService.kt:101-106 | The loop removes exactly the assemblies of the project, and is a run of cancellations and deletions. |
| `AgentTaskServices.TaskService.StopRunningAssemblies` | management-panel/src/main/kotlin/ru/art/platform/service/AssemblyService.kt:89-93 | The loop cancels exactly the running assemblies, and is a run of cancellations. |
| `AgentTaskServices.TaskService.CheckRunner` | management-panel/src/main/kotlin/ru/art/platform/service/ProjectAssemblyService.kt:45-53 | The runner goes on exactly if its task is stored and not canceled. |
| `AgentTaskServices.TaskService.UpdateTask` | management-panel/src/main/kotlin/ru/art/platform/service/ProjectAssemblyService.kt:115-119 | Writes only over a running task. |
| `AgentTaskServices.TaskService.EndTask` | management-panel/src/main/kotlin/ru/art/platform/service/ProjectAssemblyService.kt:121-153 | Ends a running task and no other. |
| `AgentTaskServices.TaskService.OnEvent` | management-panel/src/main/kotlin/ru/art/platform/service/ProjectAssemblyService.kt:98-113 | A running task that differs from the event in the compared fields is replaced, as building. |
| `AgentTaskServices.TaskService.OnComplete` | management-panel/src/main/kotlin/ru/art/platform/service/ProjectLoadTestingService.kt:120-132 | Ends the runner, and its task as done exactly if that is running. |
| `AgentTaskServices.TaskService.OnError` | management-panel/src/main/kotlin/ru/art/platform/service/ProjectLoadTestingService.kt:101-118 | Ends the runner, and its task as failed exactly if that is running. |
| `CreditFlow.CreditIsBounded` | management-panel/src/main/kotlin/ru/art/platform/extensions/ReactiveExtensions.kt:22-51 | For every window and interleaving of emit, decrement, add and request: at most one refill under way, outstanding credit between zero and one and a half windows, above half a window when no refill is under way, and something can always happen. |
| `CreditFlow.NextKeepsBalance` | management-panel/src/main/kotlin/ru/art/platform/extensions/ReactiveExtensions.kt:25-29 | The counter tracks the outstanding credit through every single action. |
| `CreditFlow.SourceKeepsEmitting` | management-panel/src/main/kotlin/ru/art/platform/extensions/ReactiveExtensions.kt:22-35 | In any run at least a quarter of the actions, after the backlog, are emissions: the source never stalls. |
| `CreditFlow.ChunkedSource.OnNext` | management-panel/src/main/kotlin/ru/art/platform/extensions/ReactiveExtensions.kt:25-29 | One element lowers the counter, and requests a window exactly when credit falls to half a window. |
| `Chunking.Chunks` | management-panel/src/main/web/src/framework/extensions/extensions.ts:107-112 | The loop computes the chunks of the payload. |
| `Chunking.FlattenChunks` | management-panel/src/main/web/src/framework/extensions/extensions.ts:107-112 | Joining the chunks gives the payload back. |
| `Chunking.ChunkAt` | management-panel/src/main/web/src/framework/extensions/extensions.ts:107-112 | Chunk k is the stretch from k times the size, and no chunk is empty. |
| `FileUpload.UploadStoresPayload` | management-panel/src/main/kotlin/ru/art/platform/service/FileService.kt:46-66 | For every payload, chunk size, window and interleaving: bounded run, no deadlock before the outcome, emission within the grants, completion only after the last chunk, and the stored bytes equal the payload with no other file touched; the empty payload, and only it, crashes instead. |
| `FileUpload.StepKeeps` | management-panel/src/main/kotlin/ru/art/platform/service/FileService.kt:46-66 | Every event conserves the chunks: buffer, chunk in hand, wire and queue are the payload in order. |
| `FileUpload.NoDeadlock` | management-panel/src/main/web/src/client/PlatformClient.ts:183-200 | Until the server has closed the stream some event is enabled. |
| `FileUpload.StepWorks` | management-panel/src/main/web/src/client/PlatformClient.ts:183-200 | Every event lowers a measure. |
| `FileUpload.SourceHoldsPayload` | management-panel/src/main/web/src/api/FileApi.ts:12-22 | The chunks sent are non-empty, bear the id of the file, and join to the payload. |
| `FileUpload.ChunkPublisher.Request` | management-panel/src/main/web/src/client/PlatformClient.ts:183-199 | One request emits the next chunks in order, and completes exactly if asked beyond the last one. |
| `FileUpload.UploadHandler.WriteChunk` | management-panel/src/main/kotlin/ru/art/platform/service/FileService.kt:50-53 | Appends the bytes of the chunk and remembers it. |
| `FileUpload.UploadHandler.WriteFile` | management-panel/src/main/kotlin/ru/art/platform/service/FileService.kt:54-63 | Stores the buffer under the id of the last chunk, or fails without touching files exactly if there was none. |
| `LegacyMergeSort.SortOrders` | management-panel/src/main/kotlin/ru/art/platform/module/ManagementPanelModule.kt:34 | The JDK's legacy merge sort orders by a transitive relation any list on which the comparator, though not symmetric, decides it on every pair: a positive result puts the second first, any other keeps the order. |
| `LegacyMergeSort.SortPermutes` | management-panel/src/main/kotlin/ru/art/platform/module/ManagementPanelModule.kt:34 | The sort permutes its input for any comparator whatever. |
| `LegacyMergeSort.MergeOrders` | management-panel/src/main/kotlin/ru/art/platform/module/ManagementPanelModule.kt:34 | Merging two ordered runs gives an ordered run. |
| `LegacyMergeSort.SortIsStable` | management-panel/src/main/kotlin/ru/art/platform/module/ManagementPanelModule.kt:34 | Elements none of which has to give way to another, nor to what is ordered before one of them, keep the order they had in the list. |
| `LegacyMergeSort.SortKeepsOrdered` | management-panel/src/main/kotlin/ru/art/platform/module/ManagementPanelModule.kt:34 | A list in which no element has to give way to a later one is left as it is. |
| `LegacyMergeSort.ShortListAppends` | management-panel/src/main/kotlin/ru/art/platform/module/ManagementPanelModule.kt:34 | Below seven elements the sort inserts: an element that need not give way to the last one is appended. |
| `LegacyMergeSort.MergeOvertakes` | management-panel/src/main/kotlin/ru/art/platform/module/ManagementPanelModule.kt:34 | From seven on it merges: a later element can overtake one that need not give way to it, which inserting would not do. |
| `ModuleFilter.UnsortedQueryKeepsOrder` | management-panel/src/main/kotlin/ru/art/platform/filter/ModuleFilter.kt:13-27 | An unsorted result is what the branch reads, in that order, without what does not match. |
| `ModuleFilter.SortedQuerySorts` | management-panel/src/main/kotlin/ru/art/platform/filter/ModuleFilter.kt:69-125 | A sorted result is the legacy sort of the unsorted one. |
| `ModuleFilter.IdsInOrder` | management-panel/src/main/kotlin/ru/art/platform/filter/ModuleFilter.kt:16-17 | Ids are answered one by one, in the order of the request. |
| `ModuleFilter.ProjectsInOrder` | management-panel/src/main/kotlin/ru/art/platform/filter/ModuleFilter.kt:18-19 | Projects are read one after the other, each in stored order. |
| `ModuleFilter.TiesKeepOrder` | management-panel/src/main/kotlin/ru/art/platform/filter/ModuleFilter.kt:69-125 | Modules of one of the last four ranks and one update time keep their order. |
| `ModuleFilter.FilterIsConjunction` | management-panel/src/main/kotlin/ru/art/platform/filter/ModuleFilter.kt:13-67 | For all criteria: the query fails exactly if a requested id is not stored; otherwise each module is returned as often as the branch reads it if it meets all non-empty criteria, a *_STARTED module matching as in progress, and not at all otherwise. |
| `ModuleFilter.FilterSelectsMatches` | management-panel/src/main/kotlin/ru/art/platform/filter/ModuleFilter.kt:13-27 | For distinct ids and project ids the result is, as a multiset, the modules that meet all criteria. |
| `ModuleFilter.SortOrdersModules` | management-panel/src/main/kotlin/ru/art/platform/filter/ModuleFilter.kt:69-125 | On known states the sort permutes and orders by rank, and by descending update time within each of the last four ranks. |
| `ModuleFilter.FilterOrders` | management-panel/src/main/kotlin/ru/art/platform/filter/ModuleFilter.kt:69-125 | The result of a sorted query is so ordered. |
| `ModuleFilter.CompareIsNotAntisymmetric` | management-panel/src/main/kotlin/ru/art/platform/filter/ModuleFilter.kt:71-124 | Exactly when the comparator answers negative both ways. |
| `ModuleFilter.UnknownStateBreaksOrder` | management-panel/src/main/kotlin/ru/art/platform/filter/ModuleFilter.kt:123 | The order needs the known states: outside them, one module leaves an invalid one before a running one. |
| `AssemblyFilter.SortedQueryReturnsNewest` | management-panel/src/main/kotlin/ru/art/platform/filter/AssemblyFilter.kt:11-53 | A sorted query returns as many matches as the limit allows, newest first, and omits no match that started later than a returned one; it fails exactly on a negative limit. |
| `AssemblyFilter.CandidatesAreMatches` | management-panel/src/main/kotlin/ru/art/platform/filter/AssemblyFilter.kt:11-44 | The candidates are the matches of all criteria, each as often as its project is requested. |
| `AssemblyFilter.FilterIsLimitedSort` | management-panel/src/main/kotlin/ru/art/platform/filter/AssemblyFilter.kt:13-22 | All four branches are the limited sort of the candidates. |
| `AssemblyFilter.UnsortedQueryReturnsPrefix` | management-panel/src/main/kotlin/ru/art/platform/filter/AssemblyFilter.kt:51-53 | Unsorted, the result is a prefix of the matches, cut only by the limit. |
| `AssemblyFilter.TiesKeepOrder` | management-panel/src/main/kotlin/ru/art/platform/filter/AssemblyFilter.kt:46-49 | Assemblies of one start time keep their order. |
| `AssemblyFilter.ProjectsInOrder` | management-panel/src/main/kotlin/ru/art/platform/filter/AssemblyFilter.kt:14-15 | Projects are read one after the other, each in stored order. |
| `PropertyGraph.PropagationIsReachability` | management-panel/src/main/web/src/framework/pattern/Property.ts:25-50 | On every finite graph of bindings, cyclic or not, and with any vetoes, setting a value terminates, and exactly the properties reachable through ones that neither hold nor veto the value take it. |
| `PropertyGraph.ComponentTakesValue` | management-panel/src/main/web/src/framework/pattern/Property.ts:37-50 | On bindings that agreed, without vetoes, exactly what is reachable holds the new value and nothing else changes. |
| `PropertyGraph.SetKeepsAgreement` | management-panel/src/main/web/src/framework/pattern/Property.ts:37-50 | Two-way bindings keep agreeing, whatever is set. |
| `PropertyGraph.TwoWayBindingAgrees` | management-panel/src/main/web/src/framework/pattern/Property.ts:62-69 | Binding two properties both ways makes them agree exactly if one was set before or they held the same value. |
| `PropertyGraph.Property.Set` | management-panel/src/main/web/src/framework/pattern/Property.ts:25-50 | The recursive setter leaves every property of the graph as the propagation says, remembers previous values exactly where values changed, and marks the value pending. |
| `PropertyGraph.Property.Notify` | management-panel/src/main/web/src/framework/pattern/Property.ts:48 | The consumers in order, each on the graph its predecessors left. |
| `PropertyGraph.Property.IsVetoed` | management-panel/src/main/web/src/framework/pattern/Property.ts:42-44 | Vetoed exactly if some action refuses the value. |
| `PropertyGraph.Property.Consume` | management-panel/src/main/web/src/framework/pattern/Property.ts:62-69 | Adds the binding and pushes a pending value through the enlarged graph. |
| `PropertyGraph.Property.Clear` | management-panel/src/main/web/src/framework/pattern/Property.ts:76-81 | Forgets value and pending value, keeps the previous one, and runs the clear actions in order. |
| `ValueBindings.PropagationReachesGoal` | management-panel/src/main/web/src/framework/pattern/Property.ts:25-50 | Consumers that set other properties to computed values: with any cycles, a set that agrees with an assignment consistent with all bindings terminates, and exactly the properties reachable over active bindings, through ones not holding theirs, take their assigned values. |
| `ValueBindings.ChoosingSettles` | management-panel/src/main/web/src/component/embeddable/gradle/GradleInitialScript.ts:53-67 | Setting the script format or checking a radio button comes to rest with the format and both buttons on the choice, whatever was chosen before. |
| `Provisioning.ProcessedOnceAfterTransfers` | management-panel/src/main/web/src/service/ModuleCloningService.ts:59-110 | For every order of serving and answering: bounded runs, the module is processed at most once and only when every transfer is stored, and, when nothing can happen any more, exactly if no file to install is empty and no empty draft to clone lacks a stored base file. |
| `Provisioning.ProcessedFilesHoldDrafts` | management-panel/src/main/web/src/service/ModuleUpdatingService.ts:26-97 | Cloning and updating with distinct draft names: when the module is processed, every listed id can be read and holds the bytes of the draft, or when that is empty of the base file, of its name. |
| `Provisioning.ProcessedModuleListsDrafts` | management-panel/src/main/web/src/service/ModuleUpdatingService.ts:29-33 | When the module is processed a draft is listed, except exactly that an update drops empty drafts that name no base file. |
| `Provisioning.UpdateListsExactly` | management-panel/src/main/web/src/service/ModuleUpdatingService.ts:26-61 | When an update is processed, with distinct names among the drafts and among the base files: no two listed files share a name, a drafted name of a base file is listed under the id of that base file, and fresh ids are listed exactly for the non-empty drafts whose name no base file has. |
| `Provisioning.NewModuleListsExactly` | management-panel/src/main/web/src/service/ModuleCloningService.ts:26-57 | A processed clone or installation lists one fresh id for every draft and nothing else. |
| `Provisioning.SurplusResponsesDoNothing` | management-panel/src/main/web/src/service/ModuleCloningService.ts:86-91 | However many responses arrive, the module is processed at the expected one and at no other. |
| `Provisioning.InstalledFilesHoldDrafts` | management-panel/src/main/web/src/service/ModuleInstallationService.ts:53-63 | The installer stores the drafts position by position. |
| `Provisioning.InstallerPairsByArrival` | management-panel/src/main/web/src/service/ModuleInstallationService.ts:28-34 | Each draft lands under an id of its own name exactly if allocation responses arrived in the order of the requests. |
| `Provisioning.SuccessIsForeseeable` | management-panel/src/main/kotlin/ru/art/platform/service/FileService.kt:40-66 | All transfers succeed exactly if a condition on the setup and the store at the start holds. |
| `Provisioning.NextKeepsAccounted` | management-panel/src/main/web/src/service/ModuleCloningService.ts:26-110 | Every step keeps ids fresh and distinct, counters equal to the responses, and data written only by served transfers. |
| `Provisioning.StuckIsDone` | management-panel/src/main/web/src/service/ModuleCloningService.ts:68-107 | When nothing can happen all allocations are answered and all transfers served and answered, or failed. |
| `Provisioning.StepWorks` | management-panel/src/main/web/src/service/ModuleCloningService.ts:26-110 | Every step lowers a measure. |
| `Provisioning.ProvisioningSession.OnAllocated` | management-panel/src/main/web/src/service/ModuleCloningService.ts:50-56 | The callback appends the id and opens the next stage at the last one. |
| `Provisioning.ProvisioningSession.OnModuleStarted` | management-panel/src/main/web/src/service/ModuleCloningService.ts:68-77 | The loop counts the transfers; with none the module is processed at once. |
| `Provisioning.ProvisioningSession.OnTransferred` | management-panel/src/main/web/src/service/ModuleCloningService.ts:86-91 | The callback processes the module at the expected count. |
| `ResourceImport.ArtifactImport.AddExternalArtifacts` | management-panel/src/main/kotlin/ru/art/platform/service/ProjectService.kt:116-187 | Existing resources are unchanged. The request fails on a taken name exactly if a new resource collides, and otherwise exactly if an artifact has an unknown resource type, and then stores no artifact; else every artifact is stored, pointing to a local resource with the coordinates of the requested one, or to none if none was requested. |
| `ResourceImport.MatchDecides` | management-panel/src/main/kotlin/ru/art/platform/service/ProjectService.kt:120-136 | By position: a resource is kept exactly if the first one read at its coordinates has its id, and else loses its name exactly if that one has it. |
| `ResourceImport.NoMatchDecides` | management-panel/src/main/kotlin/ru/art/platform/service/ProjectService.kt:137-143 | With nothing read at its coordinates a resource is stored anew, and loses its name exactly if any has it. |
| `ResourceImport.ResourceRepository.PutNew` | management-panel/src/main/kotlin/ru/art/platform/configurator/TarantoolConfigurator.kt:74-85 | Fails without a write exactly on a taken name, else stores under a fresh id; names stay unique. |
| `ResourceImport.ResourceRepository.ImportOne` | management-panel/src/main/kotlin/ru/art/platform/service/ProjectService.kt:119-144 | A resource is kept exactly if the first local one at the same coordinates has its id; otherwise one new resource is stored with the same coordinates, or rejected exactly if its name is taken. |
| `ResourceImport.ResourceRepository.Import` | management-panel/src/main/kotlin/ru/art/platform/service/ProjectService.kt:119-144 | Over the growing store the loop fails exactly if some new resource has a name used at the start or put earlier in the request; else it maps exactly the requested ids, each to a local resource with the coordinates of the last one requested under that id. With one resource per coordinates, importing what is stored changes nothing and maps every id to itself. |
| `ResourceImport.ImportFailsExactly` | management-panel/src/main/kotlin/ru/art/platform/service/ProjectService.kt:119-144 | With fresh suffixes an import fails if and only if a resource stored under its own name has that of a stored one (its coordinates match one and its name another), or of an earlier resource of the request stored under its own name. |
| `ResourceImport.TwoOfOneNameCollide` | management-panel/src/main/kotlin/ru/art/platform/service/ProjectService.kt:137-143 | Two resources of one name are rejected on an empty store, though each alone is not. |
| `ResourceImport.ImportedArtifactKeepsCoordinates` | management-panel/src/main/kotlin/ru/art/platform/service/ProjectService.kt:173-186 | With distinct requested ids an artifact ends up at the coordinates of the very resource it referred to. |
| `ResourceImport.NewNameIsUsed` | management-panel/src/main/kotlin/ru/art/platform/service/ProjectService.kt:129-143 | With a free suffixed name, a new resource gets a name used at the start exactly if its coordinates match a differently named resource and its name another one. |
| `EventStream.SlotsHoldLive` | management-panel/src/main/web/src/framework/pattern/Stream.ts:26-64 | Over any subscriptions and unsubscriptions, at any indexes, the array of no-ops and handlers holds exactly the live subscriptions at their handles, in order. |
| `EventStream.HandleStaysValid` | management-panel/src/main/web/src/framework/pattern/Stream.ts:26-64 | A handle names its handler until it is unsubscribed itself, whatever else happens. |
| `EventStream.HandleStaysRemoved` | management-panel/src/main/web/src/framework/pattern/Stream.ts:48-64 | An unsubscribed handle is never handed out again and reaches nobody. |
| `EventStream.HandlesAreDistinct` | management-panel/src/main/web/src/framework/pattern/Stream.ts:26-46 | No two live subscriptions share a handle. |
| `EventStream.NotifyAll` | management-panel/src/main/web/src/framework/pattern/Stream.ts:69 | The loop calls exactly the handlers in order. |
| `EventStream.Stream.ProduceEvent` | management-panel/src/main/web/src/framework/pattern/Stream.ts:66-81 | An event calls exactly the live subscriptions to its type, for updates then to its entity, in the order of subscription. |
| `EventStream.Stream.SubscribeOnAdd` | management-panel/src/main/web/src/framework/pattern/Stream.ts:26-28 | Returns the next handle of its list. |
| `EventStream.Stream.SubscribeOnDelete` | management-panel/src/main/web/src/framework/pattern/Stream.ts:30-32 | Returns the next handle of its list. |
| `EventStream.Stream.SubscribeOnUpdateSingle` | management-panel/src/main/web/src/framework/pattern/Stream.ts:34-40 | Returns the next handle of the list of its entity, which it opens if needed. |
| `EventStream.Stream.SubscribeOnUpdateMany` | management-panel/src/main/web/src/framework/pattern/Stream.ts:42-44 | Returns the next handle of its list. |
| `EventStream.Stream.UnsubscribeFromUpdateSingle` | management-panel/src/main/web/src/framework/pattern/Stream.ts:58-62 | Removes a handle of a known entity and ignores unknown ones. |
| `Synchronization.UnmanagedCompletesOnce` | management-panel/src/main/web/src/framework/pattern/Synchronizer.ts:23-59 | For every interleaving of calls and reports of at least one action: completion has fired, once, exactly when all actions have reported, `done` says the same, runs are bounded and end completed. |
| `Synchronization.ManagedRunsHalf` | management-panel/src/main/web/src/framework/pattern/Synchronizer.ts:31-35 | Managed, completion fires once, when half of the actions, rounded up, have run; the others never run. |
| `Synchronization.ManagedRunsAll` | management-panel/src/main/web/src/framework/pattern/Synchronizer.ts:45-57 | A managed synchronizer runs all its actions exactly if there is one. |
| `Synchronization.NothingToStart` | management-panel/src/main/web/src/framework/pattern/Synchronizer.ts:23-27 | Without actions a start completes at once and `done` stays false. |
| `Synchronization.SurplusReportsCompleteAgain` | management-panel/src/main/web/src/framework/pattern/Synchronizer.ts:43-49 | Every surplus report fires completion again. |
| `Synchronization.StartedIsRun` | management-panel/src/main/web/src/framework/pattern/Synchronizer.ts:23-36 | Whatever actions report before they return, a start is one of the runs above. |
| `Synchronization.ProcessedIsRun` | management-panel/src/main/web/src/framework/pattern/Synchronizer.ts:43-59 | The same for a report with the synchronous reports it sets off. |
| `Synchronization.Synchronizer.Start` | management-panel/src/main/web/src/framework/pattern/Synchronizer.ts:23-36 | The start with its loop, including the reports of actions that do not wait. |
| `Synchronization.Synchronizer.Process` | management-panel/src/main/web/src/framework/pattern/Synchronizer.ts:43-59 | One report and the chain of actions it sets off. |

## Left out

- The user interface, and the foreign code behind RSocket, Tarantool, msgpack, JWT, Git and OpenShift.
- Logs, notifications, report archives and update events: no state of the model depends on them.
- Destroying and disconnecting agents, and the registries of subscriptions: state safety only; in the
  window between the second cancellation check and the connection agents can leak.
- `updateModulesVersion` as one command: it is the steps that rewrite an artifact and process an update.
- ModuleLifecycle.ModuleService.OrderOperation: one method stands for the five commands, which differ in the state they put.
- The load-test stream shares one requester between all tests; the credit claims are about one stream with its own.
- `PreparedConfigurationFilter`, which ignores the names when no project is given: a simple filter with no harder property.
- `getLatestAssembledArtifacts` and `getAssembledProjectArtifacts`: single expressions over a read.
- Setting a property to `undefined`, for which the equality check is skipped.
- ValueBindings: the consumers of the script editor, which read another property than the one they consume, and sets that no consistent assignment agrees with, for which termination is not claimed.
- Property.Set: does not model the cloning of values; values are immutable here.
- Provisioning: the error responses of allocation and of starting the module (a taken name) end a session and are not steps.
- EventStream.Stream: handlers do not call the bus back while it notifies them.
- Synchronization.Synchronizer.Start: actions call `process` and nothing else of the synchronizer; the composition order of start and completion handlers is not modelled.
- FileUpload: the encoding and framing of chunks, and the first payload of a channel, which the server library takes apart.
- LegacyMergeSort: the sort is modelled on sequences; the JDK's own array code is not part of the repository, and its two buffers are not modelled.
