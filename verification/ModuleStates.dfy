/** The states of a module, which the lifecycle writes and the filter reads. */
module ModuleStates {

  /** The five operations a user can start on a module. */
  datatype Operation = Install | Update | Stop | Restart | Uninstall

  /** The fourteen state constants; a stored string that is none of them is `Unknown`. */
  datatype ModuleState =
    | Started(started: Operation)       // INSTALLATION_STARTED, UPDATE_STARTED, STOP_STARTED, ...
    | InProgress(operation: Operation)  // INSTALLING, UPDATING, STOPPING, RESTARTING, UNINSTALLING
    | NotInstalled
    | Invalid
    | Stopped
    | Run
    | Unknown(name: string)

  predicate IsSettled(state: ModuleState) {
    state in {NotInstalled, Invalid, Stopped, Run}
  }

  predicate IsChanging(state: ModuleState) {
    state.Started? || state.InProgress?
  }
}
