/** The phases a Backup object moves through, shared by the queue, operations and finalizer models. */
module BackupPhases {

  datatype Phase =
    | Unset
    | New
    | Queued
    | ReadyToStart
    | InProgress
    | FailedValidation
    | WaitingForPluginOperations
    | WaitingForPluginOperationsPartiallyFailed
    | Finalizing
    | FinalizingPartiallyFailed
    | Completed
    | PartiallyFailed
    | Failed
  {
    /** Not yet seen by the queue controller. */
    predicate IsNew() {
      Unset? || New?
    }

    /** Holds one of the concurrent slots. */
    predicate IsRunning() {
      ReadyToStart? || InProgress?
    }

    predicate IsTerminal() {
      Completed? || PartiallyFailed? || Failed? || FailedValidation?
    }

    /** Past the initial run, but not terminal yet. */
    predicate IsPostProcessing() {
      || WaitingForPluginOperations? || WaitingForPluginOperationsPartiallyFailed?
      || Finalizing? || FinalizingPartiallyFailed?
    }
  }
}
