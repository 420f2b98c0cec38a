/** Success-or-error values, standing for Python and JavaScript calls that may raise. */
module Results {

  datatype Option<+T> = None | Some(value: T)

  datatype Result<+T, +E> = Ok(value: T) | Err(error: E)

  /** The exceptions raised by the knowledge modules, named after their messages. */
  datatype Error =
    | KnowledgeIdAndReasonRequired
    | InvalidLifecycleTransition
    | InvalidTargetState
    | InvalidInitialState
    | InvalidStoredState
    | InvalidStoredPayload
    | KnowledgeIdRequired
    | KnowledgeIdAndTitleRequired
    | KnowledgeNotFound
    | KnowledgeAlreadyExists
    | EventIdRequired
    | EventAlreadyLogged
    | LifecycleEventExists
    | LifecycleEventMustChangeState
    | HandlerFailed
    | SequenceMustBePositive
    | SequenceMustNotBeNegative
    | StateTransitionMustChangeState
    | EventSequenceMustBeMonotonic
    | StateReconstructionMismatch
    | SequenceMismatch
    | EventLogSequenceOrEventInvalid
    | IncrementalReplaySequenceMismatch
    | EventLogGapDuringFullRecovery
    | EventLogEndsBeforeTargetSequence
    | TargetSequenceMustNotBeNegative
    | SnapshotSequenceMustNotBeNegative
    | InvalidSnapshot
    | SnapshotIntegrityCheckFailed
    | PersistedEventLogSequenceGap
    | IntegrityError
    | BackendFailure
}
