/** The process runner of executil/executil.go: it turns the way `cmd.Run()`
    ended into an exit status and an error, keeping "could not run" apart from
    "ran and exited with a non-zero code". */
module ExecUtil {
  import opened Wrappers
  import opened GoLib

  /** An `*exec.ExitError`. `waitStatus` is `Some(c)` when its `Sys()` is a
      `syscall.WaitStatus` whose `ExitStatus()` is `c`, and `None` on a
      system where it is something else. */
  datatype ExitError = ExitError(waitStatus: Option<int>)

  /** How `cmd.Run()` ended: with no error, with an `*exec.ExitError`, or with
      any other error (the program could not be started, say). */
  datatype RunOutcome =
    | Completed
    | Exited(exitError: ExitError)
    | Failed(err: Error)

  /** The `ExitStatus` record; `exitError` is `None` for a nil pointer. */
  datatype ExitStatus = ExitStatus(exitCode: int, exitError: Option<ExitError>)

  /** The pair `(*ExitStatus, error)` that `Run` returns; `None` is nil. */
  datatype RunResult = RunResult(status: Option<ExitStatus>, err: Option<Error>)

  const UNIMPLEMENTED_MESSAGE := "Unimplemented for system where exec.ExitError.Sys() is not syscall.WaitStatus."

  /** `executil.Run`, given how `cmd.Run()` ended. */
  function Run(outcome: RunOutcome): (r: RunResult)
    // a nil error always comes with a status
    ensures r.err.None? ==> r.status.Some?
    // no status exactly when the command did not run to an exit
    ensures r.status.None? <==> outcome.Failed?
    ensures outcome.Failed? ==> r.err == Some(outcome.err)
    // the ExitError is kept exactly in the two exit-error cases
    ensures r.status.Some? ==>
              (r.status.value.exitError.Some? <==> outcome.Exited?) &&
              (outcome.Exited? ==> r.status.value.exitError == Some(outcome.exitError))
    // a non-zero exit is not an error: the error is nil exactly when a code is known
    ensures r.err.None? <==> outcome.Completed? || (outcome.Exited? && outcome.exitError.waitStatus.Some?)
    // the code reported is the wait status's, and 0 whenever none is known
    ensures r.status.Some? ==>
              r.status.value.exitCode ==
                (if outcome.Exited? && outcome.exitError.waitStatus.Some? then outcome.exitError.waitStatus.value else 0)
    ensures outcome.Exited? && outcome.exitError.waitStatus.None? ==> r.err == Some(Errorf(UNIMPLEMENTED_MESSAGE))
  {
    match outcome
    case Failed(err) => RunResult(None, Some(err))
    case Exited(e) =>
      if e.waitStatus.Some? then RunResult(Some(ExitStatus(e.waitStatus.value, Some(e))), None)
      else RunResult(Some(ExitStatus(0, Some(e))), Some(Errorf(UNIMPLEMENTED_MESSAGE)))
    case Completed => RunResult(Some(ExitStatus(0, None)), None)
  }

  /** The command ran and `Run` reports exit code 0 with a nil error: what
      every caller in the core takes as success. */
  predicate ExitedZero(outcome: RunOutcome)
  {
    var r := Run(outcome);
    r.err.None? && r.status.value.exitCode == 0
  }

  /** Success means the command completed, or its exit error carries the wait
      status 0; a launch failure or an undecodable exit is never success. */
  lemma ExitedZeroCases(outcome: RunOutcome)
    ensures ExitedZero(outcome) <==> outcome == Completed || outcome == Exited(ExitError(Some(0)))
  {
    if outcome.Exited? && outcome.exitError.waitStatus.Some? {
      assert outcome == Exited(ExitError(Some(outcome.exitError.waitStatus.value)));
    }
  }
}
