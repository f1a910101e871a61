/** Messages between validator and agent, and the agent's job dispatcher
    (api/devops/v1/devops.proto, internal/maintenance/dispatcher.go). */
module Protocol {
  import opened Common

  type Byte = bv8

  datatype JobState =
    | Unspecified | Queued | Dispatched | Running | Succeeded
    | Failed | Cancelled | TimedOut | UnknownResult | Rejected

  /** States 2 and 3: the only ones a guarded update may leave. */
  predicate Open(s: JobState) {
    s == Dispatched || s == Running
  }

  datatype Operation =
    | ArbitraryCommand(command: string)
    | Reboot(target: string, confirmation: string)
    | CleanupRun
    | Typed(argv: seq<string>)  // the argv of the typed operation, [] when its arguments are invalid
    | CleanupPreview
    | NoOperation

  datatype Job = Job(
    id: string, actor: string, agent: string, created: int, deadline: int, confirmed: bool,
    operation: Operation, attempt: nat, dispatchId: string, key: string)

  datatype ErrorCode = DeadlineExceededCode | InvalidArgument | Unsupported | Internal

  datatype JobResult = JobResult(
    jobId: string, state: JobState, dispatchId: string, attempt: nat,
    output: seq<Byte>, truncated: bool, exitCode: int, error: Option<ErrorCode>)

  datatype Message =
    | JobMessage(job: Job)
    | CancelMessage(jobId: string, requestId: string)
    | PrepareMessage(sessionId: string, key: seq<Byte>, expires: int, port: nat, token: seq<Byte>)
    | CloseMessage(sessionId: string)
    | TunnelMessage(sessionId: string, token: seq<Byte>)

  predicate ForSsh(m: Message) {
    m.PrepareMessage? || m.CloseMessage? || m.TunnelMessage?
  }

  datatype RunError = NoError | Canceled | DeadlineExceeded | OtherError

  /** What running a command line gave. */
  datatype Outcome = Outcome(output: seq<Byte>, exitCode: int, truncated: bool, err: RunError)

  /** The checks before anything runs: the command line, or why there is none. */
  function Argv(job: Job): Result<seq<string>> {
    match job.operation
    case ArbitraryCommand(command) =>
      if command == "" || !job.confirmed then Err("invalid") else Ok(["/bin/sh", "-c", command])
    case Reboot(target, confirmation) =>
      if target != job.agent || confirmation == "" then Err("invalid") else Ok(["systemctl", "reboot"])
    case Typed(argv) => if argv == [] then Err("invalid") else Ok(argv)
    case CleanupRun => Err("unsupported")
    case CleanupPreview => Err("unsupported")
    case NoOperation => Err("unsupported")
  }

  /** The job gets as far as the runner. */
  predicate Reached(job: Job, contextDone: bool) {
    !contextDone && Argv(job).Ok?
  }

  /** Dispatcher.Dispatch: `contextDone` is ctx.Err() != nil on entry, `run` is what the runner gives
      if it is reached, and `ran` is the command line the runner was given. */
  method Dispatch(job: Job, contextDone: bool, run: Outcome) returns (r: JobResult, ran: Option<seq<string>>)
    ensures r == DispatchResult(job, contextDone, run)
    ensures ran.Some? <==> Reached(job, contextDone)
    ensures ran.Some? ==> Argv(job) == Ok(ran.value)
    ensures contextDone ==> ran == None
    ensures !contextDone ==> match job.operation
      case ArbitraryCommand(command) =>
        ran == if job.confirmed && command != "" then Some(["/bin/sh", "-c", command]) else None
      case Reboot(target, confirmation) =>
        ran == if job.agent == target && confirmation != "" then Some(["systemctl", "reboot"]) else None
      case Typed(argv) => ran == if |argv| > 0 then Some(argv) else None
      case _ => ran == None
    ensures r.jobId == job.id && r.dispatchId == job.dispatchId && r.attempt == job.attempt
    ensures (r.output, r.exitCode, r.truncated) ==
      if ran.Some? then (run.output, run.exitCode, run.truncated) else ([], 0, false)
    ensures r.state == Succeeded <==> ran.Some? && run.err == NoError
    ensures r.state == Failed <==> ran.Some? && run.err == OtherError
    ensures r.state == TimedOut <==> ran.Some? && run.err == DeadlineExceeded
    ensures r.state == Cancelled <==> contextDone || (ran.Some? && run.err == Canceled)
    ensures r.state == Rejected <==> !contextDone && ran.None?
    ensures r.error == Some(DeadlineExceededCode) <==> contextDone || r.state == TimedOut
    ensures r.error == Some(Internal) <==> r.state == Failed
    ensures r.error == Some(Unsupported) <==>
      !contextDone && (job.operation.CleanupRun? || job.operation.CleanupPreview? || job.operation.NoOperation?)
    ensures r.error == Some(InvalidArgument) <==> r.state == Rejected && r.error != Some(Unsupported)
  {
    ran := None;
    r := JobResult(job.id, Rejected, job.dispatchId, job.attempt, [], false, 0, None);
    if contextDone {
      return r.(state := Cancelled, error := Some(DeadlineExceededCode)), None;
    }
    var argv: seq<string> := [];
    match job.operation {
      case ArbitraryCommand(command) =>
        if command == "" || !job.confirmed {
          return r.(error := Some(InvalidArgument)), None;
        }
        argv := ["/bin/sh", "-c", command];
      case Reboot(target, confirmation) =>
        if target != job.agent || confirmation == "" {
          return r.(error := Some(InvalidArgument)), None;
        }
        argv := ["systemctl", "reboot"];
      case Typed(args) =>
        argv := args;
      case CleanupRun => return r.(error := Some(Unsupported)), None;
      case CleanupPreview => return r.(error := Some(Unsupported)), None;
      case NoOperation => return r.(error := Some(Unsupported)), None;
    }
    if |argv| == 0 {
      return r.(error := Some(InvalidArgument)), None;
    }
    ran := Some(argv);
    r := r.(exitCode := run.exitCode, truncated := run.truncated, output := run.output);
    match run.err {
      case NoError => r := r.(state := Succeeded);
      case Canceled => r := r.(state := Cancelled);
      case DeadlineExceeded => r := r.(state := TimedOut, error := Some(DeadlineExceededCode));
      case OtherError => r := r.(state := Failed, error := Some(Internal));
    }
  }

  function DispatchResult(job: Job, contextDone: bool, run: Outcome): JobResult {
    var idle := JobResult(job.id, Rejected, job.dispatchId, job.attempt, [], false, 0, None);
    if contextDone then idle.(state := Cancelled, error := Some(DeadlineExceededCode))
    else match Argv(job)
      case Err(reason) => idle.(error := Some(if reason == "invalid" then InvalidArgument else Unsupported))
      case Ok(_) =>
        var (state, error) := match run.err
          case NoError => (Succeeded, None)
          case Canceled => (Cancelled, None)
          case DeadlineExceeded => (TimedOut, Some(DeadlineExceededCode))
          case OtherError => (Failed, Some(Internal));
        idle.(state := state, error := error, exitCode := run.exitCode, truncated := run.truncated,
            output := run.output)
  }

  /** Every result closes its job and echoes its identifiers; it carries exactly what the run gave when the
      runner was reached, and nothing otherwise; and each outcome and each error has exactly one cause. */
  lemma {:induction false} DispatchCloses(job: Job, contextDone: bool, run: Outcome)
    ensures var r, ran := DispatchResult(job, contextDone, run), Reached(job, contextDone);
            && !Open(r.state)
            && r.jobId == job.id && r.dispatchId == job.dispatchId && r.attempt == job.attempt
            && (r.output, r.exitCode, r.truncated)
                 == (if ran then (run.output, run.exitCode, run.truncated) else ([], 0, false))
            && (r.state == Succeeded <==> ran && run.err == NoError)
            && (r.state == Failed <==> ran && run.err == OtherError)
            && (r.state == TimedOut <==> ran && run.err == DeadlineExceeded)
            && (r.state == Cancelled <==> contextDone || (ran && run.err == Canceled))
            && (r.state == Rejected <==> !contextDone && !ran)
            && (r.error.None? <==> r.state == Succeeded || (r.state == Cancelled && !contextDone))
            && (r.error == Some(DeadlineExceededCode) <==> contextDone || r.state == TimedOut)
            && (r.error == Some(Internal) <==> r.state == Failed)
            && (r.error == Some(InvalidArgument) || r.error == Some(Unsupported) <==> r.state == Rejected)
  {}
}
