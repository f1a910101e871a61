/** The jobs and audit tables and the statements run on them (migrations/001_initial.sql,
    internal/server/jobs.go, unsafe.go, cancel.go and internal/registry/messages.go). */
module JobTables {
  import opened Common
  import opened Protocol

  datatype Row = Row(
    key: string, actor: string, agent: string, kind: string, state: JobState, reason: string,
    created: int, deadline: int, attempt: nat, dispatchId: string, output: seq<Byte>, truncated: bool)

  datatype Audit = Audit(actor: string, agent: string, action: string, reason: string, occurred: int, jobId: string,
      dispatchId: string)

  /** users and agents are the tables the foreign keys refer to. */
  datatype Tables = Tables(rows: map<string, Row>, audits: map<string, Audit>, users: set<string>, agents: set<string>)

  // ---- Submission ----

  /** A submission with its verified claims. `guardOk` and `guardExpires` are the non-empty hash or
      preview and the expiry that Reboot and RunCleanup requests carry. */
  datatype Request = Request(
    actor: string, admin: bool, agent: string, reason: string, key: string, timeoutSeconds: nat, confirmed: bool,
    kind: string, operation: Operation, guardOk: bool, guardExpires: int)

  predicate Unsafe(op: Operation) {
    op.ArbitraryCommand? || op.Reboot? || op.CleanupRun?
  }

  datatype Refusal = BadArgument | PermissionDenied

  /** The check of the request context at the end of every call. */
  predicate Bounded(q: Request) {
    && q.agent != "" && q.reason != "" && q.key != "" && 0 < q.timeoutSeconds <= 3600
    && (Unsafe(q.operation) ==> q.confirmed)
  }

  /** The checks of Exec, Reboot, RunCleanup, submitSafe and submitUnsafe, in the order the calls make them;
      times in milliseconds. */
  function Refused(q: Request, now: int): Option<Refusal> {
    var last := if Bounded(q) then None else Some(BadArgument);
    match q.operation
    case ArbitraryCommand(command) =>
      if command == "" || !q.confirmed then Some(BadArgument)
      else if !q.admin then Some(PermissionDenied) else last
    case Reboot(target, confirmation) =>
      if target != q.agent || confirmation == "" || q.guardExpires < now then Some(BadArgument) else last
    case CleanupRun => if !q.guardOk || q.guardExpires < now then Some(BadArgument) else last
    case _ => last
  }

  predicate Admitted(q: Request, now: int) {
    Refused(q, now).None?
  }

  /** What a request must be for its job to exist, field by field. */
  ghost predicate Legitimate(q: Request, now: int) {
    && |q.agent| > 0 && |q.reason| > 0 && |q.key| > 0 && 1 <= q.timeoutSeconds <= 3600
    && (q.operation.ArbitraryCommand? ==> q.admin && q.confirmed && |q.operation.command| > 0)
    && (q.operation.Reboot? ==> q.confirmed && q.operation.target == q.agent && |q.operation.confirmation| > 0)
    && (q.operation.CleanupRun? ==> q.confirmed && q.guardOk)
    && (q.operation.Reboot? || q.operation.CleanupRun? ==> now <= q.guardExpires)
  }

  /** The checks in sequence let through exactly the legitimate requests; permission is denied exactly for a
      confirmed command by someone who is no admin. */
  lemma {:induction false} RefusedExactly(q: Request, now: int)
    ensures Admitted(q, now) <==> Legitimate(q, now)
    ensures Refused(q, now) == Some(PermissionDenied) <==>
      q.operation.ArbitraryCommand? && |q.operation.command| > 0 && q.confirmed && !q.admin
  {}

  /** The random identifiers of one submission. */
  datatype Draw = Draw(id: string, dispatch: string, audit: string)

  function JobOf(q: Request, draw: Draw, now: int): Job {
    Job(draw.id, q.actor, q.agent, now, now + 1000 * q.timeoutSeconds, Unsafe(q.operation) || q.confirmed,
        q.operation, 1, draw.dispatch, q.key)
  }

  function RowOf(q: Request, draw: Draw, now: int): Row {
    var job := JobOf(q, draw, now);
    Row(job.key, job.actor, job.agent, q.kind, Dispatched, q.reason, job.created, job.deadline, job.attempt,
        job.dispatchId, [], false)
  }

  /** The constraints of both inserts; if one fails the transaction rolls back. */
  predicate Insertable(t: Tables, q: Request, draw: Draw) {
    && draw.id !in t.rows
    && (forall x :: x in t.rows ==>
         t.rows[x].dispatchId != draw.dispatch && (t.rows[x].agent != q.agent || t.rows[x].key != q.key))
    && q.actor in t.users && q.agent in t.agents
    && draw.audit !in t.audits
  }

  /** The job and its two rows carry what the request asked for, from the time it was made. */
  ghost predicate Carried(q: Request, now: int, job: Job, row: Row, audit: Audit) {
    && job.operation == q.operation && (job.confirmed <==> q.confirmed)
    && job.created == row.created == audit.occurred == now
    && job.deadline == row.deadline && job.deadline - now == 1000 * q.timeoutSeconds
    && job.agent == row.agent == audit.agent == q.agent && job.actor == row.actor == audit.actor == q.actor
    && job.key == row.key == q.key && row.kind == audit.action == q.kind && row.reason == audit.reason == q.reason
    && job.attempt == row.attempt == 1 && job.dispatchId == row.dispatchId == audit.dispatchId
    && audit.jobId == job.id
  }

  function Inserted(t: Tables, q: Request, draw: Draw, now: int): Tables {
    t.(rows := t.rows[draw.id := RowOf(q, draw, now)],
       audits := t.audits[draw.audit := Audit(q.actor, q.agent, q.kind, q.reason, now, draw.id, draw.dispatch)])
  }

  // ---- Updates ----

  function WithState(t: Tables, id: string, state: JobState): Tables {
    if id in t.rows then t.(rows := t.rows[id := t.rows[id].(state := state)]) else t
  }

  /** The result is for an open row of this agent with the same dispatch and attempt. */
  predicate Accepts(t: Tables, agent: string, r: JobResult) {
    && r.jobId in t.rows && t.rows[r.jobId].agent == agent
    && t.rows[r.jobId].dispatchId == r.dispatchId && t.rows[r.jobId].attempt == r.attempt
    && Open(t.rows[r.jobId].state)
  }

  function Recorded(t: Tables, agent: string, r: JobResult): Tables {
    if Accepts(t, agent, r) then
      t.(rows := t.rows[r.jobId := t.rows[r.jobId].(state := r.state, output := r.output, truncated := r.truncated)])
    else t
  }

  function CancelledIfOpen(t: Tables, id: string): Tables {
    if id in t.rows && Open(t.rows[id].state) then WithState(t, id, Cancelled) else t
  }

  /** States CancelJob returns unchanged. */
  predicate AlreadyDone(s: JobState) {
    s == Succeeded || s == Failed || s == Cancelled || s == TimedOut
  }

  class JobStore {
    var rows: map<string, Row>
    var audits: map<string, Audit>
    const users: set<string>
    const agents: set<string>

    function Contents(): Tables
      reads this
    {
      Tables(rows, audits, users, agents)
    }

    constructor (users: set<string>, agents: set<string>)
      ensures Contents() == Tables(map[], map[], users, agents)
    {
      this.users, this.agents, rows, audits := users, agents, map[], map[];
    }

    /** The job row and the audit row: both, or neither. */
    method Insert(q: Request, draw: Draw, now: int) returns (ok: bool)
      modifies this
      ensures ok <==> Insertable(old(Contents()), q, draw)
      ensures !ok <==>
        || q.actor !in users || q.agent !in agents || draw.id in old(rows) || draw.audit in old(audits)
        || exists x :: x in old(rows)
             && (old(rows)[x].dispatchId == draw.dispatch
                  || (old(rows)[x].key == q.key && old(rows)[x].agent == q.agent))
      ensures Contents() == if ok then Inserted(old(Contents()), q, draw, now) else old(Contents())
    {
      if draw.id in rows || q.actor !in users || q.agent !in agents
        || exists x ::
          x in rows && (rows[x].dispatchId == draw.dispatch || (rows[x].agent == q.agent && rows[x].key == q.key)) {
        return false;
      }
      var row := RowOf(q, draw, now);
      if draw.audit in audits {
        return false;
      }
      rows := rows[draw.id := row];
      audits := audits[draw.audit := Audit(q.actor, q.agent, q.kind, q.reason, now, draw.id, draw.dispatch)];
      return true;
    }

    /** The unguarded update; on a context that has ended it is refused, and nobody looks at the error. */
    method MarkUnknown(id: string, ended: bool)
      modifies this
      ensures Contents() == if ended then old(Contents()) else WithState(old(Contents()), id, UnknownResult)
    {
      if !ended && id in rows {
        rows := rows[id := rows[id].(state := UnknownResult)];
      }
    }

    method RecordResult(agent: string, r: JobResult) returns (ok: bool)
      modifies this
      ensures ok <==> Accepts(old(Contents()), agent, r)
      ensures Contents() == Recorded(old(Contents()), agent, r)
      ensures rows.Keys == old(rows).Keys && forall x :: x in rows && x != r.jobId ==> rows[x] == old(rows)[x]
      ensures ok ==> r.jobId in rows && rows[r.jobId].state == r.state
      ensures ok ==> rows[r.jobId].output == r.output && rows[r.jobId].truncated == r.truncated
    {
      if r.jobId !in rows {
        return false;
      }
      var row := rows[r.jobId];
      if row.agent != agent || row.dispatchId != r.dispatchId || row.attempt != r.attempt
        || (row.state != Dispatched && row.state != Running) {
        return false;
      }
      rows := rows[r.jobId := row.(state := r.state, output := r.output, truncated := r.truncated)];
      return true;
    }

    method MarkCancelled(id: string)
      modifies this
      ensures Contents() == CancelledIfOpen(old(Contents()), id)
    {
      if id in rows && (rows[id].state == Dispatched || rows[id].state == Running) {
        rows := rows[id := rows[id].(state := Cancelled)];
      }
    }
  }

  lemma InsertedIsCarried(t: Tables, q: Request, draw: Draw, now: int)
    requires Admitted(q, now)
    ensures var more := Inserted(t, q, draw, now);
            && draw.id in more.rows && more.rows[draw.id].state == Dispatched
            && more.rows[draw.id].output == [] && !more.rows[draw.id].truncated && draw.audit in more.audits
            && JobOf(q, draw, now).id == draw.id && JobOf(q, draw, now).dispatchId == draw.dispatch
            && Carried(q, now, JobOf(q, draw, now), more.rows[draw.id], more.audits[draw.audit])
  {}

  /** Validator and agent agree on what can run: an admitted command or reboot always passes the agent's
      checks, while an admitted cleanup is always refused there. */
  lemma {:induction false} AdmittedRuns(q: Request, draw: Draw, now: int)
    requires Admitted(q, now)
    ensures Argv(JobOf(q, draw, now)) == match q.operation
      case ArbitraryCommand(command) => Ok(["/bin/sh", "-c", command])
      case Reboot(_, _) => Ok(["systemctl", "reboot"])
      case Typed(argv) => if argv == [] then Err("invalid") else Ok(argv)
      case _ => Err("unsupported")
    ensures JobOf(q, draw, now).deadline - now == 1000 * q.timeoutSeconds <= 3_600_000
  {}
}
