/** The validator's job calls (internal/server/jobs.go, unsafe.go, cancel.go), each run without
    interruption on the real tables and the real registry. They are proved to take exactly the steps of
    the job protocol, so that everything proved about its runs holds of them. */
module Fleet {
  import opened Common
  import opened Protocol
  import opened JobTables
  import opened JobProtocol
  import R = AgentRegistry
  import J = JobTheorems
  import O = CapturedOutput

  /** The steps of one submission; those that do not apply change nothing. `gaveUp` says that its context
      has ended by the time it dispatches; then the update of the row is refused. */
  function SubmitSteps(q: Request, draw: Draw, now: int, gaveUp: bool): seq<Step> {
    if gaveUp then [Step.Submit(q, draw, now), RouteSubmit(draw.id), GiveUpSubmit(draw.id)]
    else [Step.Submit(q, draw, now), RouteSubmit(draw.id), SendSubmit(draw.id), Step.MarkUnknown(draw.id)]
  }

  function CancelSteps(call: nat, id: string, reason: string, deadline: int, now: int, gaveUp: bool): seq<Step> {
    [CancelStart(call, id, reason, deadline, now), RouteCancel(call),
     if gaveUp then GiveUpCancel(call) else SendCancel(call), WriteCancel(call)]
  }

  lemma RunFour(c: R.Config, s: System, x0: Step, x1: Step, x2: Step, x3: Step)
    ensures Run(c, s, [x0, x1, x2, x3]) == Apply(c, Apply(c, Apply(c, Apply(c, s, x0), x1), x2), x3)
  {
    var all := [x0, x1, x2, x3];
    assert all[..3] == [x0, x1, x2] && all[..3][..2] == [x0, x1] && all[..3][..2][..1] == [x0] && [x0][..0] == [];
    assert Run(c, s, [x0]) == Apply(c, s, x0);
    assert Run(c, s, [x0, x1]) == Apply(c, Run(c, s, [x0]), x1);
    assert Run(c, s, [x0, x1, x2]) == Apply(c, Run(c, s, [x0, x1]), x2);
  }

  lemma RunThree(c: R.Config, s: System, x0: Step, x1: Step, x2: Step)
    ensures Run(c, s, [x0, x1, x2]) == Apply(c, Apply(c, Apply(c, s, x0), x1), x2)
  {
    var all := [x0, x1, x2];
    assert all[..2] == [x0, x1] && all[..2][..1] == [x0] && [x0][..0] == [];
    assert Run(c, s, [x0]) == Apply(c, s, x0);
    assert Run(c, s, [x0, x1]) == Apply(c, Run(c, s, [x0]), x1);
  }

  /** The steps of a submission one after the other. */
  lemma SubmitRuns(c: R.Config, s: System, q: Request, draw: Draw, now: int, gaveUp: bool)
    ensures var t := Apply(c, Apply(c, s, Step.Submit(q, draw, now)), RouteSubmit(draw.id));
            Run(c, s, SubmitSteps(q, draw, now, gaveUp)) ==
            if gaveUp then Apply(c, t, GiveUpSubmit(draw.id))
            else Apply(c, Apply(c, t, SendSubmit(draw.id)), Step.MarkUnknown(draw.id))
  {
    if gaveUp {
      RunThree(c, s, Step.Submit(q, draw, now), RouteSubmit(draw.id), GiveUpSubmit(draw.id));
    } else {
      RunFour(c, s, Step.Submit(q, draw, now), RouteSubmit(draw.id), SendSubmit(draw.id), Step.MarkUnknown(draw.id));
    }
  }

  lemma RefusedSubmission(c: R.Config, s: System, q: Request, draw: Draw, now: int, gaveUp: bool)
    requires draw.id !in s.submits && !(Admitted(q, now) && Insertable(s.tables, q, draw))
    ensures Run(c, s, SubmitSteps(q, draw, now, gaveUp)) == s
  {
    SubmitRuns(c, s, q, draw, now, gaveUp);
  }

  /** After its first two steps a recorded submission has a session, or has failed. */
  lemma RecordedAndRouted(c: R.Config, s: System, q: Request, draw: Draw, now: int) returns (t: System)
    requires draw.id !in s.submits && !s.registry.crashed && Admitted(q, now) && Insertable(s.tables, q, draw)
    ensures t == Apply(c, Apply(c, s, Step.Submit(q, draw, now)), RouteSubmit(draw.id))
    ensures t.tables == Inserted(s.tables, q, draw, now) && t.registry == s.registry
    ensures draw.id in t.submits && draw.id in t.journal && t.journal[draw.id].job == JobOf(q, draw, now)
    ensures var route := R.Route(s.registry, q.agent);
            t.submits[draw.id] == if route.Some? then Routed(route.value) else LookupFailed
  {
    t := Apply(c, Apply(c, s, Step.Submit(q, draw, now)), RouteSubmit(draw.id));
  }

  /** No session found, and the context still alive: the row is marked. */
  lemma UnroutedSubmission(c: R.Config, s: System, q: Request, draw: Draw, now: int)
    requires draw.id !in s.submits && !s.registry.crashed
    requires Admitted(q, now) && Insertable(s.tables, q, draw) && R.Route(s.registry, q.agent).None?
    ensures var t := Run(c, s, SubmitSteps(q, draw, now, false));
            t.tables == WithState(Inserted(s.tables, q, draw, now), draw.id, UnknownResult) && t.registry == s.registry
  {
    SubmitRuns(c, s, q, draw, now, false);
    var t := RecordedAndRouted(c, s, q, draw, now);
    assert Apply(c, t, SendSubmit(draw.id)) == t;
    assert MarksUnknown(t, draw.id);
  }

  /** The context ended: the row stays as it was inserted. */
  lemma GivenUpSubmission(c: R.Config, s: System, q: Request, draw: Draw, now: int)
    requires draw.id !in s.submits && !s.registry.crashed && Admitted(q, now) && Insertable(s.tables, q, draw)
    ensures var t := Run(c, s, SubmitSteps(q, draw, now, true));
            t.tables == Inserted(s.tables, q, draw, now) && t.registry == s.registry
  {
    SubmitRuns(c, s, q, draw, now, true);
    var t := RecordedAndRouted(c, s, q, draw, now);
  }

  lemma SentSubmission(c: R.Config, s: System, q: Request, draw: Draw, now: int)
    requires draw.id !in s.submits && !s.registry.crashed && R.Inv(c, s.registry)
    requires Admitted(q, now) && Insertable(s.tables, q, draw)
    requires R.Route(s.registry, q.agent).Some? && R.RoomIn(c, s.registry, R.Route(s.registry, q.agent).value)
    ensures var t := Run(c, s, SubmitSteps(q, draw, now, false));
            && t.tables == Inserted(s.tables, q, draw, now)
            && t.registry
                 == R.Apply(c, s.registry,
                     R.Enqueue(R.Route(s.registry, q.agent).value, JobMessage(JobOf(q, draw, now))))
  {
    SubmitRuns(c, s, q, draw, now, false);
    var t := RecordedAndRouted(c, s, q, draw, now);
  }

  /** What the steps of a recorded submission leave behind. */
  lemma SubmitOutcome(c: R.Config, s: System, q: Request, draw: Draw, now: int, gaveUp: bool)
    requires draw.id !in s.submits && !s.registry.crashed && R.Inv(c, s.registry)
    requires Admitted(q, now) && Insertable(s.tables, q, draw) && R.CanEnqueue(c, s.registry, q.agent, gaveUp)
    ensures var t, route := Run(c, s, SubmitSteps(q, draw, now, gaveUp)), R.Route(s.registry, q.agent);
            && t.tables == MarkedUnless(Inserted(s.tables, q, draw, now), draw.id, route.Some? || gaveUp)
            && t.registry == if route.Some? && !gaveUp
                 then R.Apply(c, s.registry, R.Enqueue(route.value, JobMessage(JobOf(q, draw, now)))) else s.registry
  {
    if gaveUp {
      GivenUpSubmission(c, s, q, draw, now);
    } else if R.Route(s.registry, q.agent).None? {
      UnroutedSubmission(c, s, q, draw, now);
    } else {
      SentSubmission(c, s, q, draw, now);
    }
  }

  function MarkedUnless(t: Tables, id: string, kept: bool): Tables {
    if kept then t else WithState(t, id, UnknownResult)
  }

  lemma IdleCancel(c: R.Config, s: System, call: nat, id: string, reason: string, deadline: int, now: int, gaveUp: bool)
    requires call !in s.cancels && !Cancels(s, call, id, reason, deadline, now)
    ensures Run(c, s, CancelSteps(call, id, reason, deadline, now, gaveUp)) == s
  {
    RunFour(c, s, CancelStart(call, id, reason, deadline, now), RouteCancel(call),
            if gaveUp then GiveUpCancel(call) else SendCancel(call), WriteCancel(call));
  }

  /** After its first two steps a cancel has a session, or is over. */
  lemma CancelFound(c: R.Config, s: System, call: nat, id: string, reason: string, deadline: int, now: int)
      returns (t: System)
    requires Cancels(s, call, id, reason, deadline, now)
    ensures t == Apply(c, Apply(c, s, CancelStart(call, id, reason, deadline, now)), RouteCancel(call))
    ensures t.tables == s.tables && t.registry == s.registry
    ensures var route := R.Route(s.registry, s.tables.rows[id].agent);
            t.cancels == if route.Some?
                then s.cancels[call := CancelRouted(id, s.tables.rows[id].dispatchId, route.value)] else s.cancels
  {
    t := Apply(c, Apply(c, s, CancelStart(call, id, reason, deadline, now)), RouteCancel(call));
    assert s.cancels[call := CancelRead(id, s.tables.rows[id].agent, s.tables.rows[id].dispatchId)] - {call}
        == s.cancels;
  }

  lemma CancelDropped(c: R.Config, t: System, call: nat, gaveUp: bool)
    requires call !in t.cancels || (gaveUp && CancelIn(t, call) && t.cancels[call].CancelRouted?)
    ensures var u := Apply(c, Apply(c, t, if gaveUp then GiveUpCancel(call) else SendCancel(call)), WriteCancel(call));
            u.tables == t.tables && u.registry == t.registry
  {}

  lemma FailedCancel(c: R.Config, s: System, call: nat, id: string, reason: string, deadline: int, now: int,
      gaveUp: bool)
    requires Cancels(s, call, id, reason, deadline, now)
        && (R.Route(s.registry, s.tables.rows[id].agent).None? || gaveUp)
    ensures var t := Run(c, s, CancelSteps(call, id, reason, deadline, now, gaveUp));
            t.tables == s.tables && t.registry == s.registry
  {
    RunFour(c, s, CancelStart(call, id, reason, deadline, now), RouteCancel(call),
            if gaveUp then GiveUpCancel(call) else SendCancel(call), WriteCancel(call));
    var t := CancelFound(c, s, call, id, reason, deadline, now);
    CancelDropped(c, t, call, gaveUp);
  }

  /** The last two steps: the message is sent, then the guarded update runs. */
  lemma CancelWritten(c: R.Config, t: System, call: nat, id: string, dispatchId: string, i: nat)
    requires !t.registry.crashed && call in t.cancels && t.cancels[call] == CancelRouted(id, dispatchId, i)
        && R.RoomIn(c, t.registry, i)
    ensures var u := Apply(c, Apply(c, t, SendCancel(call)), WriteCancel(call));
            && u.tables == CancelledIfOpen(t.tables, id)
            && u.registry == R.Apply(c, t.registry, R.Enqueue(i, CancelMessage(id, dispatchId)))
  {
    var sent := Apply(c, t, SendCancel(call));
    assert sent.cancels[call] == CancelSent(id) && sent.tables == t.tables && !sent.registry.crashed;
  }

  lemma SentCancel(c: R.Config, s: System, call: nat, id: string, reason: string, deadline: int, now: int)
    requires Cancels(s, call, id, reason, deadline, now)
    requires var route := R.Route(s.registry, s.tables.rows[id].agent);
        route.Some? && R.RoomIn(c, s.registry, route.value)
    ensures var t := Run(c, s, CancelSteps(call, id, reason, deadline, now, false));
            && t.tables == CancelledIfOpen(s.tables, id)
            && t.registry == R.Apply(c, s.registry, R.Enqueue(R.Route(s.registry, s.tables.rows[id].agent).value,
                                                             CancelMessage(id, s.tables.rows[id].dispatchId)))
  {
    RunFour(c, s, CancelStart(call, id, reason, deadline, now), RouteCancel(call), SendCancel(call), WriteCancel(call));
    var t := CancelFound(c, s, call, id, reason, deadline, now);
    CancelWritten(c, t, call, id, s.tables.rows[id].dispatchId, R.Route(s.registry, s.tables.rows[id].agent).value);
  }

  /** What the steps of a cancel of a row that was not done leave behind. */
  lemma CancelOutcome(c: R.Config, s: System, call: nat, id: string, reason: string, deadline: int, now: int,
      gaveUp: bool)
    requires Cancels(s, call, id, reason, deadline, now)
    requires R.CanEnqueue(c, s.registry, s.tables.rows[id].agent, gaveUp)
    ensures var t, row := Run(c, s, CancelSteps(call, id, reason, deadline, now, gaveUp)), s.tables.rows[id];
            var route := R.Route(s.registry, row.agent);
            if route.Some? && !gaveUp then
              && t.tables == CancelledIfOpen(s.tables, id)
              && t.registry == R.Apply(c, s.registry, R.Enqueue(route.value, CancelMessage(id, row.dispatchId)))
            else t.tables == s.tables && t.registry == s.registry
  {
    if R.Route(s.registry, s.tables.rows[id].agent).Some? && !gaveUp {
      SentCancel(c, s, call, id, reason, deadline, now);
    } else {
      FailedCancel(c, s, call, id, reason, deadline, now, gaveUp);
    }
  }

  lemma CancelStoredExactly(t: Tables, id: string)
    requires id in t.rows
    ensures id in CancelledIfOpen(t, id).rows
    ensures CancelledIfOpen(t, id).rows[id].state ==
      if Open(t.rows[id].state) then Cancelled else t.rows[id].state
  {}

  class Validator {
    const store: JobStore
    const registry: R.Registry

    ghost predicate Valid()
      reads this, registry, registry.sessions
    {
      registry.Running()
    }

    /** This validator holds the tables and the registry of the system. */
    ghost predicate Is(s: System)
      reads this, store, registry
    {
      s.tables == store.Contents() && s.registry == registry.model
    }

    constructor (store: JobStore, registry: R.Registry)
      requires registry.Running()
      ensures Valid() && this.store == store && this.registry == registry
    {
      this.store, this.registry := store, registry;
    }

    /** The checks before a submission, in the order the calls make them. */
    method Admit(q: Request, now: int) returns (refusal: Option<Refusal>)
      ensures refusal == Refused(q, now)
      ensures refusal.None? <==> Legitimate(q, now)
      ensures refusal == Some(PermissionDenied) <==>
        q.operation.ArbitraryCommand? && |q.operation.command| > 0 && q.confirmed && !q.admin
    {
      RefusedExactly(q, now);
      match q.operation {
        case ArbitraryCommand(command) =>
          if command == "" || !q.confirmed {
            return Some(BadArgument);
          }
          if !q.admin {
            return Some(PermissionDenied);
          }
        case Reboot(target, confirmation) =>
          if target != q.agent || confirmation == "" || q.guardExpires < now {
            return Some(BadArgument);
          }
        case CleanupRun =>
          if !q.guardOk || q.guardExpires < now {
            return Some(BadArgument);
          }
        case _ =>
      }
      if q.agent == "" || q.reason == "" || q.key == "" || q.timeoutSeconds == 0 || q.timeoutSeconds > 3600 {
        return Some(BadArgument);
      }
      if Unsafe(q.operation) && !q.confirmed {
        return Some(BadArgument);
      }
      return None;
    }

    /** A recorded job is sent; if that fails, its row is marked, unless the context has ended. */
    method SendRecorded(job: Job, gaveUp: bool) returns (sent: bool)
      requires Valid() && R.CanEnqueue(registry.config, registry.model, job.agent, gaveUp)
      modifies store, registry, registry.sessions
      ensures Valid() && registry.sessions == old(registry.sessions)
      ensures sent <==> R.Route(old(registry.model), job.agent).Some? && !gaveUp
      ensures store.Contents() == MarkedUnless(old(store.Contents()), job.id, sent || gaveUp)
      ensures registry.model == if sent
        then R.Apply(registry.config, old(registry.model),
            R.Enqueue(R.Route(old(registry.model), job.agent).value, JobMessage(job)))
        else old(registry.model)
    {
      sent := registry.Dispatch(job.agent, JobMessage(job), gaveUp);
      if !sent {
        store.MarkUnknown(job.id, gaveUp);
      }
    }

    /** One submission: recorded first, then sent. A recorded row ends up UNKNOWN_RESULT exactly when no
        session was found while the context lived, and is still DISPATCHED exactly when the job was sent
        or the context had ended. */
    method Submit(q: Request, draw: Draw, now: int, gaveUp: bool, ghost s: System) returns (r: Result<Job>)
      requires Valid() && Is(s) && draw.id !in s.submits
      requires R.CanEnqueue(registry.config, registry.model, q.agent, gaveUp)
      modifies store, registry, registry.sessions
      ensures Valid() && registry.sessions == old(registry.sessions)
      ensures Is(Run(registry.config, s, SubmitSteps(q, draw, now, gaveUp)))
      ensures r.Ok?
          <==> Legitimate(q, now) && Insertable(s.tables, q, draw) && R.Route(s.registry, q.agent).Some? && !gaveUp
      ensures r.Ok? ==> r.value == JobOf(q, draw, now)
      ensures r.Ok? ==> draw.id in store.rows && draw.audit in store.audits
      ensures r.Ok? ==> Carried(q, now, r.value, store.rows[draw.id], store.audits[draw.audit])
      ensures r == Err("invalid argument") || r == Err("permission denied") <==> !Legitimate(q, now)
      ensures r == Err("permission denied") <==>
        q.operation.ArbitraryCommand? && |q.operation.command| > 0 && q.confirmed && !q.admin
      ensures r == Err("not recorded") <==> Legitimate(q, now) && !Insertable(s.tables, q, draw)
      ensures r.Err? ==> s.registry == registry.model
      ensures Legitimate(q, now) && Insertable(s.tables, q, draw) ==>
        && draw.id in store.rows
        && (store.rows[draw.id].state == UnknownResult <==> R.Route(s.registry, q.agent).None? && !gaveUp)
        && (store.rows[draw.id].state == Dispatched <==> r.Ok? || gaveUp)
    {
      RefusedExactly(q, now);
      var refusal := Admit(q, now);
      if refusal.Some? {
        RefusedSubmission(registry.config, s, q, draw, now, gaveUp);
        return Err(if refusal.value == PermissionDenied then "permission denied" else "invalid argument");
      }
      var ok := store.Insert(q, draw, now);
      if !ok {
        RefusedSubmission(registry.config, s, q, draw, now, gaveUp);
        return Err("not recorded");
      }
      SubmitOutcome(registry.config, s, q, draw, now, gaveUp);
      InsertedIsCarried(s.tables, q, draw, now);
      var job := JobOf(q, draw, now);
      var sent := SendRecorded(job, gaveUp);
      return if sent then Ok(job) else Err("unavailable");
    }

    /** A cancel message is sent; if that works, the row is cancelled unless it is closed. */
    method SendThenCancel(id: string, gaveUp: bool) returns (sent: bool)
      requires Valid() && id in store.rows
      requires R.CanEnqueue(registry.config, registry.model, store.rows[id].agent, gaveUp)
      modifies store, registry, registry.sessions
      ensures Valid() && registry.sessions == old(registry.sessions)
      ensures sent <==> R.Route(old(registry.model), old(store.rows)[id].agent).Some? && !gaveUp
      ensures store.Contents() == if sent then CancelledIfOpen(old(store.Contents()), id) else old(store.Contents())
      ensures registry.model == if sent
        then R.Apply(registry.config, old(registry.model),
            R.Enqueue(R.Route(old(registry.model), old(store.rows)[id].agent).value,
                CancelMessage(id, old(store.rows)[id].dispatchId)))
        else old(registry.model)
    {
      var row := store.rows[id];
      sent := registry.Dispatch(row.agent, CancelMessage(id, row.dispatchId), gaveUp);
      if sent {
        store.MarkCancelled(id);
      }
    }

    /** The second half of CancelJob, for a row that was not done: send, then write. */
    method CancelOpen(ghost call: nat, id: string, ghost reason: string, ghost deadline: int, ghost now: int,
        gaveUp: bool, ghost s: System)
      returns (ok: bool)
      requires Valid() && Is(s) && Cancels(s, call, id, reason, deadline, now)
      requires R.CanEnqueue(registry.config, registry.model, store.rows[id].agent, gaveUp)
      modifies store, registry, registry.sessions
      ensures Valid() && registry.sessions == old(registry.sessions)
      ensures Is(Run(registry.config, s, CancelSteps(call, id, reason, deadline, now, gaveUp)))
      ensures ok <==> R.Route(s.registry, s.tables.rows[id].agent).Some? && !gaveUp
      ensures ok ==> store.Contents() == CancelledIfOpen(s.tables, id)
    {
      CancelOutcome(registry.config, s, call, id, reason, deadline, now, gaveUp);
      ok := SendThenCancel(id, gaveUp);
    }

    /** The state CancelJob returns. It differs from the stored one only for rows that are neither open nor
        done, such as UNKNOWN_RESULT ones, which stay as they are. */
    method CancelJob(ghost call: nat, id: string, reason: string, deadline: int, now: int, gaveUp: bool,
        ghost s: System)
      returns (r: Result<JobState>)
      requires Valid() && Is(s) && call !in s.cancels
      requires id in store.rows ==> R.CanEnqueue(registry.config, registry.model, store.rows[id].agent, gaveUp)
      modifies store, registry, registry.sessions
      ensures Valid() && registry.sessions == old(registry.sessions)
      ensures Is(Run(registry.config, s, CancelSteps(call, id, reason, deadline, now, gaveUp)))
      ensures r.Ok? <==> id != "" && reason != "" && deadline > now && id in s.tables.rows
                         && (s.tables.rows[id].state in {Succeeded, Failed, Cancelled, TimedOut}
                              || (R.Route(s.registry, s.tables.rows[id].agent).Some? && !gaveUp))
      ensures r.Ok? ==> r.value == if s.tables.rows[id].state in {Succeeded, Failed, TimedOut}
                                   then s.tables.rows[id].state else Cancelled
      ensures r.Ok? ==> id in store.rows
      ensures r.Ok? ==> store.rows[id].state == if s.tables.rows[id].state in {Dispatched, Running}
                                                then Cancelled else s.tables.rows[id].state
    {
      if id == "" || reason == "" || deadline <= now {
        IdleCancel(registry.config, s, call, id, reason, deadline, now, gaveUp);
        return Err("invalid argument");
      }
      if id !in store.rows {
        IdleCancel(registry.config, s, call, id, reason, deadline, now, gaveUp);
        return Err("not found");
      }
      var row := store.rows[id];
      if row.state == Succeeded || row.state == Failed || row.state == Cancelled || row.state == TimedOut {
        IdleCancel(registry.config, s, call, id, reason, deadline, now, gaveUp);
        return Ok(row.state);
      }
      CancelStoredExactly(s.tables, id);
      var ok := CancelOpen(call, id, reason, deadline, now, gaveUp, s);
      return if ok then Ok(Cancelled) else Err("unavailable");
    }

    /** What a client fetches of a job's output, over a stream that takes `delivered` chunks: for a job that
        its agent reported, exactly what the one run of that job captured. */
    method FetchOutput(id: string, delivered: nat, ghost users: set<string>, ghost agents: set<string>,
        ghost steps: seq<Step>) returns (client: Result<seq<Byte>>)
      requires Is(Run(registry.config, Start(users, agents), steps))
      requires J.DisciplinedRun(registry.config, Start(users, agents), steps)
      ensures client.Ok? <==>
        id in store.rows && store.rows[id].state != Dispatched && store.rows[id].state != Running
        && delivered * O.CHUNK >= |store.rows[id].output| && delivered > 0
      ensures client.Ok? && store.rows[id].state in {Succeeded, Failed, TimedOut, Rejected} ==>
        var s := Run(registry.config, Start(users, agents), steps);
        && id in s.executedAt && s.executedAt[id] < |s.executed| && s.executed[s.executedAt[id]].job.id == id
        && var e := s.executed[s.executedAt[id]];
        client.value == if Reached(e.job, e.contextDone) then e.run.output else []
    {
      if id in store.rows && J.ReportedByAgent(store.rows[id].state) {
        J.ReportedRowsRan(registry.config, users, agents, steps, id);
      }
      var row := if id in store.rows then Some((store.rows[id].output, store.rows[id].state)) else None;
      client := O.Fetch(row, delivered);
    }
  }
}
