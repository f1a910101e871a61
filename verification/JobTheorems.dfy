/** What the job protocol guarantees over every run: at most one execution, nothing sent before it is
    recorded and routed, and the first terminal write wins. */
module JobTheorems {
  import opened Common
  import opened Protocol
  import opened JobTables
  import opened JobProtocol
  import R = AgentRegistry
  import H = AgentHandler

  // ---- At most once ----

  /** In every run, whatever is duplicated, cancelled, expired, reconnected or restarted, each job id
      reaches the dispatcher at most once, and so does each (agent, idempotency key). */
  lemma {:induction false} AtMostOnce(c: R.Config, users: set<string>, agents: set<string>, steps: seq<Step>, m: nat,
      n: nat)
    requires m < n < |Run(c, Start(users, agents), steps).executed|
    ensures var a, b := Run(c, Start(users, agents), steps).executed[m].job,
        Run(c, Start(users, agents), steps).executed[n].job;
            a.id != b.id && (a.agent != b.agent || a.key != b.key)
  {
    var s := Run(c, Start(users, agents), steps);
    ProtocolInvariant(c, users, agents, steps);
    assert ExecutionOk(s.registry.sessions, s.journal, s.placed, s.executedAt, s.executed[m], m);
    assert ExecutionOk(s.registry.sessions, s.journal, s.placed, s.executedAt, s.executed[n], n);
    var a, b := s.executed[m].job, s.executed[n].job;
    assert CommitOk(s.tables, s.journal, a.id) && CommitOk(s.tables, s.journal, b.id);
  }

  /** The handler does not lose jobs either: the first delivery of a job that has not run, in time and
      with its identifiers set, runs it. */
  lemma {:induction false} FirstDeliveryRuns(c: R.Config, users: set<string>, agents: set<string>, steps: seq<Step>,
      i: nat, k: nat, now: int)
    requires var s := Run(c, Start(users, agents), steps);
             i < |s.registry.sessions| && k < |s.registry.sessions[i].delivered|
                 && s.registry.sessions[i].delivered[k].JobMessage?
    requires var s := Run(c, Start(users, agents), steps);
             var job := s.registry.sessions[i].delivered[k].job;
             && job.id != "" && job.dispatchId != "" && job.attempt != 0
             && forall x :: x in s.journal ==> '\0' !in s.journal[x].job.id
    ensures var s := Run(c, Start(users, agents), steps);
            var job := s.registry.sessions[i].delivered[k].job;
            Delivers(s, i, k, now) <==> now <= job.deadline && job.id !in s.executedAt
  {
    var s := Run(c, Start(users, agents), steps);
    ProtocolInvariant(c, users, agents, steps);
    DeliveredJob(s, i, k);
    var job := s.registry.sessions[i].delivered[k].job;
    if job.id in s.executedAt {
      RanBeforeIsSeen(s, i, job);
    } else if H.Key(job) in Seen(s.executed, i) {
      SeenJobRan(s, i, job);
    }
  }

  lemma SeenJobRan(s: System, i: nat, job: Job)
    requires Inv(s) && H.Key(job) in Seen(s.executed, i)
    requires job.id in s.journal && s.journal[job.id].job == job && forall x :: x in s.journal ==>
      '\0' !in s.journal[x].job.id
    ensures job.id in s.executedAt
  {
    var n :| 0 <= n < |s.executed| && s.executed[n].session == i && H.Key(s.executed[n].job) == H.Key(job);
    assert ExecutionOk(s.registry.sessions, s.journal, s.placed, s.executedAt, s.executed[n], n);
    H.KeyIsInjective(s.executed[n].job, job);
  }

  /** The jobs run on one session, in order: what its handler has dispatched. */
  function JobsOn(executed: seq<Execution>, session: nat): seq<Job> {
    if executed == [] then []
    else
      var last := |executed| - 1;
      JobsOn(executed[..last], session) + (if executed[last].session == session then [executed[last].job] else [])
  }

  lemma {:induction false} SeenByHandler(executed: seq<Execution>, session: nat)
    ensures Seen(executed, session) == H.Keys(JobsOn(executed, session))
  {
    if executed == [] {
    } else {
      var last := |executed| - 1;
      var before, e := executed[..last], executed[last];
      SeenByHandler(before, session);
      assert Seen(executed, session)
          == Seen(before, session) + (if e.session == session then {H.Key(e.job)} else {}) by {
        forall k | k in Seen(before, session) ensures k in Seen(executed, session) {
          var n :| 0 <= n < |before| && before[n].session == session && H.Key(before[n].job) == k;
          assert executed[n] == before[n];
        }
        assert e.session == session ==> H.Key(executed[last].job) in Seen(executed, session);
      }
      if e.session == session {
        H.KeysSnoc(JobsOn(before, session), e.job);
      } else {
        assert JobsOn(executed, session) == JobsOn(before, session);
      }
    }
  }

  /** A delivery does what the handler of its connection does, and touches no other handler. */
  lemma {:induction false} DeliverIsHandle(c: R.Config, s: System, i: nat, k: nat, now: int, contextDone: bool,
      run: Outcome, other: nat)
    requires i < |s.registry.sessions| && k < |s.registry.sessions[i].delivered|
    ensures var t, m := Apply(c, s, Deliver(i, k, now, contextDone, run)), s.registry.sessions[i].delivered[k];
            var runs := m.JobMessage?
                && H.Runs(s.registry.sessions[i].agent, H.Keys(JobsOn(s.executed, i)), m.job, now);
            && JobsOn(t.executed, i) == (if runs then JobsOn(s.executed, i) + [m.job] else JobsOn(s.executed, i))
            && (other != i ==> JobsOn(t.executed, other) == JobsOn(s.executed, other))
            && t.outbox
                 == (if runs
                     then s.outbox + {Reply(s.registry.sessions[i].agent, DispatchResult(m.job, contextDone, run))}
                         else s.outbox)
  {
    SeenByHandler(s.executed, i);
    var t := Apply(c, s, Deliver(i, k, now, contextDone, run));
    if Delivers(s, i, k, now) {
      assert t.executed[..|t.executed| - 1] == s.executed;
    }
  }

  // ---- Recorded and routed before it is sent ----

  /** A job message anywhere has a committed row and audit row with its identifiers, and is in a session
      of its own agent, at the one place recorded for it. */
  ghost predicate Accounted(s: System, job: Job, i: nat, k: nat)
    requires i < |s.registry.sessions|
  {
    && job.id in s.tables.rows
    && s.tables.rows[job.id].agent == job.agent == s.registry.sessions[i].agent
    && s.tables.rows[job.id].dispatchId == job.dispatchId && s.tables.rows[job.id].attempt == job.attempt
    && s.tables.rows[job.id].deadline == job.deadline && s.tables.rows[job.id].key == job.key
    && job.id in s.journal && s.journal[job.id].job == job
    && (exists a :: a in s.tables.audits && s.tables.audits[a].jobId == job.id && s.tables.audits[a].agent == job.agent
          && s.tables.audits[a].actor == job.actor && s.tables.audits[a].dispatchId == job.dispatchId)
    && job.id in s.placed && s.placed[job.id] == Place(i, k)
  }

  lemma {:induction false} RecordedBeforeSent(c: R.Config, users: set<string>, agents: set<string>, steps: seq<Step>,
      i: nat, k: nat)
    requires var s := Run(c, Start(users, agents), steps);
             i < |s.registry.sessions| && k < |s.registry.sessions[i].enqueued|
                 && s.registry.sessions[i].enqueued[k].JobMessage?
    ensures var s := Run(c, Start(users, agents), steps);
            Accounted(s, s.registry.sessions[i].enqueued[k].job, i, k)
  {
    var s := Run(c, Start(users, agents), steps);
    ProtocolInvariant(c, users, agents, steps);
    var job := s.registry.sessions[i].enqueued[k].job;
    assert JobAt(s.registry.sessions, s.journal, s.placed, i, k);
    assert CommitOk(s.tables, s.journal, job.id);
    assert s.journal[job.id].audit in s.tables.audits;
  }

  /** A result is accepted only from the agent the job was submitted to, with its dispatch and attempt. */
  lemma {:induction false} ResultsOnlyFromTheAgent(c: R.Config, users: set<string>, agents: set<string>,
      steps: seq<Step>, agent: string, r: JobResult)
    requires Accepts(Run(c, Start(users, agents), steps).tables, agent, r)
    ensures var s := Run(c, Start(users, agents), steps);
            && r.jobId in s.journal && s.journal[r.jobId].job.agent == agent
            && s.journal[r.jobId].job.dispatchId == r.dispatchId && s.journal[r.jobId].job.attempt == r.attempt
  {
    ProtocolInvariant(c, users, agents, steps);
    var s := Run(c, Start(users, agents), steps);
    assert CommitOk(s.tables, s.journal, r.jobId);
  }

  // ---- The first terminal write wins ----

  /** Agents report only results their handler produced; clients cancel only ids a submission returned. */
  predicate Disciplined(s: System, step: Step) {
    match step
    case Record(agent, r) => Reply(agent, r) in s.outbox
    case CancelStart(_, id, _, _, _) => id in s.submits && s.submits[id] == Sent
    case _ => true
  }

  predicate DisciplinedRun(c: R.Config, s: System, steps: seq<Step>) {
    steps == [] ||
    (DisciplinedRun(c, s, steps[..|steps| - 1]) && Disciplined(Run(c, s, steps[..|steps| - 1]), steps[|steps| - 1]))
  }

  predicate ReportedByAgent(state: JobState) {
    state == Succeeded || state == Failed || state == TimedOut || state == Rejected
  }

  /** What the agent sent back after this execution. */
  function ResultOf(e: Execution): JobResult {
    DispatchResult(e.job, e.contextDone, e.run)
  }

  /** Each job's execution, by job id. */
  function RunsOf(executed: seq<Execution>, executedAt: map<string, nat>): map<string, Execution> {
    map x | x in executedAt && executedAt[x] < |executed| :: executed[executedAt[x]]
  }

  function Runs(s: System): map<string, Execution> {
    RunsOf(s.executed, s.executedAt)
  }

  /** The row holds the output of the one execution of its job. */
  ghost predicate Stores(row: Row, runs: map<string, Execution>, x: string) {
    && x in runs && row.output == ResultOf(runs[x]).output && row.truncated == ResultOf(runs[x]).truncated
  }

  /** A closed row's submission is over, a state only an agent reports is that of the job's execution, and so
      is any output. */
  ghost predicate RowSettled(rows: map<string, Row>, submits: map<string, SubmitPhase>, runs: map<string, Execution>,
      x: string)
    requires x in rows
  {
    && (!Open(rows[x].state) ==> x in submits && (submits[x].Sent? || submits[x].MarkedUnknown?))
    && (ReportedByAgent(rows[x].state) ==>
         Stores(rows[x], runs, x) && rows[x].state == ResultOf(runs[x]).state)
    && (rows[x].output != [] || rows[x].truncated ==> Stores(rows[x], runs, x))
    && (Open(rows[x].state) ==> rows[x].state == Dispatched)
  }

  ghost predicate Settled(rows: map<string, Row>, submits: map<string, SubmitPhase>, runs: map<string, Execution>) {
    forall x :: x in rows ==> RowSettled(rows, submits, runs, x)
  }

  ghost predicate HonestOutbox(outbox: set<Reply>, runs: map<string, Execution>) {
    forall reply :: reply in outbox ==>
      && reply.result.jobId in runs && reply.result == ResultOf(runs[reply.result.jobId])
      && reply.agent == runs[reply.result.jobId].job.agent && !Open(reply.result.state)
  }

  function CancelId(p: CancelPhase): string {
    p.id
  }

  ghost predicate CancelsReturned(cancels: map<nat, CancelPhase>, submits: map<string, SubmitPhase>) {
    forall call :: call in cancels ==> CancelId(cancels[call]) in submits && submits[CancelId(cancels[call])] == Sent
  }

  ghost predicate Quiet(s: System) {
    Settled(s.tables.rows, s.submits, Runs(s)) && HonestOutbox(s.outbox, Runs(s))
        && CancelsReturned(s.cancels, s.submits)
  }

  /** A submission phase moves on without leaving Sent, or a row settles together with its phase. */
  lemma PhaseKeepsQuiet(s: System, id: string, p: SubmitPhase)
    requires Quiet(s) && id in s.submits && !s.submits[id].Sent? && !s.submits[id].MarkedUnknown?
    ensures Settled(s.tables.rows, s.submits[id := p], Runs(s)) && CancelsReturned(s.cancels, s.submits[id := p])
  {
    forall x | x in s.tables.rows ensures RowSettled(s.tables.rows, s.submits[id := p], Runs(s), x) {
      assert RowSettled(s.tables.rows, s.submits, Runs(s), x);
    }
  }

  lemma InsertKeepsSettled(t: Tables, submits: map<string, SubmitPhase>, runs: map<string, Execution>, q: Request,
      draw: Draw, now: int)
    requires Settled(t.rows, submits, runs) && draw.id !in t.rows
    ensures Settled(Inserted(t, q, draw, now).rows, submits[draw.id := Committed], runs)
  {
    var rows := Inserted(t, q, draw, now).rows;
    forall x | x in rows ensures RowSettled(rows, submits[draw.id := Committed], runs, x) {
      if x != draw.id {
        assert RowSettled(t.rows, submits, runs, x);
      }
    }
  }

  lemma SubmitKeepsQuiet(c: R.Config, s: System, q: Request, draw: Draw, now: int)
    requires Inv(s) && Quiet(s)
    ensures Quiet(Apply(c, s, Submit(q, draw, now)))
  {
    if !s.registry.crashed && Admitted(q, now) && Insertable(s.tables, q, draw) {
      InsertKeepsSettled(s.tables, s.submits, Runs(s), q, draw, now);
      assert draw.id !in s.submits;
    }
  }

  lemma RouteKeepsQuiet(c: R.Config, s: System, id: string)
    requires Quiet(s)
    ensures Quiet(Apply(c, s, RouteSubmit(id)))
  {
    if InPhase(s, id, false) {
      var route := R.Route(s.registry, s.journal[id].job.agent);
      PhaseKeepsQuiet(s, id, if route.Some? then Routed(route.value) else LookupFailed);
    }
  }

  lemma SendKeepsQuiet(c: R.Config, s: System, id: string)
    requires Quiet(s)
    ensures Quiet(Apply(c, s, SendSubmit(id)))
  {
    if InPhase(s, id, true) {
      PhaseKeepsQuiet(s, id, Sent);
    }
  }

  lemma GiveUpKeepsQuiet(c: R.Config, s: System, id: string)
    requires Quiet(s)
    ensures Quiet(Apply(c, s, GiveUpSubmit(id)))
  {
    if GivesUp(s, id) {
      PhaseKeepsQuiet(s, id, GaveUp);
    }
  }

  lemma MarkedKeepsSettled(t: Tables, submits: map<string, SubmitPhase>, runs: map<string, Execution>, id: string)
    requires Settled(t.rows, submits, runs) && id in submits && id in t.rows
    ensures Settled(WithState(t, id, UnknownResult).rows, submits[id := MarkedUnknown], runs)
  {
    var rows := WithState(t, id, UnknownResult).rows;
    forall x | x in rows ensures RowSettled(rows, submits[id := MarkedUnknown], runs, x) {
      assert RowSettled(t.rows, submits, runs, x);
    }
  }

  lemma SubmittedHasRow(s: System, id: string)
    requires Inv(s) && id in s.submits
    ensures id in s.tables.rows
  {}

  lemma MarkIs(c: R.Config, s: System, id: string)
    requires MarksUnknown(s, id)
    ensures Apply(c, s, MarkUnknown(id))
        == s.(tables := WithState(s.tables, id, UnknownResult), submits := s.submits[id := MarkedUnknown])
  {}

  lemma MarkKeepsQuiet(c: R.Config, s: System, id: string)
    requires Quiet(s) && (MarksUnknown(s, id) ==> id in s.tables.rows)
    ensures Quiet(Apply(c, s, MarkUnknown(id)))
  {
    if MarksUnknown(s, id) {
      MarkIs(c, s, id);
      MarkedKeepsSettled(s.tables, s.submits, Runs(s), id);
      PhaseKeepsQuiet(s, id, MarkedUnknown);
    }
  }

  /** Changing one row, for a good reason. */
  lemma CloseKeepsSettled(s: System, rows: map<string, Row>, id: string)
    requires Quiet(s) && id in s.submits && s.submits[id] == Sent && id in s.tables.rows && id in rows
    requires rows == s.tables.rows[id := rows[id]]
    requires RowSettled(rows, s.submits, Runs(s), id)
    ensures Settled(rows, s.submits, Runs(s))
  {
    forall x | x in rows ensures RowSettled(rows, s.submits, Runs(s), x) {
      if x != id {
        assert RowSettled(s.tables.rows, s.submits, Runs(s), x);
      }
    }
  }

  lemma ExecutedWasSent(s: System, id: string)
    requires Inv(s) && id in Runs(s)
    ensures id in s.submits && s.submits[id] == Sent && id in s.tables.rows
  {
    var n := s.executedAt[id];
    assert ExecutionOk(s.registry.sessions, s.journal, s.placed, s.executedAt, s.executed[n], n);
  }

  lemma RecordKeepsQuiet(c: R.Config, s: System, agent: string, r: JobResult)
    requires Inv(s) && Quiet(s) && Disciplined(s, Record(agent, r))
    ensures Quiet(Apply(c, s, Record(agent, r)))
  {
    if !s.registry.crashed && Accepts(s.tables, agent, r) {
      ExecutedWasSent(s, r.jobId);
      assert Reply(agent, r).result == ResultOf(Runs(s)[r.jobId]);
      assert RowSettled(s.tables.rows, s.submits, Runs(s), r.jobId);
      CloseKeepsSettled(s, Recorded(s.tables, agent, r).rows, r.jobId);
    }
  }

  lemma CancelStartKeepsReturned(c: R.Config, s: System, step: Step)
    requires CancelsReturned(s.cancels, s.submits) && Disciplined(s, step) && step.CancelStart?
    ensures CancelsReturned(Apply(c, s, step).cancels, s.submits)
  {}

  lemma RouteCancelKeepsReturned(c: R.Config, s: System, call: nat)
    requires CancelsReturned(s.cancels, s.submits)
    ensures CancelsReturned(Apply(c, s, RouteCancel(call)).cancels, s.submits)
  {
    var t := Apply(c, s, RouteCancel(call));
    if call in s.cancels && call in t.cancels {
      assert CancelId(t.cancels[call]) == CancelId(s.cancels[call]);
    }
  }

  lemma SendCancelKeepsQuiet(c: R.Config, s: System, call: nat)
    requires Quiet(s)
    ensures Quiet(Apply(c, s, SendCancel(call)))
  {
    var t := Apply(c, s, SendCancel(call));
    assert t == s.(registry := t.registry, cancels := t.cancels);
    if CancelIn(s, call) && s.cancels[call].CancelRouted? {
      assert t.cancels == s.cancels || t.cancels == s.cancels[call := CancelSent(s.cancels[call].id)];
      assert CancelId(s.cancels[call]) == s.cancels[call].id;
    }
  }

  lemma CallKeepsQuiet(c: R.Config, s: System, step: Step)
    requires Quiet(s) && Disciplined(s, step) && (step.CancelStart? || step.RouteCancel? || step.GiveUpCancel?)
    ensures Quiet(Apply(c, s, step))
  {
    CallChangesOnlyCancels(c, s, step);
    if step.CancelStart? {
      CancelStartKeepsReturned(c, s, step);
    } else if step.RouteCancel? {
      RouteCancelKeepsReturned(c, s, step.call);
    }
  }

  lemma CancelledKeepsSettled(s: System, id: string)
    requires Quiet(s) && id in s.submits && s.submits[id] == Sent
    ensures Settled(CancelledIfOpen(s.tables, id).rows, s.submits, Runs(s))
  {
    if id in s.tables.rows && Open(s.tables.rows[id].state) {
      assert RowSettled(s.tables.rows, s.submits, Runs(s), id);
      CloseKeepsSettled(s, CancelledIfOpen(s.tables, id).rows, id);
    }
  }

  lemma WriteCancelKeepsQuiet(c: R.Config, s: System, call: nat)
    requires Quiet(s)
    ensures Quiet(Apply(c, s, WriteCancel(call)))
  {
    if CancelIn(s, call) && s.cancels[call].CancelSent? {
      assert CancelId(s.cancels[call]) == s.cancels[call].id;
      CancelledKeepsSettled(s, s.cancels[call].id);
    }
  }

  lemma RanKeepsSettled(rows: map<string, Row>, submits: map<string, SubmitPhase>, runs: map<string, Execution>,
      id: string, e: Execution)
    requires Settled(rows, submits, runs) && id !in runs
    ensures Settled(rows, submits, runs[id := e])
  {
    forall x | x in rows ensures RowSettled(rows, submits, runs[id := e], x) {
      assert RowSettled(rows, submits, runs, x);
    }
  }

  /** A job's first execution is the only one. */
  lemma DeliverRuns(c: R.Config, s: System, i: nat, k: nat, now: int, contextDone: bool, run: Outcome)
    requires Inv(s) && Delivers(s, i, k, now)
    ensures var job := s.registry.sessions[i].delivered[k].job;
            && job.id !in Runs(s)
            && Runs(Apply(c, s, Deliver(i, k, now, contextDone, run)))
                 == Runs(s)[job.id := Execution(i, job, contextDone, run)]
  {
    DeliveredJob(s, i, k);
    var job := s.registry.sessions[i].delivered[k].job;
    if job.id in s.executedAt {
      RanBeforeIsSeen(s, i, job);
    }
    OneMoreRun(s.executed, s.executedAt, Execution(i, job, contextDone, run));
  }

  lemma OneMoreRun(executed: seq<Execution>, executedAt: map<string, nat>, e: Execution)
    requires e.job.id !in executedAt && forall x :: x in executedAt ==> executedAt[x] < |executed|
    ensures RunsOf(executed + [e], executedAt[e.job.id := |executed|]) == RunsOf(executed, executedAt)[e.job.id := e]
  {}

  lemma OneMoreReply(outbox: set<Reply>, runs: map<string, Execution>, e: Execution)
    requires HonestOutbox(outbox, runs) && e.job.id !in runs
    ensures HonestOutbox(outbox + {Reply(e.job.agent, ResultOf(e))}, runs[e.job.id := e])
  {
    DispatchCloses(e.job, e.contextDone, e.run);
  }

  lemma DeliverKeepsQuiet(c: R.Config, s: System, i: nat, k: nat, now: int, contextDone: bool, run: Outcome)
    requires Inv(s) && Quiet(s)
    ensures Quiet(Apply(c, s, Deliver(i, k, now, contextDone, run)))
  {
    var t := Apply(c, s, Deliver(i, k, now, contextDone, run));
    if Delivers(s, i, k, now) {
      var job := s.registry.sessions[i].delivered[k].job;
      var e := Execution(i, job, contextDone, run);
      DeliverRuns(c, s, i, k, now, contextDone, run);
      DeliveredJob(s, i, k);
      assert t.tables == s.tables && t.submits == s.submits && t.cancels == s.cancels;
      assert t.outbox == s.outbox + {Reply(job.agent, ResultOf(e))};
      OneMoreReply(s.outbox, Runs(s), e);
      RanKeepsSettled(s.tables.rows, s.submits, Runs(s), job.id, e);
    }
  }

  lemma RestartKeepsQuiet(c: R.Config, s: System)
    requires Quiet(s)
    ensures Quiet(Apply(c, s, Restart))
  {
    var submits := map x | x in s.submits :: Interrupted(s.submits[x]);
    RestartKeepsSettled(s.tables.rows, s.submits, Runs(s), submits);
  }

  lemma RestartKeepsSettled(rows: map<string, Row>, submits: map<string, SubmitPhase>, runs: map<string, Execution>,
      after: map<string, SubmitPhase>)
    requires Settled(rows, submits, runs)
    requires after.Keys == submits.Keys && forall x :: x in after ==> after[x] == Interrupted(submits[x])
    ensures Settled(rows, after, runs)
  {
    forall x | x in rows ensures RowSettled(rows, after, runs, x) {
      assert RowSettled(rows, submits, runs, x);
    }
  }

  lemma StepKeepsQuiet(c: R.Config, s: System, step: Step)
    requires Inv(s) && Quiet(s) && Disciplined(s, step)
    ensures Quiet(Apply(c, s, step))
  {
    match step
    case Net(_) =>
    case Restart => RestartKeepsQuiet(c, s);
    case Submit(q, draw, now) => SubmitKeepsQuiet(c, s, q, draw, now);
    case RouteSubmit(id) => RouteKeepsQuiet(c, s, id);
    case SendSubmit(id) => SendKeepsQuiet(c, s, id);
    case GiveUpSubmit(id) => GiveUpKeepsQuiet(c, s, id);
    case MarkUnknown(id) =>
      if MarksUnknown(s, id) {
        SubmittedHasRow(s, id);
      }
      MarkKeepsQuiet(c, s, id);
    case CancelStart(_, _, _, _, _) => CallKeepsQuiet(c, s, step);
    case RouteCancel(_) => CallKeepsQuiet(c, s, step);
    case SendCancel(call) => SendCancelKeepsQuiet(c, s, call);
    case GiveUpCancel(_) => CallKeepsQuiet(c, s, step);
    case WriteCancel(call) => WriteCancelKeepsQuiet(c, s, call);
    case Deliver(i, k, now, done, run) => DeliverKeepsQuiet(c, s, i, k, now, done, run);
    case Record(agent, r) => RecordKeepsQuiet(c, s, agent, r);
  }

  lemma {:induction false} QuietInvariant(c: R.Config, users: set<string>, agents: set<string>, steps: seq<Step>)
    requires DisciplinedRun(c, Start(users, agents), steps)
    ensures Quiet(Run(c, Start(users, agents), steps))
  {
    if steps == [] {
    } else {
      QuietInvariant(c, users, agents, steps[..|steps| - 1]);
      ProtocolInvariant(c, users, agents, steps[..|steps| - 1]);
      StepKeepsQuiet(c, Run(c, Start(users, agents), steps[..|steps| - 1]), steps[|steps| - 1]);
    }
  }

  lemma RecordIs(c: R.Config, s: System, agent: string, r: JobResult)
    ensures Apply(c, s, Record(agent, r)).tables == if s.registry.crashed then s.tables
        else Recorded(s.tables, agent, r)
  {}

  lemma RecordedIs(t: Tables, agent: string, r: JobResult)
    ensures Recorded(t, agent, r).rows == if Accepts(t, agent, r)
      then t.rows[r.jobId := t.rows[r.jobId].(state := r.state, output := r.output, truncated := r.truncated)]
      else t.rows
  {}

  lemma OtherStepsKeepTables(c: R.Config, s: System, step: Step)
    requires !step.Submit? && !step.MarkUnknown? && !step.WriteCancel? && !step.Record?
    ensures Apply(c, s, step).tables == s.tables
  {}

  lemma ClosedRowInTableSteps(c: R.Config, s: System, step: Step, x: string)
    requires x in s.tables.rows && !Open(s.tables.rows[x].state)
    requires step.Submit? || step.MarkUnknown? || step.WriteCancel? || step.Record?
    ensures x in Apply(c, s, step).tables.rows
    ensures Apply(c, s, step).tables.rows[x] != s.tables.rows[x]
       <==> step == MarkUnknown(x) && MarksUnknown(s, x) && s.tables.rows[x].state != UnknownResult
  {
    match step
    case Record(agent, r) =>
      RecordIs(c, s, agent, r);
      RecordedIs(s.tables, agent, r);
    case WriteCancel(call) => ClosedRowNotCancelled(c, s, call, x);
    case _ =>
  }

  lemma ClosedRowNotCancelled(c: R.Config, s: System, call: nat, x: string)
    requires x in s.tables.rows && !Open(s.tables.rows[x].state)
    ensures x in Apply(c, s, WriteCancel(call)).tables.rows
    ensures Apply(c, s, WriteCancel(call)).tables.rows[x] == s.tables.rows[x]
  {}

  /** The exact exception, in any state: a closed row is changed only by the unguarded update of its own
      submission, which found no session. */
  lemma {:induction false} ClosedRowChangesExactly(c: R.Config, s: System, step: Step, x: string)
    requires x in s.tables.rows && !Open(s.tables.rows[x].state)
    ensures x in Apply(c, s, step).tables.rows
    ensures Apply(c, s, step).tables.rows[x] != s.tables.rows[x]
       <==> step == MarkUnknown(x) && MarksUnknown(s, x) && s.tables.rows[x].state != UnknownResult
  {
    if step.Submit? || step.MarkUnknown? || step.WriteCancel? || step.Record? {
      ClosedRowInTableSteps(c, s, step, x);
    } else {
      OtherStepsKeepTables(c, s, step);
    }
  }

  /** Once a row is closed it never changes again, whichever result, cancel or failed dispatch follows. */
  lemma {:induction false} FirstTerminalWriteWins(c: R.Config, users: set<string>, agents: set<string>,
      prefix: seq<Step>, rest: seq<Step>, x: string)
    requires DisciplinedRun(c, Start(users, agents), prefix + rest)
    requires x in Run(c, Start(users, agents), prefix).tables.rows
    requires !Open(Run(c, Start(users, agents), prefix).tables.rows[x].state)
    ensures x in Run(c, Start(users, agents), prefix + rest).tables.rows
    ensures Run(c, Start(users, agents), prefix + rest).tables.rows[x]
        == Run(c, Start(users, agents), prefix).tables.rows[x]
  {
    if rest == [] {
      assert prefix + rest == prefix;
    } else {
      var all, before := prefix + rest, prefix + rest[..|rest| - 1];
      assert all[..|all| - 1] == before && all[|all| - 1] == rest[|rest| - 1];
      FirstTerminalWriteWins(c, users, agents, prefix, rest[..|rest| - 1], x);
      QuietInvariant(c, users, agents, before);
      var s := Run(c, Start(users, agents), before);
      assert RowSettled(s.tables.rows, s.submits, Runs(s), x);
      ClosedRowChangesExactly(c, s, rest[|rest| - 1], x);
    }
  }

  // ---- A submission that gave up ----

  /** Over without having sent its job or marked its row: its context ended, or the validator did. */
  predicate Stranded(p: SubmitPhase) {
    p.GaveUp? || p.Lost?
  }

  /** Each step changes no phase, or that of one submission that was still under way, or starts one. */
  lemma PhaseSteps(c: R.Config, s: System, step: Step)
    requires step.RouteSubmit? || step.SendSubmit? || step.GiveUpSubmit? || step.MarkUnknown?
    ensures var t := Apply(c, s, step);
            t.submits == s.submits ||
            (step.id in s.submits && step.id in t.submits && !Stranded(s.submits[step.id])
             && t.submits == s.submits[step.id := t.submits[step.id]])
  {}

  lemma OtherStepsKeepPhases(c: R.Config, s: System, step: Step)
    requires !step.RouteSubmit? && !step.SendSubmit? && !step.GiveUpSubmit? && !step.MarkUnknown?
    requires !step.Submit? && !step.Restart?
    ensures Apply(c, s, step).submits == s.submits
  {}

  lemma StrandedPhaseKept(c: R.Config, s: System, step: Step, x: string)
    requires x in s.submits && Stranded(s.submits[x]) && x in s.tables.rows
    ensures x in Apply(c, s, step).submits && Stranded(Apply(c, s, step).submits[x])
  {
    if step.RouteSubmit? || step.SendSubmit? || step.GiveUpSubmit? || step.MarkUnknown? {
      PhaseSteps(c, s, step);
    } else if !step.Submit? && !step.Restart? {
      OtherStepsKeepPhases(c, s, step);
    }
  }

  lemma StrandedRowKept(c: R.Config, s: System, step: Step, x: string)
    requires Disciplined(s, step) && HonestOutbox(s.outbox, Runs(s)) && CancelsReturned(s.cancels, s.submits)
    requires x in s.submits && Stranded(s.submits[x]) && x in s.tables.rows && x !in Runs(s)
    ensures x in Apply(c, s, step).tables.rows
    ensures Apply(c, s, step).tables.rows[x] == s.tables.rows[x]
  {
    match step
    case Submit(_, _, _) =>
    case MarkUnknown(id) => MarkOtherRow(c, s, id, x);
    case Record(agent, r) => RecordOtherRow(c, s, agent, r, x);
    case WriteCancel(call) => WriteOtherRow(c, s, call, x);
    case _ => OtherStepsKeepTables(c, s, step);
  }

  lemma MarkOtherRow(c: R.Config, s: System, id: string, x: string)
    requires x in s.tables.rows && x in s.submits && Stranded(s.submits[x])
    ensures x in Apply(c, s, MarkUnknown(id)).tables.rows
    ensures Apply(c, s, MarkUnknown(id)).tables.rows[x] == s.tables.rows[x]
  {}

  lemma RecordOtherRow(c: R.Config, s: System, agent: string, r: JobResult, x: string)
    requires x in s.tables.rows && x !in Runs(s)
    requires HonestOutbox(s.outbox, Runs(s)) && Reply(agent, r) in s.outbox
    ensures x in Apply(c, s, Record(agent, r)).tables.rows
    ensures Apply(c, s, Record(agent, r)).tables.rows[x] == s.tables.rows[x]
  {
    assert Reply(agent, r).result.jobId in Runs(s);
    RecordIs(c, s, agent, r);
    RecordedIs(s.tables, agent, r);
  }

  lemma WriteOtherRow(c: R.Config, s: System, call: nat, x: string)
    requires x in s.tables.rows && x in s.submits && Stranded(s.submits[x]) && CancelsReturned(s.cancels, s.submits)
    ensures x in Apply(c, s, WriteCancel(call)).tables.rows
    ensures Apply(c, s, WriteCancel(call)).tables.rows[x] == s.tables.rows[x]
  {
    if call in s.cancels {
      assert CancelId(s.cancels[call]) == s.cancels[call].id;
    }
  }

  lemma StrandedNeverRan(s: System, x: string)
    requires Inv(s) && x in s.submits && Stranded(s.submits[x])
    ensures x !in Runs(s)
  {
    if x in Runs(s) {
      ExecutedWasSent(s, x);
    }
  }

  /** A restart leaves no call under way and the tables as they are: a submission whose job was neither sent nor
      marked is lost, and every session is gone. */
  lemma {:induction false} RestartLosesCalls(c: R.Config, s: System)
    ensures var t := Apply(c, s, Restart);
            && t.tables == s.tables && t.executed == s.executed && t.cancels == map[]
            && t.submits.Keys == s.submits.Keys && t.registry.entries == map[]
            && (forall x :: x in s.submits ==>
                 && (s.submits[x].Sent? || s.submits[x].MarkedUnknown? || Stranded(s.submits[x]) ==>
                      t.submits[x] == s.submits[x])
                 && (s.submits[x].Committed? || s.submits[x].Routed? || s.submits[x].LookupFailed? ==>
                      t.submits[x] == Lost))
            && forall i :: 0 <= i < |t.registry.sessions| ==> t.registry.sessions[i].closed
  {}

  /** When the context of a dispatch ends, or the validator restarts before the job is sent, the row stays
      DISPATCHED for good: the job never runs, and nothing ever changes the row. */
  lemma {:induction false} StrandedStaysDispatched(c: R.Config, users: set<string>, agents: set<string>,
      prefix: seq<Step>, rest: seq<Step>, x: string)
    requires DisciplinedRun(c, Start(users, agents), prefix + rest)
    requires var s := Run(c, Start(users, agents), prefix); x in s.submits && Stranded(s.submits[x])
    ensures var s, t := Run(c, Start(users, agents), prefix), Run(c, Start(users, agents), prefix + rest);
            && x in t.submits && Stranded(t.submits[x]) && x !in Runs(t)
            && x in s.tables.rows && x in t.tables.rows && t.tables.rows[x] == s.tables.rows[x]
            && t.tables.rows[x].state == Dispatched
  {
    var all := prefix + rest;
    if rest == [] {
      assert all == prefix;
    } else {
      var before := prefix + rest[..|rest| - 1];
      assert all[..|all| - 1] == before && all[|all| - 1] == rest[|rest| - 1];
      StrandedStaysDispatched(c, users, agents, prefix, rest[..|rest| - 1], x);
      ProtocolInvariant(c, users, agents, before);
      QuietInvariant(c, users, agents, before);
      SubmittedHasRow(Run(c, Start(users, agents), before), x);
      StrandedPhaseKept(c, Run(c, Start(users, agents), before), rest[|rest| - 1], x);
      StrandedRowKept(c, Run(c, Start(users, agents), before), rest[|rest| - 1], x);
    }
    ProtocolInvariant(c, users, agents, all);
    QuietInvariant(c, users, agents, all);
    var t := Run(c, Start(users, agents), all);
    StrandedNeverRan(t, x);
    SubmittedHasRow(t, x);
    assert RowSettled(t.tables.rows, t.submits, Runs(t), x);
  }

  /** A row that says succeeded, failed, timed out or rejected tells exactly how the one execution of its
      job ended, on a session of that job's agent, and holds exactly what its run gave. */
  lemma {:induction false} ReportedRowsRan(c: R.Config, users: set<string>, agents: set<string>, steps: seq<Step>,
      x: string)
    requires DisciplinedRun(c, Start(users, agents), steps)
    requires x in Run(c, Start(users, agents), steps).tables.rows
    requires ReportedByAgent(Run(c, Start(users, agents), steps).tables.rows[x].state)
    ensures var s := Run(c, Start(users, agents), steps);
            var row := s.tables.rows[x];
            && x in s.executedAt && s.executedAt[x] < |s.executed|
            && var e := s.executed[s.executedAt[x]];
            var ran := Reached(e.job, e.contextDone);
            && e.job.id == x && e.job.agent == row.agent
            && (row.state == Succeeded <==> ran && e.run.err == NoError)
            && (row.state == Failed <==> ran && e.run.err == OtherError)
            && (row.state == TimedOut <==> ran && e.run.err == DeadlineExceeded)
            && (row.state == Rejected <==> !e.contextDone && !ran)
            && (row.output, row.truncated) == if ran then (e.run.output, e.run.truncated) else ([], false)
  {
    var s := Run(c, Start(users, agents), steps);
    QuietInvariant(c, users, agents, steps);
    ProtocolInvariant(c, users, agents, steps);
    assert RowSettled(s.tables.rows, s.submits, Runs(s), x);
    var n := s.executedAt[x];
    assert ExecutionOk(s.registry.sessions, s.journal, s.placed, s.executedAt, s.executed[n], n);
    assert CommitOk(s.tables, s.journal, x);
    DispatchCloses(s.executed[n].job, s.executed[n].contextDone, s.executed[n].run);
  }

  /** No row holds any output but that of its job's one execution, whatever its state. */
  lemma {:induction false} OutputIsTheRuns(c: R.Config, users: set<string>, agents: set<string>, steps: seq<Step>,
      x: string)
    requires DisciplinedRun(c, Start(users, agents), steps)
    requires x in Run(c, Start(users, agents), steps).tables.rows
    requires Run(c, Start(users, agents), steps).tables.rows[x].output != []
    ensures var s := Run(c, Start(users, agents), steps);
            && x in s.executedAt && s.executedAt[x] < |s.executed|
            && var e := s.executed[s.executedAt[x]];
            e.job.id == x && Reached(e.job, e.contextDone) && s.tables.rows[x].output == e.run.output
  {
    var s := Run(c, Start(users, agents), steps);
    QuietInvariant(c, users, agents, steps);
    ProtocolInvariant(c, users, agents, steps);
    assert RowSettled(s.tables.rows, s.submits, Runs(s), x);
    var n := s.executedAt[x];
    assert ExecutionOk(s.registry.sessions, s.journal, s.placed, s.executedAt, s.executed[n], n);
    DispatchCloses(s.executed[n].job, s.executed[n].contextDone, s.executed[n].run);
  }

  /** The agent's reply is recorded, whole, exactly while its job's row is open; no other row notices. */
  lemma {:induction false} ReplyIsRecordedExactly(c: R.Config, users: set<string>, agents: set<string>,
      steps: seq<Step>, agent: string, r: JobResult)
    requires DisciplinedRun(c, Start(users, agents), steps)
    requires var s := Run(c, Start(users, agents), steps); Reply(agent, r) in s.outbox && !s.registry.crashed
    ensures var s := Run(c, Start(users, agents), steps);
            var before, after := s.tables.rows, Apply(c, s, Record(agent, r)).tables.rows;
            && r.jobId in before && after.Keys == before.Keys
            && (forall x :: x in before && x != r.jobId ==> after[x] == before[x])
            && after[r.jobId] == if before[r.jobId].state == Dispatched || before[r.jobId].state == Running
                 then before[r.jobId].(state := r.state, output := r.output, truncated := r.truncated)
                 else before[r.jobId]
  {
    var s := Run(c, Start(users, agents), steps);
    QuietInvariant(c, users, agents, steps);
    ProtocolInvariant(c, users, agents, steps);
    ReplyMatchesRow(s, agent, r);
    RecordIs(c, s, agent, r);
    RecordedIs(s.tables, agent, r);
  }

  lemma ReplyMatchesRow(s: System, agent: string, r: JobResult)
    requires Inv(s) && HonestOutbox(s.outbox, Runs(s)) && Reply(agent, r) in s.outbox
    ensures r.jobId in s.tables.rows && s.tables.rows[r.jobId].agent == agent
    ensures s.tables.rows[r.jobId].dispatchId == r.dispatchId && s.tables.rows[r.jobId].attempt == r.attempt
  {
    var x := r.jobId;
    assert Reply(agent, r).agent == Runs(s)[x].job.agent;
    var e := s.executed[s.executedAt[x]];
    assert ExecutionOk(s.registry.sessions, s.journal, s.placed, s.executedAt, e, s.executedAt[x]);
    CommittedRow(s, x);
    DispatchCloses(e.job, e.contextDone, e.run);
  }

  lemma CommittedRow(s: System, x: string)
    requires Inv(s) && x in s.journal
    ensures x in s.tables.rows && s.journal[x].job.id == x
    ensures var row, job := s.tables.rows[x], s.journal[x].job;
      row.agent == job.agent && row.dispatchId == job.dispatchId && row.attempt == job.attempt
  {
    assert CommitOk(s.tables, s.journal, x);
  }

  // ---- Cancels reach the right agent ----

  /** A cancel under way names a row, its dispatch, and a session of its agent. */
  ghost predicate CancelOk(rows: map<string, Row>, sessions: Sessions, p: CancelPhase) {
    match p
    case CancelRead(id, agent, dispatch) => id in rows && rows[id].agent == agent && rows[id].dispatchId == dispatch
    case CancelRouted(id, dispatch, i) =>
      id in rows && rows[id].dispatchId == dispatch && i < |sessions| && sessions[i].agent == rows[id].agent
    case CancelSent(_) => true
  }

  ghost predicate CancelLogged(rows: map<string, Row>, agent: string, m: Message) {
    m.CancelMessage? ==> m.jobId in rows && rows[m.jobId].agent == agent && rows[m.jobId].dispatchId == m.requestId
  }

  ghost predicate CallsOk(rows: map<string, Row>, sessions: Sessions, cancels: map<nat, CancelPhase>) {
    forall call :: call in cancels ==> CancelOk(rows, sessions, cancels[call])
  }

  ghost predicate LogsOk(rows: map<string, Row>, sessions: Sessions) {
    forall i, k :: 0 <= i < |sessions| && 0 <= k < |sessions[i].enqueued| ==>
      CancelLogged(rows, sessions[i].agent, sessions[i].enqueued[k])
  }

  ghost predicate CancelsOk(s: System) {
    CallsOk(s.tables.rows, s.registry.sessions, s.cancels) && LogsOk(s.tables.rows, s.registry.sessions)
  }

  /** Rows keep their agent and dispatch, sessions their agent. */
  ghost predicate Kept(a: map<string, Row>, b: map<string, Row>, x: Sessions, y: Sessions) {
    && (forall id :: id in a ==> id in b && b[id].agent == a[id].agent && b[id].dispatchId == a[id].dispatchId)
    && |x| <= |y| && forall i :: 0 <= i < |x| ==> y[i].agent == x[i].agent
  }

  lemma CallsStayOk(a: map<string, Row>, b: map<string, Row>, x: Sessions, y: Sessions, cancels: map<nat, CancelPhase>)
    requires CallsOk(a, x, cancels) && Kept(a, b, x, y)
    ensures CallsOk(b, y, cancels)
  {
    forall call | call in cancels ensures CancelOk(b, y, cancels[call]) {
      assert CancelOk(a, x, cancels[call]);
    }
  }

  /** Logs grow by at most this message. */
  ghost predicate Adds(x: Sessions, y: Sessions, at: nat, m: Option<Message>) {
    forall i, k :: 0 <= i < |y| && 0 <= k < |y[i].enqueued| ==>
      || (i < |x| && k < |x[i].enqueued| && y[i].enqueued[k] == x[i].enqueued[k])
      || (m == Some(y[i].enqueued[k]) && i == at)
  }

  lemma LogsStayOk(a: map<string, Row>, b: map<string, Row>, x: Sessions, y: Sessions, at: nat, m: Option<Message>)
    requires LogsOk(a, x) && Kept(a, b, x, y) && Adds(x, y, at, m)
    requires m.Some? && at < |y| ==> CancelLogged(b, y[at].agent, m.value)
    ensures LogsOk(b, y)
  {
    forall i, k | 0 <= i < |y| && 0 <= k < |y[i].enqueued| ensures CancelLogged(b, y[i].agent, y[i].enqueued[k]) {
      if i < |x| && k < |x[i].enqueued| {
        assert CancelLogged(a, x[i].agent, x[i].enqueued[k]);
      }
    }
  }

  lemma RegistryAdds(c: R.Config, r: R.State, step: R.Step)
    ensures var t := R.Apply(c, r, step);
            && |r.sessions| <= |t.sessions|
                 && (forall i :: 0 <= i < |r.sessions| ==> t.sessions[i].agent == r.sessions[i].agent)
            && Adds(r.sessions, t.sessions, if step.Enqueue? then step.session else 0,
                 if step.Enqueue? then Some(step.message) else None)
  {
    if step.Enqueue? {
      EnqueueAdds(c, r, step.session, step.message);
    } else {
      OthersAddNothing(c, r, step);
    }
  }

  lemma EnqueueAdds(c: R.Config, r: R.State, i: nat, m: Message)
    ensures var t := R.Apply(c, r, R.Enqueue(i, m));
            && |r.sessions| <= |t.sessions|
                 && (forall j :: 0 <= j < |r.sessions| ==> t.sessions[j].agent == r.sessions[j].agent)
            && Adds(r.sessions, t.sessions, i, Some(m))
  {}

  lemma OthersAddNothing(c: R.Config, r: R.State, step: R.Step)
    requires !step.Enqueue?
    ensures var t := R.Apply(c, r, step);
            && |r.sessions| <= |t.sessions|
                 && (forall i :: 0 <= i < |r.sessions| ==> t.sessions[i].agent == r.sessions[i].agent)
            && Adds(r.sessions, t.sessions, 0, None)
  {}

  /** What one step does to calls, rows and the registry, as far as cancels are concerned. */
  lemma RegistryKeepsCancels(c: R.Config, s: System, step: R.Step)
    requires CancelsOk(s)
    requires step.Enqueue? && step.session < |s.registry.sessions| ==>
      CancelLogged(s.tables.rows, s.registry.sessions[step.session].agent, step.message)
    ensures CancelsOk(s.(registry := R.Apply(c, s.registry, step)))
  {
    var rows, x, y := s.tables.rows, s.registry.sessions, R.Apply(c, s.registry, step).sessions;
    RegistryAdds(c, s.registry, step);
    CallsStayOk(rows, rows, x, y, s.cancels);
    if step.Enqueue? && step.session >= |x| {
      assert y == x;
    } else {
      LogsStayOk(rows, rows, x, y, if step.Enqueue? then step.session else 0,
          if step.Enqueue? then Some(step.message) else None);
    }
  }

  lemma RowsKeepCancels(s: System, t: Tables)
    requires CancelsOk(s) && Kept(s.tables.rows, t.rows, s.registry.sessions, s.registry.sessions)
    ensures CancelsOk(s.(tables := t))
  {
    var x := s.registry.sessions;
    CallsStayOk(s.tables.rows, t.rows, x, x, s.cancels);
    LogsStayOk(s.tables.rows, t.rows, x, x, 0, None);
  }

  lemma StepKeepsRows(c: R.Config, s: System, step: Step)
    ensures var a, b := s.tables.rows, Apply(c, s, step).tables.rows;
      forall id :: id in a ==> id in b && b[id].agent == a[id].agent && b[id].dispatchId == a[id].dispatchId
  {
    match step
    case Submit(_, _, _) =>
    case MarkUnknown(id) =>
    case WriteCancel(call) =>
    case Record(agent, r) =>
      RecordIs(c, s, agent, r);
      RecordedIs(s.tables, agent, r);
    case _ => OtherStepsKeepTables(c, s, step);
  }

  lemma StartKeepsCancels(c: R.Config, s: System, step: Step)
    requires CancelsOk(s) && Inv(s) && (step.CancelStart? || step.RouteCancel? || step.GiveUpCancel?)
    ensures CancelsOk(Apply(c, s, step))
  {
    CallChangesOnlyCancels(c, s, step);
    if step.RouteCancel? {
      RouteKeepsCalls(c, s, step.call);
    } else {
      StartKeepsCalls(c, s, step);
    }
  }

  lemma StartKeepsCalls(c: R.Config, s: System, step: Step)
    requires CancelsOk(s) && (step.CancelStart? || step.GiveUpCancel?)
    ensures CallsOk(s.tables.rows, s.registry.sessions, Apply(c, s, step).cancels)
  {}

  lemma RouteKeepsCalls(c: R.Config, s: System, call: nat)
    requires CancelsOk(s) && Linked(s.registry)
    ensures CallsOk(s.tables.rows, s.registry.sessions, Apply(c, s, RouteCancel(call)).cancels)
  {
    if CancelIn(s, call) && s.cancels[call].CancelRead? {
      assert CancelOk(s.tables.rows, s.registry.sessions, s.cancels[call]);
    }
  }

  lemma SendKeepsCancels(c: R.Config, s: System, call: nat)
    requires CancelsOk(s)
    ensures CancelsOk(Apply(c, s, SendCancel(call)))
  {
    if CancelIn(s, call) && s.cancels[call].CancelRouted? {
      var p := s.cancels[call];
      assert CancelOk(s.tables.rows, s.registry.sessions, p);
      var x := R.Enqueue(p.session, CancelMessage(p.id, p.dispatchId));
      RegistryKeepsCancels(c, s, x);
      var t := s.(registry := R.Apply(c, s.registry, x));
      assert Apply(c, s, SendCancel(call)) == t.(cancels := if R.RoomIn(c, s.registry, p.session)
                                                            then s.cancels[call := CancelSent(p.id)] else s.cancels);
    }
  }

  lemma SubmitSendKeepsCancels(c: R.Config, s: System, id: string)
    requires CancelsOk(s)
    ensures CancelsOk(Apply(c, s, SendSubmit(id)))
  {
    if InPhase(s, id, true) {
      var x := R.Enqueue(s.submits[id].session, JobMessage(s.journal[id].job));
      RegistryKeepsCancels(c, s, x);
      var t := Apply(c, s, SendSubmit(id));
      assert t.registry == R.Apply(c, s.registry, x) && t.tables == s.tables && t.cancels == s.cancels;
    }
  }

  lemma WriteKeepsCancels(c: R.Config, s: System, call: nat)
    requires CancelsOk(s)
    ensures CancelsOk(Apply(c, s, WriteCancel(call)))
  {
    var t := Apply(c, s, WriteCancel(call));
    StepKeepsRows(c, s, WriteCancel(call));
    assert t.registry == s.registry;
    RowsKeepCancels(s, t.tables);
    assert forall x :: x in t.cancels ==> x in s.cancels && t.cancels[x] == s.cancels[x];
  }

  lemma ArchiveKeepsCancels(c: R.Config, s: System)
    requires CancelsOk(s)
    ensures CancelsOk(Apply(c, s, Restart))
  {
    var x, y := s.registry.sessions, Archive(s.registry).sessions;
    LogsStayOk(s.tables.rows, s.tables.rows, x, y, 0, None);
  }

  lemma StepKeepsCancels(c: R.Config, s: System, step: Step)
    requires CancelsOk(s) && Inv(s)
    ensures CancelsOk(Apply(c, s, step))
  {
    match step
    case Net(x) =>
      if NetStep(x) {
        RegistryKeepsCancels(c, s, x);
      }
    case Restart => ArchiveKeepsCancels(c, s);
    case SendSubmit(id) => SubmitSendKeepsCancels(c, s, id);
    case SendCancel(call) => SendKeepsCancels(c, s, call);
    case WriteCancel(call) => WriteKeepsCancels(c, s, call);
    case CancelStart(_, _, _, _, _) => StartKeepsCancels(c, s, step);
    case RouteCancel(_) => StartKeepsCancels(c, s, step);
    case GiveUpCancel(_) => StartKeepsCancels(c, s, step);
    case _ =>
      StepKeepsRows(c, s, step);
      RowsKeepCancels(s, Apply(c, s, step).tables);
      OthersKeepCalls(c, s, step);
  }

  lemma OthersKeepCalls(c: R.Config, s: System, step: Step)
    requires step.Submit? || step.RouteSubmit? || step.GiveUpSubmit? || step.MarkUnknown? || step.Deliver?
        || step.Record?
    ensures Apply(c, s, step).registry == s.registry && Apply(c, s, step).cancels == s.cancels
  {}

  lemma {:induction false} CancelInvariant(c: R.Config, users: set<string>, agents: set<string>, steps: seq<Step>)
    ensures CancelsOk(Run(c, Start(users, agents), steps))
  {
    if steps == [] {
    } else {
      CancelInvariant(c, users, agents, steps[..|steps| - 1]);
      ProtocolInvariant(c, users, agents, steps[..|steps| - 1]);
      StepKeepsCancels(c, Run(c, Start(users, agents), steps[..|steps| - 1]), steps[|steps| - 1]);
    }
  }

  /** Every cancel message in any queue names a recorded job and the dispatch of its row, and sits in a session
      of that job's agent. */
  lemma {:induction false} CancelsGoToTheAgent(c: R.Config, users: set<string>, agents: set<string>,
      steps: seq<Step>, i: nat, k: nat)
    requires var s := Run(c, Start(users, agents), steps);
             i < |s.registry.sessions| && k < |s.registry.sessions[i].enqueued|
                 && s.registry.sessions[i].enqueued[k].CancelMessage?
    ensures var s := Run(c, Start(users, agents), steps);
            var m := s.registry.sessions[i].enqueued[k];
            && m.jobId in s.tables.rows && s.tables.rows[m.jobId].agent == s.registry.sessions[i].agent
            && s.tables.rows[m.jobId].dispatchId == m.requestId
  {
    CancelInvariant(c, users, agents, steps);
    var s := Run(c, Start(users, agents), steps);
    assert CancelLogged(s.tables.rows, s.registry.sessions[i].agent, s.registry.sessions[i].enqueued[k]);
  }

  // ---- Jobs come from requests ----

  /** Every row comes from one request that was allowed to make it: a command from an admin who confirmed it,
      a reboot of its own target, confirmed and in time, a cleanup with a valid preview in time. Job, row and
      audit row say what the request said. */
  lemma {:induction false} JobsComeFromRequests(c: R.Config, users: set<string>, agents: set<string>,
      steps: seq<Step>, x: string)
    requires x in Run(c, Start(users, agents), steps).tables.rows
    ensures var s := Run(c, Start(users, agents), steps);
            && x in s.journal && s.journal[x].audit in s.tables.audits
            && var q, at, job := s.journal[x].request, s.journal[x].at, s.journal[x].job;
            && job.id == x && Carried(q, at, job, s.tables.rows[x], s.tables.audits[s.journal[x].audit])
            && (job.operation.ArbitraryCommand? ==> q.admin && q.confirmed && job.operation.command != "")
            && (job.operation.Reboot? ==>
                 && q.confirmed && job.operation.target == job.agent && job.operation.confirmation != ""
                 && q.guardExpires >= job.created)
            && (job.operation.CleanupRun? ==> q.confirmed && q.guardOk && q.guardExpires >= job.created)
            && job.agent != "" && q.reason != "" && job.key != "" && 1000 <= job.deadline - job.created <= 3_600_000
  {
    ProtocolInvariant(c, users, agents, steps);
    var s := Run(c, Start(users, agents), steps);
    assert CommitOk(s.tables, s.journal, x);
  }

  /** An agent hands to its shell only commands that an admin confirmed for that agent, word by word. */
  lemma {:induction false} ShellRunsWhatAdminsConfirmed(c: R.Config, users: set<string>, agents: set<string>,
      steps: seq<Step>, n: nat)
    requires n < |Run(c, Start(users, agents), steps).executed|
    requires var e := Run(c, Start(users, agents), steps).executed[n];
      e.job.operation.ArbitraryCommand? && Reached(e.job, e.contextDone)
    ensures var s := Run(c, Start(users, agents), steps);
            var e := s.executed[n];
            && e.job.id in s.journal && e.session < |s.registry.sessions|
            && var q := s.journal[e.job.id].request;
            && q.admin && q.confirmed && q.operation.ArbitraryCommand?
            && q.agent == s.registry.sessions[e.session].agent && q.actor == e.job.actor
            && Argv(e.job) == Ok(["/bin/sh", "-c", q.operation.command])
  {
    ProtocolInvariant(c, users, agents, steps);
    var s := Run(c, Start(users, agents), steps);
    assert ExecutionOk(s.registry.sessions, s.journal, s.placed, s.executedAt, s.executed[n], n);
    assert CommitOk(s.tables, s.journal, s.executed[n].job.id);
  }

  // ---- A cancel that overtakes the dispatch ----

  lemma Extend(c: R.Config, steps: seq<Step>, step: Step) returns (more: seq<Step>)
    ensures more == steps + [step]
    ensures Run(c, Start({"u"}, {"a"}), more) == Apply(c, Run(c, Start({"u"}, {"a"}), steps), step)
  {
    more := steps + [step];
    assert more[..|more| - 1] == steps;
  }

  const QUERY: Request := Request("u", false, "a", "why", "key", 60, false, "process_list", Typed(["ps"]), false, 0)

  /** An agent is connected and one submission has committed. */
  lemma SubmittedOnly(c: R.Config) returns (steps: seq<Step>)
    requires c.version == 1
    ensures var s := Run(c, Start({"u"}, {"a"}), steps);
            && !s.registry.crashed && R.Route(s.registry, "a") == Some(0) && R.RoomIn(c, s.registry, 0)
            && s.submits == map["j" := Committed] && "j" in s.journal && s.journal["j"].job.agent == "a"
                 && s.cancels == map[]
            && "j" in s.tables.rows && s.tables.rows["j"].state == Dispatched && s.tables.rows["j"].agent == "a"
  {
    steps := Extend(c, [], Net(R.Acquire("a", "a", Some(R.Hello("a", 1, 1, true, 0)), 0)));
    steps := Extend(c, steps, Submit(QUERY, Draw("j", "d", "x"), 0));
  }

  /** A cancel of the id, which no submission has returned yet, finds the agent's session. */
  lemma CancelRoutedFirst(c: R.Config) returns (steps: seq<Step>)
    requires c.version == 1
    ensures var s := Run(c, Start({"u"}, {"a"}), steps);
            && !s.registry.crashed && R.RoomIn(c, s.registry, 0) && R.Route(s.registry, "a") == Some(0)
            && s.submits == map["j" := Committed] && "j" in s.journal && s.journal["j"].job.agent == "a"
            && 0 in s.cancels && s.cancels[0].CancelRouted? && s.cancels[0].id == "j" && s.cancels[0].session == 0
            && "j" in s.tables.rows && s.tables.rows["j"].state == Dispatched
  {
    steps := SubmittedOnly(c);
    steps := Extend(c, steps, CancelStart(0, "j", "why", 1, 0));
    steps := Extend(c, steps, RouteCancel(0));
  }

  /** The cancel runs to its end. */
  lemma CancelledFirst(c: R.Config) returns (steps: seq<Step>)
    requires c.version == 1
    ensures var s := Run(c, Start({"u"}, {"a"}), steps);
            && !s.registry.crashed && R.Route(s.registry, "a") == Some(0)
            && 0 < |s.registry.sessions| && !s.registry.sessions[0].closed
            && s.submits == map["j" := Committed] && "j" in s.journal && s.journal["j"].job.agent == "a"
            && "j" in s.tables.rows && s.tables.rows["j"].state == Cancelled
  {
    steps := CancelRoutedFirst(c);
    var s := Run(c, Start({"u"}, {"a"}), steps);
    R.EnqueueIs(c, s.registry, 0, CancelMessage("j", s.cancels[0].dispatchId));
    steps := Extend(c, steps, SendCancel(0));
    steps := Extend(c, steps, WriteCancel(0));
  }

  /** Then the agent is disconnected, so that the submission finds no session. */
  lemma LookupFailsAfterCancel(c: R.Config, before: seq<Step>) returns (steps: seq<Step>)
    requires var s := Run(c, Start({"u"}, {"a"}), before);
             && !s.registry.crashed && R.Route(s.registry, "a") == Some(0)
             && 0 < |s.registry.sessions| && !s.registry.sessions[0].closed
             && s.submits == map["j" := Committed] && "j" in s.journal && s.journal["j"].job.agent == "a"
             && "j" in s.tables.rows
    ensures steps == before + [Net(R.Disconnect("a", 1)), RouteSubmit("j")]
    ensures var s, t := Run(c, Start({"u"}, {"a"}), before), Run(c, Start({"u"}, {"a"}), steps);
            t.tables == s.tables && MarksUnknown(t, "j")
  {
    steps := Extend(c, before, Net(R.Disconnect("a", 1)));
    steps := Extend(c, steps, RouteSubmit("j"));
  }

  /** Without the discipline on cancels the first terminal write can lose: a submission that then finds
      no session turns CANCELLED into UNKNOWN_RESULT with its unguarded update. */
  lemma {:induction false} CancelOvertakesDispatch(c: R.Config) returns (prefix: seq<Step>, rest: seq<Step>)
    requires c.version == 1
    ensures var s, t := Run(c, Start({"u"}, {"a"}), prefix), Run(c, Start({"u"}, {"a"}), prefix + rest);
            && "j" in s.tables.rows && s.tables.rows["j"].state == Cancelled
            && "j" in t.tables.rows && t.tables.rows["j"].state == UnknownResult
  {
    prefix := CancelledFirst(c);
    var more := LookupFailsAfterCancel(c, prefix);
    more := Extend(c, more, MarkUnknown("j"));
    rest := [Net(R.Disconnect("a", 1)), RouteSubmit("j"), MarkUnknown("j")];
    assert prefix + rest == more;
  }
}
