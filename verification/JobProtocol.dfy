/** The job protocol over whole runs: the validator's calls broken into their atomic steps, the registry,
    the connections to agents, and one handler per connection, in any interleaving. A message taken from
    a session's queue may be delivered any number of times on that connection. The validator may crash
    (a panic) and restart with its tables. */
module JobProtocol {
  import opened Common
  import opened Protocol
  import opened JobTables
  import R = AgentRegistry
  import H = AgentHandler

  /** What a committed submission holds in memory and in the audit table; for the proofs, the request it
      came from. */
  datatype Commit = Commit(job: Job, audit: string, request: Request, at: int)

  /** Progress of a submission after its commit. A dispatch fails when it finds no session, or when its
      context ends while it waits for room. Once the context has ended, the update that should mark the row
      is refused, and the submission is over. */
  datatype SubmitPhase =
    | Committed | Routed(session: nat) | LookupFailed | GaveUp | Sent | MarkedUnknown | Lost

  /** Progress of a CancelJob call after it read an unfinished row. */
  datatype CancelPhase =
    | CancelRead(id: string, agent: string, dispatchId: string)
    | CancelRouted(id: string, dispatchId: string, session: nat)
    | CancelSent(id: string)

  datatype Execution = Execution(session: nat, job: Job, contextDone: bool, run: Outcome)
  datatype Reply = Reply(agent: string, result: JobResult)
  datatype Place = Place(session: nat, index: nat)

  /** journal, executed, outbox, placed and executedAt are history, kept for the proofs. */
  datatype System = System(
    tables: Tables, registry: R.State,
    submits: map<string, SubmitPhase>, cancels: map<nat, CancelPhase>,
    journal: map<string, Commit>, executed: seq<Execution>, outbox: set<Reply>,
    placed: map<string, Place>, executedAt: map<string, nat>)

  function Start(users: set<string>, agents: set<string>): System {
    System(Tables(map[], map[], users, agents), R.INITIAL, map[], map[], map[], [], {}, map[], map[])
  }

  datatype Step =
    | Net(step: R.Step)  // connections, heartbeats, expiry, the sender taking messages, SSH messages
    | Restart
    | Submit(request: Request, draw: Draw, now: int)
    | RouteSubmit(id: string)
    | SendSubmit(id: string)
    | GiveUpSubmit(id: string)
    | MarkUnknown(id: string)
    | CancelStart(call: nat, id: string, reason: string, deadline: int, now: int)
    | RouteCancel(call: nat)
    | SendCancel(call: nat)
    | GiveUpCancel(call: nat)
    | WriteCancel(call: nat)
    | Deliver(session: nat, index: nat, now: int, contextDone: bool, run: Outcome)
    | Record(agent: string, result: JobResult)

  /** The keys the handler of a connection has seen. */
  function Seen(executed: seq<Execution>, session: nat): set<string> {
    set n | 0 <= n < |executed| && executed[n].session == session :: H.Key(executed[n].job)
  }

  predicate NetStep(step: R.Step) {
    step.Enqueue? ==> ForSsh(step.message)
  }

  /** Sessions outlive the validator only as logs. */
  function Archive(r: R.State): R.State {
    R.State(map[], 0,
      seq(|r.sessions|, i requires 0 <= i < |r.sessions| =>
        r.sessions[i].(queue := [], closed := true, released := true, ended := true)),
      false)
  }

  function Interrupted(p: SubmitPhase): SubmitPhase {
    if p.Committed? || p.Routed? || p.LookupFailed? then Lost else p
  }

  predicate InPhase(s: System, id: string, routed: bool) {
    && id in s.submits && id in s.journal && !s.registry.crashed
    && (if routed then s.submits[id].Routed?
         && s.submits[id].session < |s.registry.sessions| else s.submits[id].Committed?)
  }

  predicate CancelIn(s: System, call: nat) {
    call in s.cancels && !s.registry.crashed
  }

  predicate Delivers(s: System, i: nat, k: nat, now: int) {
    && i < |s.registry.sessions| && k < |s.registry.sessions[i].delivered|
    && s.registry.sessions[i].delivered[k].JobMessage?
    && H.Runs(s.registry.sessions[i].agent, Seen(s.executed, i), s.registry.sessions[i].delivered[k].job, now)
  }

  function Apply(c: R.Config, s: System, step: Step): System {
    match step
    case Net(x) => if NetStep(x) then s.(registry := R.Apply(c, s.registry, x)) else s
    case Restart =>
      s.(registry := Archive(s.registry), submits := map x | x in s.submits :: Interrupted(s.submits[x]),
          cancels := map[])
    case Submit(q, draw, now) =>
      if !s.registry.crashed && Admitted(q, now) && Insertable(s.tables, q, draw) then
        s.(tables := Inserted(s.tables, q, draw, now), submits := s.submits[draw.id := Committed],
           journal := s.journal[draw.id := Commit(JobOf(q, draw, now), draw.audit, q, now)])
      else s
    case RouteSubmit(id) =>
      if InPhase(s, id, false) then
        var route := R.Route(s.registry, s.journal[id].job.agent);
        s.(submits := s.submits[id := if route.Some? then Routed(route.value) else LookupFailed])
      else s
    case SendSubmit(id) =>
      if InPhase(s, id, true) then
        var i, m := s.submits[id].session, JobMessage(s.journal[id].job);
        if R.RoomIn(c, s.registry, i) then
          s.(registry := R.Apply(c, s.registry, R.Enqueue(i, m)), submits := s.submits[id := Sent],
             placed := s.placed[id := Place(i, |s.registry.sessions[i].enqueued|)])
        else s.(registry := R.Apply(c, s.registry, R.Enqueue(i, m)))  // blocks, or panics on a closed queue
      else s
    case GiveUpSubmit(id) =>
      if GivesUp(s, id) then s.(submits := s.submits[id := GaveUp]) else s
    case MarkUnknown(id) =>
      if MarksUnknown(s, id) then
        s.(tables := WithState(s.tables, id, UnknownResult), submits := s.submits[id := MarkedUnknown])
      else s
    case CancelStart(call, id, reason, deadline, now) =>
      if Cancels(s, call, id, reason, deadline, now) then
        s.(cancels := s.cancels[call := CancelRead(id, s.tables.rows[id].agent, s.tables.rows[id].dispatchId)])
      else s
    case RouteCancel(call) =>
      if CancelIn(s, call) && s.cancels[call].CancelRead? then
        var p := s.cancels[call];
        var route := R.Route(s.registry, p.agent);
        if route.Some? then s.(cancels := s.cancels[call := CancelRouted(p.id, p.dispatchId, route.value)])
        else s.(cancels := s.cancels - {call})
      else s
    case SendCancel(call) =>
      if CancelIn(s, call) && s.cancels[call].CancelRouted? then
        var p := s.cancels[call];
        s.(registry := R.Apply(c, s.registry, R.Enqueue(p.session, CancelMessage(p.id, p.dispatchId))),
           cancels := if R.RoomIn(c, s.registry, p.session) then s.cancels[call := CancelSent(p.id)] else s.cancels)
      else s
    case GiveUpCancel(call) =>
      if CancelIn(s, call) && s.cancels[call].CancelRouted? then s.(cancels := s.cancels - {call}) else s
    case WriteCancel(call) =>
      if CancelIn(s, call) && s.cancels[call].CancelSent? then
        s.(tables := CancelledIfOpen(s.tables, s.cancels[call].id), cancels := s.cancels - {call})
      else s
    case Deliver(i, k, now, contextDone, run) =>
      if Delivers(s, i, k, now) then
        var job := s.registry.sessions[i].delivered[k].job;
        s.(executed := s.executed + [Execution(i, job, contextDone, run)],
            executedAt := s.executedAt[job.id := |s.executed|],
           outbox := s.outbox + {Reply(s.registry.sessions[i].agent, DispatchResult(job, contextDone, run))})
      else s
    case Record(agent, r) =>
      if s.registry.crashed then s else s.(tables := Recorded(s.tables, agent, r))
  }

  predicate GivesUp(s: System, id: string) {
    id in s.submits && (s.submits[id].Routed? || s.submits[id].LookupFailed?) && !s.registry.crashed
  }

  predicate MarksUnknown(s: System, id: string) {
    id in s.submits && s.submits[id].LookupFailed? && !s.registry.crashed
  }

  predicate Cancels(s: System, call: nat, id: string, reason: string, deadline: int, now: int) {
    && id != "" && reason != "" && deadline > now && !s.registry.crashed && call !in s.cancels
    && id in s.tables.rows && !AlreadyDone(s.tables.rows[id].state)
  }

  function Run(c: R.Config, s: System, steps: seq<Step>): System {
    if steps == [] then s else Apply(c, Run(c, s, steps[..|steps| - 1]), steps[|steps| - 1])
  }

  // ---- Invariant of every reachable system ----

  type Journal = map<string, Commit>
  type Sessions = seq<R.SessionState>

  /** The row, the audit row and the job in memory carry one legitimate request. */
  ghost predicate CommitOk(t: Tables, journal: Journal, x: string)
    requires x in journal && x in t.rows
  {
    var commit := journal[x];
    && commit.job.id == x && commit.audit in t.audits
    && Legitimate(commit.request, commit.at)
    && Carried(commit.request, commit.at, commit.job, t.rows[x], t.audits[commit.audit])
  }

  ghost predicate JournalOk(t: Tables, journal: Journal) {
    journal.Keys == t.rows.Keys && forall x {:trigger CommitOk(t, journal, x)} :: x in journal ==>
      CommitOk(t, journal, x)
  }

  ghost predicate UniqueRows(t: Tables) {
    forall x, y :: x in t.rows && y in t.rows && x != y ==>
      t.rows[x].dispatchId != t.rows[y].dispatchId
          && (t.rows[x].agent != t.rows[y].agent || t.rows[x].key != t.rows[y].key)
  }

  /** A session's log is what was delivered and what waits, unless the validator has restarted since. */
  ghost predicate LogOk(x: R.SessionState) {
    x.delivered + x.queue == x.enqueued || (x.queue == [] && x.closed && x.delivered <= x.enqueued)
  }

  ghost predicate Linked(r: R.State) {
    && (forall id :: id in r.entries ==>
         r.entries[id].owner < |r.sessions| && r.sessions[r.entries[id].owner].agent == id)
    && (forall i :: 0 <= i < |r.sessions| ==> LogOk(r.sessions[i]))
  }

  /** A routed submission holds a session of its own agent. */
  ghost predicate RoutedOk(sessions: Sessions, journal: Journal, x: string, p: SubmitPhase) {
    p.Routed? && x in journal ==> p.session < |sessions| && sessions[p.session].agent == journal[x].job.agent
  }

  ghost predicate PhasesOk(sessions: Sessions, journal: Journal, submits: map<string, SubmitPhase>,
      placed: map<string, Place>) {
    && submits.Keys == journal.Keys
    && (forall x :: x in submits ==> RoutedOk(sessions, journal, x, submits[x]))
    && (forall x :: x in placed ==> x in submits && submits[x] == Sent)
  }

  /** A job message at this place of a session's log is the committed one, for this agent, and is
      recorded to be exactly here. */
  ghost predicate JobAt(sessions: Sessions, journal: Journal, placed: map<string, Place>, i: nat, k: nat)
    requires i < |sessions| && k < |sessions[i].enqueued|
  {
    sessions[i].enqueued[k].JobMessage? ==>
      var job := sessions[i].enqueued[k].job;
      && job.id in journal && journal[job.id].job == job
      && sessions[i].agent == job.agent
      && job.id in placed && placed[job.id] == Place(i, k)
  }

  ghost predicate PlacedOk(sessions: Sessions, journal: Journal, placed: map<string, Place>) {
    forall i, k :: 0 <= i < |sessions| && 0 <= k < |sessions[i].enqueued| ==> JobAt(sessions, journal, placed, i, k)
  }

  ghost predicate ExecutionOk(sessions: Sessions, journal: Journal, placed: map<string, Place>,
      executedAt: map<string, nat>, e: Execution, n: nat) {
    && e.job.id in executedAt && executedAt[e.job.id] == n
    && e.job.id in journal && journal[e.job.id].job == e.job
    && e.job.id in placed && placed[e.job.id].session == e.session
    && e.session < |sessions| && sessions[e.session].agent == e.job.agent
  }

  ghost predicate ExecutedOk(sessions: Sessions, journal: Journal, placed: map<string, Place>,
      executed: seq<Execution>, executedAt: map<string, nat>) {
    && (forall n :: 0 <= n < |executed| ==> ExecutionOk(sessions, journal, placed, executedAt, executed[n], n))
    && (forall x :: x in executedAt ==> executedAt[x] < |executed| && executed[executedAt[x]].job.id == x)
  }

  ghost predicate Inv(s: System) {
    && JournalOk(s.tables, s.journal)
    && UniqueRows(s.tables)
    && Linked(s.registry)
    && PhasesOk(s.registry.sessions, s.journal, s.submits, s.placed)
    && PlacedOk(s.registry.sessions, s.journal, s.placed)
    && ExecutedOk(s.registry.sessions, s.journal, s.placed, s.executed, s.executedAt)
  }

  // ---- The registry moves on ----

  /** Sessions keep their agents and logs; nothing new in a log is a job. */
  ghost predicate Continues(a: Sessions, b: Sessions) {
    && |a| <= |b|
    && (forall i :: 0 <= i < |a| ==> b[i].agent == a[i].agent)
    && (forall i, k :: 0 <= i < |b| && 0 <= k < |b[i].enqueued| ==> OldOrNoJob(a, b, i, k))
  }

  ghost predicate OldOrNoJob(a: Sessions, b: Sessions, i: nat, k: nat)
    requires i < |b| && k < |b[i].enqueued|
  {
    b[i].enqueued[k].JobMessage? ==> i < |a| && k < |a[i].enqueued| && a[i].enqueued[k] == b[i].enqueued[k]
  }

  lemma RegistryContinues(c: R.Config, r: R.State, step: R.Step)
    requires Linked(r) && (step.Enqueue? ==> !step.message.JobMessage?)
    ensures Continues(r.sessions, R.Apply(c, r, step).sessions)
  {
    if step.Enqueue? {
      EnqueueContinues(c, r, step);
    } else {
      LogsContinue(c, r, step);
    }
  }

  lemma EnqueueContinues(c: R.Config, r: R.State, step: R.Step)
    requires step.Enqueue? && !step.message.JobMessage?
    ensures Continues(r.sessions, R.Apply(c, r, step).sessions)
  {}

  lemma LogsContinue(c: R.Config, r: R.State, step: R.Step)
    requires !step.Enqueue?
    ensures Continues(r.sessions, R.Apply(c, r, step).sessions)
  {}

  lemma TakeKeepsLog(x: R.SessionState)
    requires LogOk(x) && x.queue != []
    ensures LogOk(x.(queue := x.queue[1..], delivered := x.delivered + [x.queue[0]]))
  {
    assert (x.delivered + [x.queue[0]]) + x.queue[1..] == x.delivered + x.queue;
  }

  lemma EnqueueKeepsLog(x: R.SessionState, m: Message)
    requires LogOk(x) && !x.closed
    ensures LogOk(x.(queue := x.queue + [m], enqueued := x.enqueued + [m]))
  {
    assert x.delivered + (x.queue + [m]) == (x.delivered + x.queue) + [m];
  }

  lemma QueueStaysLinked(c: R.Config, r: R.State, step: R.Step)
    requires Linked(r) && (step.Enqueue? || step.Take?)
    ensures Linked(R.Apply(c, r, step))
  {
    if step.session < |r.sessions| {
      var x := r.sessions[step.session];
      assert LogOk(x);
      if step.Take? && x.queue != [] {
        TakeKeepsLog(x);
      } else if step.Enqueue? && !x.closed {
        EnqueueKeepsLog(x, step.message);
      }
    }
  }

  lemma PresenceStaysLinked(c: R.Config, r: R.State, step: R.Step)
    requires Linked(r) && (step.Heartbeat? || step.Expire? || step.Acquire?)
    ensures Linked(R.Apply(c, r, step))
  {}

  lemma ClosingStaysLinked(c: R.Config, r: R.State, step: R.Step)
    requires Linked(r) && (step.Release? || step.CloseQueue? || step.Disconnect?)
    ensures Linked(R.Apply(c, r, step))
  {}

  lemma RegistryStaysLinked(c: R.Config, r: R.State, step: R.Step)
    requires Linked(r)
    ensures Linked(R.Apply(c, r, step))
  {
    if step.Enqueue? || step.Take? {
      QueueStaysLinked(c, r, step);
    } else if step.Release? || step.CloseQueue? || step.Disconnect? {
      ClosingStaysLinked(c, r, step);
    } else {
      PresenceStaysLinked(c, r, step);
    }
  }

  lemma ArchiveContinues(r: R.State)
    requires Linked(r)
    ensures Linked(Archive(r)) && Continues(r.sessions, Archive(r).sessions)
  {
    var t := Archive(r);
    forall i | 0 <= i < |t.sessions| ensures LogOk(t.sessions[i]) {
      assert LogOk(r.sessions[i]);
    }
  }

  lemma SessionsContinue(s: System, b: R.State)
    requires Inv(s) && Continues(s.registry.sessions, b.sessions) && Linked(b)
    ensures Inv(s.(registry := b))
  {
    var a := s.registry.sessions;
    assert PhasesOk(b.sessions, s.journal, s.submits, s.placed) by {
      forall x | x in s.submits ensures RoutedOk(b.sessions, s.journal, x, s.submits[x]) {
        assert RoutedOk(a, s.journal, x, s.submits[x]);
      }
    }
    assert PlacedOk(b.sessions, s.journal, s.placed) by {
      forall i, k | 0 <= i < |b.sessions| && 0 <= k < |b.sessions[i].enqueued|
          ensures JobAt(b.sessions, s.journal, s.placed, i, k) {
        assert OldOrNoJob(a, b.sessions, i, k);
        if b.sessions[i].enqueued[k].JobMessage? {
          assert JobAt(a, s.journal, s.placed, i, k);
        }
      }
    }
    assert ExecutedOk(b.sessions, s.journal, s.placed, s.executed, s.executedAt) by {
      forall n | 0 <= n < |s.executed|
          ensures ExecutionOk(b.sessions, s.journal, s.placed, s.executedAt, s.executed[n], n) {
        assert ExecutionOk(a, s.journal, s.placed, s.executedAt, s.executed[n], n);
      }
    }
  }

  lemma RegistryStepKeepsInv(c: R.Config, s: System, step: R.Step)
    requires Inv(s) && (step.Enqueue? ==> !step.message.JobMessage?)
    ensures Inv(s.(registry := R.Apply(c, s.registry, step)))
  {
    RegistryContinues(c, s.registry, step);
    RegistryStaysLinked(c, s.registry, step);
    SessionsContinue(s, R.Apply(c, s.registry, step));
  }

  // ---- The tables change ----

  /** An update of state, output and truncation only. */
  predicate SameJob(a: Row, b: Row) {
    b == a.(state := b.state, output := b.output, truncated := b.truncated)
  }

  lemma UpdateKeepsTables(a: Tables, b: Tables, journal: Journal)
    requires JournalOk(a, journal) && UniqueRows(a)
    requires b.audits == a.audits && b.rows.Keys == a.rows.Keys
    requires forall x :: x in a.rows ==> SameJob(a.rows[x], b.rows[x])
    ensures JournalOk(b, journal) && UniqueRows(b)
  {
    forall x | x in journal ensures CommitOk(b, journal, x) {
      assert CommitOk(a, journal, x) && SameJob(a.rows[x], b.rows[x]);
    }
  }

  lemma InsertKeepsTables(t: Tables, journal: Journal, q: Request, draw: Draw, now: int)
    requires JournalOk(t, journal) && UniqueRows(t) && Admitted(q, now) && Insertable(t, q, draw)
    ensures var more := journal[draw.id := Commit(JobOf(q, draw, now), draw.audit, q, now)];
            JournalOk(Inserted(t, q, draw, now), more) && UniqueRows(Inserted(t, q, draw, now))
  {
    var u, more := Inserted(t, q, draw, now), journal[draw.id := Commit(JobOf(q, draw, now), draw.audit, q, now)];
    RefusedExactly(q, now);
    InsertedIsCarried(t, q, draw, now);
    forall x | x in more ensures CommitOk(u, more, x) {
      if x != draw.id {
        assert CommitOk(t, journal, x);
      }
    }
  }

  lemma PhasesGrow(sessions: Sessions, journal: Journal, submits: map<string, SubmitPhase>,
      placed: map<string, Place>, id: string, commit: Commit)
    requires PhasesOk(sessions, journal, submits, placed) && id !in journal
    ensures PhasesOk(sessions, journal[id := commit], submits[id := Committed], placed)
  {
    forall x | x in submits ensures RoutedOk(sessions, journal[id := commit], x, submits[x]) {
      assert RoutedOk(sessions, journal, x, submits[x]);
    }
  }

  lemma PlacedGrows(sessions: Sessions, journal: Journal, placed: map<string, Place>, id: string, commit: Commit)
    requires PlacedOk(sessions, journal, placed) && id !in journal
    ensures PlacedOk(sessions, journal[id := commit], placed)
  {
    var more := journal[id := commit];
    forall i, k | 0 <= i < |sessions| && 0 <= k < |sessions[i].enqueued| ensures JobAt(sessions, more, placed, i, k) {
      assert JobAt(sessions, journal, placed, i, k);
    }
  }

  lemma JournalGrows(s: System, id: string, commit: Commit)
    requires Inv(s) && id !in s.journal
    ensures var more := s.journal[id := commit];
            && PhasesOk(s.registry.sessions, more, s.submits[id := Committed], s.placed)
            && PlacedOk(s.registry.sessions, more, s.placed)
            && ExecutedOk(s.registry.sessions, more, s.placed, s.executed, s.executedAt)
  {
    var sessions, more := s.registry.sessions, s.journal[id := commit];
    PhasesGrow(sessions, s.journal, s.submits, s.placed, id, commit);
    PlacedGrows(sessions, s.journal, s.placed, id, commit);
    forall n | 0 <= n < |s.executed| ensures ExecutionOk(sessions, more, s.placed, s.executedAt, s.executed[n], n) {
      assert ExecutionOk(sessions, s.journal, s.placed, s.executedAt, s.executed[n], n);
    }
  }

  lemma SubmitKeepsInv(c: R.Config, s: System, q: Request, draw: Draw, now: int)
    requires Inv(s)
    ensures Inv(Apply(c, s, Submit(q, draw, now)))
  {
    if !s.registry.crashed && Admitted(q, now) && Insertable(s.tables, q, draw) {
      InsertKeepsTables(s.tables, s.journal, q, draw, now);
      JournalGrows(s, draw.id, Commit(JobOf(q, draw, now), draw.audit, q, now));
    }
  }

  // ---- A submission moves on ----

  lemma PhaseKeepsInv(s: System, id: string, p: SubmitPhase)
    requires Inv(s) && id in s.submits && !s.submits[id].Sent?
    requires RoutedOk(s.registry.sessions, s.journal, id, p)
    ensures Inv(s.(submits := s.submits[id := p]))
  {
    PhaseChanges(s.registry.sessions, s.journal, s.submits, s.placed, id, p);
  }

  lemma PhaseChanges(sessions: Sessions, journal: Journal, submits: map<string, SubmitPhase>,
      placed: map<string, Place>, id: string, p: SubmitPhase)
    requires PhasesOk(sessions, journal, submits, placed) && id in submits && !submits[id].Sent?
    requires RoutedOk(sessions, journal, id, p)
    ensures PhasesOk(sessions, journal, submits[id := p], placed)
  {}

  lemma TablesKeepInv(s: System, t: Tables)
    requires Inv(s) && t.audits == s.tables.audits && t.rows.Keys == s.tables.rows.Keys
    requires forall x :: x in t.rows ==> SameJob(s.tables.rows[x], t.rows[x])
    ensures Inv(s.(tables := t))
  {
    UpdateKeepsTables(s.tables, t, s.journal);
  }

  lemma RecordedSameJobs(t: Tables, agent: string, r: JobResult)
    ensures Recorded(t, agent, r).audits == t.audits && Recorded(t, agent, r).rows.Keys == t.rows.Keys
    ensures forall x :: x in t.rows ==> SameJob(t.rows[x], Recorded(t, agent, r).rows[x])
  {}

  lemma WithStateSameJobs(t: Tables, id: string, state: JobState)
    ensures WithState(t, id, state).audits == t.audits && WithState(t, id, state).rows.Keys == t.rows.Keys
    ensures forall x :: x in t.rows ==> SameJob(t.rows[x], WithState(t, id, state).rows[x])
  {}

  lemma CancelledSameJobs(t: Tables, id: string)
    ensures CancelledIfOpen(t, id).audits == t.audits && CancelledIfOpen(t, id).rows.Keys == t.rows.Keys
    ensures forall x :: x in t.rows ==> SameJob(t.rows[x], CancelledIfOpen(t, id).rows[x])
  {}

  lemma RouteKeepsInv(c: R.Config, s: System, id: string)
    requires Inv(s)
    ensures Inv(Apply(c, s, RouteSubmit(id)))
  {
    if InPhase(s, id, false) {
      var route := R.Route(s.registry, s.journal[id].job.agent);
      PhaseKeepsInv(s, id, if route.Some? then Routed(route.value) else LookupFailed);
    }
  }

  lemma GiveUpKeepsInv(c: R.Config, s: System, id: string)
    requires Inv(s)
    ensures Inv(Apply(c, s, GiveUpSubmit(id)))
  {
    if GivesUp(s, id) {
      PhaseKeepsInv(s, id, GaveUp);
    }
  }

  lemma MarkKeepsInv(c: R.Config, s: System, id: string)
    requires Inv(s)
    ensures Inv(Apply(c, s, MarkUnknown(id)))
  {
    if MarksUnknown(s, id) {
      WithStateSameJobs(s.tables, id, UnknownResult);
      TablesKeepInv(s, WithState(s.tables, id, UnknownResult));
      PhaseChanges(s.registry.sessions, s.journal, s.submits, s.placed, id, MarkedUnknown);
    }
  }

  /** The job enters one log, at its end, and is recorded there. */
  lemma PlaceKeepsInv(sessions: Sessions, journal: Journal, placed: map<string, Place>, i: nat, job: Job, b: Sessions)
    requires PlacedOk(sessions, journal, placed)
    requires i < |sessions| && job.id in journal && journal[job.id].job == job && sessions[i].agent == job.agent
    requires job.id !in placed
    requires |b| == |sessions| && b == sessions[i := b[i]] && b[i].agent == sessions[i].agent
    requires b[i].enqueued == sessions[i].enqueued + [JobMessage(job)]
    ensures PlacedOk(b, journal, placed[job.id := Place(i, |sessions[i].enqueued|)])
  {
    var log, more := sessions[i].enqueued, placed[job.id := Place(i, |sessions[i].enqueued|)];
    forall j, k | 0 <= j < |b| && 0 <= k < |b[j].enqueued| ensures JobAt(b, journal, more, j, k) {
      if j != i || k < |log| {
        assert JobAt(sessions, journal, placed, j, k);
        assert b[j].enqueued[k] == sessions[j].enqueued[k];
      }
    }
  }

  lemma SentPhases(sessions: Sessions, journal: Journal, submits: map<string, SubmitPhase>,
      placed: map<string, Place>, id: string, at: Place, b: Sessions)
    requires PhasesOk(sessions, journal, submits, placed) && id in submits
    requires |b| == |sessions| && forall i :: 0 <= i < |b| ==> b[i].agent == sessions[i].agent
    ensures PhasesOk(b, journal, submits[id := Sent], placed[id := at])
  {
    forall x | x in submits ensures RoutedOk(b, journal, x, submits[x]) {
      assert RoutedOk(sessions, journal, x, submits[x]);
    }
  }

  lemma ExecutedElsewhere(sessions: Sessions, journal: Journal, placed: map<string, Place>, executed: seq<Execution>,
      executedAt: map<string, nat>, id: string, at: Place, b: Sessions)
    requires ExecutedOk(sessions, journal, placed, executed, executedAt) && id !in placed
    requires |b| == |sessions| && forall i :: 0 <= i < |b| ==> b[i].agent == sessions[i].agent
    ensures ExecutedOk(b, journal, placed[id := at], executed, executedAt)
  {
    forall n | 0 <= n < |executed| ensures ExecutionOk(b, journal, placed[id := at], executedAt, executed[n], n) {
      assert ExecutionOk(sessions, journal, placed, executedAt, executed[n], n);
    }
  }

  lemma RoomySendIs(c: R.Config, s: System, id: string)
    requires InPhase(s, id, true) && R.RoomIn(c, s.registry, s.submits[id].session)
    ensures var i := s.submits[id].session;
            Apply(c, s, SendSubmit(id)) ==
            s.(registry := R.Apply(c, s.registry, R.Enqueue(i, JobMessage(s.journal[id].job))),
                submits := s.submits[id := Sent],
               placed := s.placed[id := Place(i, |s.registry.sessions[i].enqueued|)])
  {}

  lemma RoomySendKeepsInv(c: R.Config, s: System, id: string)
    requires Inv(s) && InPhase(s, id, true) && R.RoomIn(c, s.registry, s.submits[id].session)
    ensures Inv(Apply(c, s, SendSubmit(id)))
  {
    var i, job := s.submits[id].session, s.journal[id].job;
    var r, at := R.Apply(c, s.registry, R.Enqueue(i, JobMessage(job))), Place(i, |s.registry.sessions[i].enqueued|);
    assert CommitOk(s.tables, s.journal, id) && RoutedOk(s.registry.sessions, s.journal, id, s.submits[id]);
    RoomySendIs(c, s, id);
    R.EnqueueIs(c, s.registry, i, JobMessage(job));
    QueueStaysLinked(c, s.registry, R.Enqueue(i, JobMessage(job)));
    PlaceKeepsInv(s.registry.sessions, s.journal, s.placed, i, job, r.sessions);
    SentPhases(s.registry.sessions, s.journal, s.submits, s.placed, id, at, r.sessions);
    ExecutedElsewhere(s.registry.sessions, s.journal, s.placed, s.executed, s.executedAt, id, at, r.sessions);
  }

  lemma BlockedSendKeepsInv(c: R.Config, s: System, id: string)
    requires Inv(s) && InPhase(s, id, true) && !R.RoomIn(c, s.registry, s.submits[id].session)
    ensures Inv(Apply(c, s, SendSubmit(id)))
  {
    var r := R.Apply(c, s.registry, R.Enqueue(s.submits[id].session, JobMessage(s.journal[id].job)));
    assert r.sessions == s.registry.sessions && r.entries == s.registry.entries;
  }

  lemma SendKeepsInv(c: R.Config, s: System, id: string)
    requires Inv(s)
    ensures Inv(Apply(c, s, SendSubmit(id)))
  {
    if InPhase(s, id, true) {
      var i := s.submits[id].session;
      if R.RoomIn(c, s.registry, i) {
        RoomySendKeepsInv(c, s, id);
      } else {
        BlockedSendKeepsInv(c, s, id);
      }
    }
  }

  // ---- Delivery ----

  /** What a delivered job is: committed, placed in this session, and meant for its agent. */
  lemma DeliveredJob(s: System, i: nat, k: nat)
    requires Inv(s) && i < |s.registry.sessions| && k < |s.registry.sessions[i].delivered|
    requires s.registry.sessions[i].delivered[k].JobMessage?
    ensures var job := s.registry.sessions[i].delivered[k].job;
            && job.id in s.journal && s.journal[job.id].job == job
            && job.id in s.placed && s.placed[job.id] == Place(i, k) && s.registry.sessions[i].agent == job.agent
  {
    var x := s.registry.sessions[i];
    assert LogOk(x);
    assert x.delivered[k] == x.enqueued[k] by {
      assert x.delivered <= x.enqueued;
    }
    assert JobAt(s.registry.sessions, s.journal, s.placed, i, k);
  }

  /** A job that ran before ran on this connection, whose handler has its key. */
  lemma RanBeforeIsSeen(s: System, i: nat, job: Job)
    requires Inv(s) && job.id in s.executedAt
    requires job.id in s.journal && s.journal[job.id].job == job && job.id in s.placed && s.placed[job.id].session == i
    ensures H.Key(job) in Seen(s.executed, i)
  {
    var n := s.executedAt[job.id];
    assert ExecutionOk(s.registry.sessions, s.journal, s.placed, s.executedAt, s.executed[n], n);
    assert s.executed[n].session == i && s.executed[n].job == job;
  }

  lemma DeliverKeepsInv(c: R.Config, s: System, i: nat, k: nat, now: int, contextDone: bool, run: Outcome)
    requires Inv(s)
    ensures Inv(Apply(c, s, Deliver(i, k, now, contextDone, run)))
  {
    if Delivers(s, i, k, now) {
      DeliveredJob(s, i, k);
      var job := s.registry.sessions[i].delivered[k].job;
      if job.id in s.executedAt {
        RanBeforeIsSeen(s, i, job);
      }
      ExecuteOne(s.registry.sessions, s.journal, s.placed, s.executed, s.executedAt,
          Execution(i, job, contextDone, run));
    }
  }

  lemma ExecuteOne(sessions: Sessions, journal: Journal, placed: map<string, Place>, executed: seq<Execution>,
      executedAt: map<string, nat>, e: Execution)
    requires ExecutedOk(sessions, journal, placed, executed, executedAt) && e.job.id !in executedAt
    requires ExecutionOk(sessions, journal, placed, executedAt[e.job.id := |executed|], e, |executed|)
    ensures ExecutedOk(sessions, journal, placed, executed + [e], executedAt[e.job.id := |executed|])
  {
    var more := executedAt[e.job.id := |executed|];
    forall n | 0 <= n < |executed| ensures ExecutionOk(sessions, journal, placed, more, executed[n], n) {
      assert ExecutionOk(sessions, journal, placed, executedAt, executed[n], n);
    }
  }

  // ---- The remaining steps ----

  lemma InterruptedKeepsPhases(sessions: Sessions, journal: Journal, submits: map<string, SubmitPhase>,
      placed: map<string, Place>)
    requires PhasesOk(sessions, journal, submits, placed)
    ensures PhasesOk(sessions, journal, map x | x in submits :: Interrupted(submits[x]), placed)
  {
    var after := map x | x in submits :: Interrupted(submits[x]);
    assert after.Keys == submits.Keys;
  }

  lemma RestartKeepsInv(c: R.Config, s: System)
    requires Inv(s)
    ensures Inv(Apply(c, s, Restart))
  {
    ArchiveContinues(s.registry);
    SessionsContinue(s, Archive(s.registry));
    InterruptedKeepsPhases(Archive(s.registry).sessions, s.journal, s.submits, s.placed);
  }

  lemma RecordKeepsInv(c: R.Config, s: System, agent: string, r: JobResult)
    requires Inv(s)
    ensures Inv(Apply(c, s, Record(agent, r)))
  {
    RecordedSameJobs(s.tables, agent, r);
    TablesKeepInv(s, Recorded(s.tables, agent, r));
  }

  lemma SendCancelKeepsInv(c: R.Config, s: System, call: nat)
    requires Inv(s)
    ensures Inv(Apply(c, s, SendCancel(call)))
  {
    if CancelIn(s, call) && s.cancels[call].CancelRouted? {
      var p := s.cancels[call];
      RegistryStepKeepsInv(c, s, R.Enqueue(p.session, CancelMessage(p.id, p.dispatchId)));
    }
  }

  lemma WriteCancelKeepsInv(c: R.Config, s: System, call: nat)
    requires Inv(s)
    ensures Inv(Apply(c, s, WriteCancel(call)))
  {
    if CancelIn(s, call) && s.cancels[call].CancelSent? {
      CancelledSameJobs(s.tables, s.cancels[call].id);
      TablesKeepInv(s, CancelledIfOpen(s.tables, s.cancels[call].id));
    }
  }

  lemma CancelsDoNotMatter(s: System, cancels: map<nat, CancelPhase>)
    requires Inv(s)
    ensures Inv(s.(cancels := cancels))
  {}

  lemma CallChangesOnlyCancels(c: R.Config, s: System, step: Step)
    requires step.CancelStart? || step.RouteCancel? || step.GiveUpCancel?
    ensures Apply(c, s, step) == s.(cancels := Apply(c, s, step).cancels)
  {}

  lemma CallKeepsInv(c: R.Config, s: System, step: Step)
    requires Inv(s) && (step.CancelStart? || step.RouteCancel? || step.GiveUpCancel?)
    ensures Inv(Apply(c, s, step))
  {
    CallChangesOnlyCancels(c, s, step);
    CancelsDoNotMatter(s, Apply(c, s, step).cancels);
  }

  lemma StepKeepsInv(c: R.Config, s: System, step: Step)
    requires Inv(s)
    ensures Inv(Apply(c, s, step))
  {
    match step
    case Net(x) =>
      if NetStep(x) {
        RegistryStepKeepsInv(c, s, x);
      }
    case Restart => RestartKeepsInv(c, s);
    case Submit(q, draw, now) => SubmitKeepsInv(c, s, q, draw, now);
    case RouteSubmit(id) => RouteKeepsInv(c, s, id);
    case SendSubmit(id) => SendKeepsInv(c, s, id);
    case GiveUpSubmit(id) => GiveUpKeepsInv(c, s, id);
    case MarkUnknown(id) => MarkKeepsInv(c, s, id);
    case Deliver(i, k, now, done, run) => DeliverKeepsInv(c, s, i, k, now, done, run);
    case Record(agent, r) => RecordKeepsInv(c, s, agent, r);
    case SendCancel(call) => SendCancelKeepsInv(c, s, call);
    case WriteCancel(call) => WriteCancelKeepsInv(c, s, call);
    case CancelStart(_, _, _, _, _) => CallKeepsInv(c, s, step);
    case RouteCancel(_) => CallKeepsInv(c, s, step);
    case GiveUpCancel(_) => CallKeepsInv(c, s, step);
  }

  lemma {:induction false} ProtocolInvariant(c: R.Config, users: set<string>, agents: set<string>, steps: seq<Step>)
    ensures Inv(Run(c, Start(users, agents), steps))
  {
    if steps == [] {
    } else {
      ProtocolInvariant(c, users, agents, steps[..|steps| - 1]);
      StepKeepsInv(c, Run(c, Start(users, agents), steps[..|steps| - 1]), steps[|steps| - 1]);
    }
  }
}
