/** The validator's SSH session manager (internal/ssh/session.go): a session table with a UNIQUE port
    column, single-use binding tokens in memory, and a port allocator. */
module SshSessions {
  import opened Common
  import opened Protocol

  newtype uint32 = x: int | 0 <= x < 0x1_0000_0000

  const LAST_PORT: uint32 := 0xFFFF_FFFF
  const HOUR: int := 3_600_000_000_000

  datatype SessionState = Preparing | Ready | Closed | Expired

  datatype Row = Row(
    actor: string, agent: string, key: seq<Byte>, state: SessionState,
    port: Option<uint32>, expires: int, created: int, hostKey: seq<Byte>)

  datatype Audit = Audit(session: string, actor: string, agent: string, port: uint32, expires: int)

  /** Instants are nanoseconds; the table stores milliseconds. */
  function Millis(now: int): int {
    now / 1_000_000
  }

  predicate Live(r: Row) {
    r.state == Preparing || r.state == Ready
  }

  // ---- The port allocator ----

  predicate Occupies(r: Row, port: uint32, nowMs: int) {
    r.port == Some(port) && Live(r) && r.expires > nowMs
  }

  predicate Busy(rows: map<string, Row>, port: uint32, nowMs: int) {
    exists id :: id in rows && Occupies(rows[id], port, nowMs)
  }

  /** The least port in [port, max] that no live unexpired row occupies. */
  function Scan(rows: map<string, Row>, port: uint32, max: uint32, nowMs: int): (r: Option<uint32>)
    ensures r.Some? ==> port <= r.value <= max && !Busy(rows, r.value, nowMs)
    ensures r.Some? ==> forall q :: port <= q < r.value ==> Busy(rows, q, nowMs)
    ensures r.None? ==> forall q :: port <= q <= max ==> Busy(rows, q, nowMs)
    decreases LAST_PORT - port
  {
    if port > max then None
    else if !Busy(rows, port, nowMs) then Some(port)
    else if port == LAST_PORT then None
    else Scan(rows, port + 1, max, nowMs)
  }

  /** The scan loop. All arithmetic stays within uint32, whatever the bounds. */
  method AllocatePort(rows: map<string, Row>, min: uint32, max: uint32, nowMs: int) returns (r: Option<uint32>)
    ensures r == Scan(rows, min, max, nowMs)
    ensures r.Some? ==> min <= r.value <= max && !Busy(rows, r.value, nowMs)
    ensures r.Some? ==> forall q :: min <= q < r.value ==> Busy(rows, q, nowMs)
    ensures r.None? <==> forall q :: min <= q <= max ==> Busy(rows, q, nowMs)
  {
    var port := min;
    while port <= max
      invariant Scan(rows, min, max, nowMs) == Scan(rows, port, max, nowMs)
      decreases LAST_PORT - port
    {
      var holders := set id | id in rows && Occupies(rows[id], port, nowMs);
      assert Busy(rows, port, nowMs) <==> holders != {} by {
        if id :| id in rows && Occupies(rows[id], port, nowMs) {
          assert id in holders;
        }
      }
      if |holders| == 0 {
        return Some(port);
      }
      if port == LAST_PORT {
        break;
      }
      port := port + 1;
    }
    return None;
  }

  // ---- Token comparison ----

  /** Compares without leaving early: the differences of all bytes are or-ed together. */
  method Equal(a: seq<Byte>, b: seq<Byte>) returns (same: bool)
    ensures same <==> a == b
  {
    if |a| != |b| {
      return false;
    }
    var v: Byte := 0;
    for i := 0 to |a|
      invariant v == 0 <==> a[..i] == b[..i]
    {
      OrXorZero(v, a[i], b[i]);
      assert a[..i + 1] == a[..i] + [a[i]] && b[..i + 1] == b[..i] + [b[i]];
      v := v | (a[i] ^ b[i]);
    }
    assert a[..|a|] == a && b[..|b|] == b;
    return v == 0;
  }

  lemma OrXorZero(v: Byte, x: Byte, y: Byte)
    ensures v | (x ^ y) == 0 <==> v == 0 && x == y
  {}

  // ---- The manager as a transition system ----

  /** What Create issued for a session, kept only for the proofs. */
  datatype Issue = Issue(actor: string, agent: string, token: seq<Byte>, expires: int, audit: string)

  /** A call between its two atomic halves. */
  datatype Pending = Closing(id: string) | Reconciling(nowMs: int)

  datatype State = State(
    rows: map<string, Row>, audits: map<string, Audit>, tokens: map<string, seq<Byte>>,
    pending: map<nat, Pending>,
    issued: map<string, Issue>, readied: map<string, int>)

  /** min, max and the tables the session rows refer to. */
  datatype Config = Config(min: uint32, max: uint32, users: set<string>, agents: set<string>)

  datatype Request = Request(actor: string, agent: string, key: seq<Byte>, reason: string, ttl: int)

  /** The random values of one Create. */
  datatype Draw = Draw(id: string, token: seq<Byte>, audit: string)

  datatype Step =
    | Create(request: Request, now: int, draw: Draw)
    | ReadyMessage(id: string, token: seq<Byte>, hostKey: seq<Byte>, now: int)
    | CloseStart(call: nat, id: string)
    | CloseFinish(call: nat)
    | ReconcileStart(call: nat, now: int)
    | ReconcileFinish(call: nat)
    | GiveUp(call: nat)  // the context has ended, and the statement of the second half is refused

  const INITIAL: State := State(map[], map[], map[], map[], map[], map[])

  predicate ValidRequest(q: Request) {
    q.actor != "" && q.agent != "" && q.key != [] && q.reason != "" && 0 < q.ttl <= HOUR
  }

  /** The constraints of the two inserts. */
  predicate Insertable(c: Config, s: State, q: Request, draw: Draw, port: uint32) {
    && q.actor in c.users && q.agent in c.agents
    && draw.id !in s.rows
    && (forall id :: id in s.rows ==> s.rows[id].port != Some(port))
    && draw.audit !in s.audits
  }

  predicate Creates(c: Config, s: State, q: Request, now: int, draw: Draw) {
    && ValidRequest(q)
    && var port := Scan(s.rows, c.min, c.max, Millis(now));
    && port.Some? && Insertable(c, s, q, draw, port.value)
  }

  function AfterCreate(c: Config, s: State, q: Request, now: int, draw: Draw): State
    requires Creates(c, s, q, now, draw)
  {
    var port, expires := Scan(s.rows, c.min, c.max, Millis(now)).value, Millis(now + q.ttl);
    s.(rows := s.rows[draw.id := Row(q.actor, q.agent, q.key, Preparing, Some(port), expires, Millis(now), [])],
       audits := s.audits[draw.audit := Audit(draw.id, q.actor, q.agent, port, expires)],
       tokens := s.tokens[draw.id := draw.token],
       issued := s.issued[draw.id := Issue(q.actor, q.agent, draw.token, expires, draw.audit)])
  }

  predicate BecomesReady(s: State, id: string, token: seq<Byte>, now: int) {
    && id in s.tokens && s.tokens[id] == token
    && id in s.rows && s.rows[id].state == Preparing && s.rows[id].expires > Millis(now)
  }

  function CloseRow(r: Row): Row {
    if Live(r) then r.(state := Closed, port := None) else r
  }

  function ExpireRow(r: Row, nowMs: int): Row {
    if Live(r) && r.expires <= nowMs then r.(state := Expired, port := None) else r
  }

  function Apply(c: Config, s: State, step: Step): State {
    match step
    case Create(q, now, draw) => if Creates(c, s, q, now, draw) then AfterCreate(c, s, q, now, draw) else s
    case ReadyMessage(id, token, hostKey, now) =>
      if BecomesReady(s, id, token, now) then
        s.(rows := s.rows[id := s.rows[id].(state := Ready, hostKey := hostKey)], tokens := s.tokens - {id},
           readied := s.readied[id := Millis(now)])
      else s
    case CloseStart(call, id) =>
      if call in s.pending then s
      else s.(tokens := s.tokens - {id}, pending := s.pending[call := Closing(id)])
    case CloseFinish(call) =>
      if call in s.pending && s.pending[call].Closing? then
        var id := s.pending[call].id;
        s.(rows := if id in s.rows then s.rows[id := CloseRow(s.rows[id])] else s.rows, pending := s.pending - {call})
      else s
    case ReconcileStart(call, now) =>
      if call in s.pending then s
      else s.(tokens := map[], pending := s.pending[call := Reconciling(Millis(now))])
    case ReconcileFinish(call) =>
      if call in s.pending && s.pending[call].Reconciling? then
        s.(rows := map id | id in s.rows :: ExpireRow(s.rows[id], s.pending[call].nowMs), pending := s.pending - {call})
      else s
    case GiveUp(call) => s.(pending := s.pending - {call})
  }

  function Run(c: Config, s: State, steps: seq<Step>): State {
    if steps == [] then s else Apply(c, Run(c, s, steps[..|steps| - 1]), steps[|steps| - 1])
  }

  // ---- The manager itself ----

  class Manager {
    const config: Config
    var rows: map<string, Row>
    var audits: map<string, Audit>
    var tokens: map<string, seq<Byte>>
    ghost var pending: map<nat, Pending>
    ghost var issued: map<string, Issue>
    ghost var readied: map<string, int>

    ghost function Model(): State
      reads this
    {
      State(rows, audits, tokens, pending, issued, readied)
    }

    constructor (config: Config)
      ensures this.config == config && Model() == INITIAL
    {
      this.config := config;
      rows, audits, tokens := map[], map[], map[];
      pending, issued, readied := map[], map[], map[];
    }

    /** The transaction and the token entry of one session: all of it or none of it. */
    method Create(q: Request, now: int, draw: Draw) returns (port: Option<uint32>)
      modifies this
      ensures Model() == Apply(config, old(Model()), Step.Create(q, now, draw))
      ensures port.Some? <==> Creates(config, old(Model()), q, now, draw)
      ensures port.None? ==> Model() == old(Model())
      ensures port.Some? ==> draw.id in rows && rows[draw.id].port == port
    {
      if q.actor == "" || q.agent == "" || |q.key| == 0 || q.reason == "" || q.ttl <= 0 || q.ttl > HOUR {
        return None;
      }
      port := AllocatePort(rows, config.min, config.max, Millis(now));
      if port.None? {
        return None;
      }
      var expires := Millis(now + q.ttl);
      if q.actor !in config.users || q.agent !in config.agents || draw.id in rows
        || exists id :: id in rows && rows[id].port == port {
        return None;
      }
      if draw.audit in audits {
        return None;
      }
      rows := rows[draw.id := Row(q.actor, q.agent, q.key, Preparing, port, expires, Millis(now), [])];
      audits := audits[draw.audit := Audit(draw.id, q.actor, q.agent, port.value, expires)];
      tokens := tokens[draw.id := draw.token];
      issued := issued[draw.id := Issue(q.actor, q.agent, draw.token, expires, draw.audit)];
    }

    method ReadySession(id: string, token: seq<Byte>, hostKey: seq<Byte>, now: int) returns (ok: bool)
      modifies this
      ensures Model() == Apply(config, old(Model()), ReadyMessage(id, token, hostKey, now))
      ensures ok <==> BecomesReady(old(Model()), id, token, now)
      ensures !ok ==> Model() == old(Model())
      ensures ok ==> id in rows && rows[id].state == Ready && rows[id].hostKey == hostKey && id !in tokens
    {
      if id !in tokens {
        return false;
      }
      var same := Equal(tokens[id], token);
      if !same {
        return false;
      }
      if id !in rows || rows[id].state != Preparing || rows[id].expires <= Millis(now) {
        return false;
      }
      rows := rows[id := rows[id].(state := Ready, hostKey := hostKey)];
      tokens := tokens - {id};
      readied := readied[id := Millis(now)];
      return true;
    }

    method Bridge(id: string, actor: string, now: int) returns (agent: Option<string>)
      ensures agent.Some? <==> id != "" && Bridged(Model(), id, actor, now)
      ensures agent.Some? <==>
        && id != "" && actor != "" && id in rows && rows[id].actor == actor && rows[id].state == Ready
        && Millis(now) < rows[id].expires
      ensures agent.Some? ==> agent.value == rows[id].agent
    {
      if id == "" || actor == "" || id !in rows {
        return None;
      }
      var row := rows[id];
      if row.actor != actor || row.state != Ready || Millis(now) >= row.expires {
        return None;
      }
      return Some(row.agent);
    }

    /** Close run without interruption; `call` only names the call. On a context that has ended it only
        forgets the token. */
    method Close(ghost call: nat, id: string, reason: string, ended: bool) returns (found: bool)
      requires call !in pending
      modifies this
      ensures Model() == if reason == "" then old(Model())
                         else Run(config, old(Model()), [CloseStart(call, id), Finish(CloseFinish(call), ended)])
      ensures found <==> reason != "" && id in old(rows) && !ended
    {
      if reason == "" {
        return false;
      }
      CloseWhole(config, Model(), call, id, ended);
      tokens := tokens - {id};
      if ended {
        return false;
      }
      if id in rows {
        rows := rows[id := CloseRow(rows[id])];
      }
      return id in rows;
    }

    method Reconcile(ghost call: nat, now: int, ended: bool)
      requires call !in pending
      modifies this
      ensures Model() ==
        Run(config, old(Model()), [ReconcileStart(call, now), Finish(ReconcileFinish(call), ended)])
    {
      ReconcileWhole(config, Model(), call, now, ended);
      tokens := map[];
      if !ended {
        rows := map id | id in rows :: ExpireRow(rows[id], Millis(now));
      }
    }
  }

  /** The second half of a Close or a Reconcile: as planned, or refused. */
  function Finish(step: Step, ended: bool): Step
    requires step.CloseFinish? || step.ReconcileFinish?
  {
    if ended then GiveUp(step.call) else step
  }

  lemma ReconcileWhole(c: Config, s: State, call: nat, now: int, ended: bool)
    requires call !in s.pending
    ensures Run(c, s, [ReconcileStart(call, now), Finish(ReconcileFinish(call), ended)])
         == s.(tokens := map[],
               rows := if ended then s.rows else map id | id in s.rows :: ExpireRow(s.rows[id], Millis(now)))
  {
    RunTwo(c, s, ReconcileStart(call, now), Finish(ReconcileFinish(call), ended));
    assert s.pending[call := Reconciling(Millis(now))] - {call} == s.pending;
  }

  lemma CloseWhole(c: Config, s: State, call: nat, id: string, ended: bool)
    requires call !in s.pending
    ensures Run(c, s, [CloseStart(call, id), Finish(CloseFinish(call), ended)])
         == s.(tokens := s.tokens - {id},
               rows := if id in s.rows && !ended then s.rows[id := CloseRow(s.rows[id])] else s.rows)
  {
    RunTwo(c, s, CloseStart(call, id), Finish(CloseFinish(call), ended));
    assert s.pending[call := Closing(id)] - {call} == s.pending;
  }

  predicate Bridged(s: State, id: string, actor: string, now: int) {
    && actor != "" && id in s.rows && s.rows[id].actor == actor && s.rows[id].state == Ready
    && Millis(now) < s.rows[id].expires
  }

  lemma RunTwo(c: Config, s: State, a: Step, b: Step)
    ensures Run(c, s, [a, b]) == Apply(c, Apply(c, s, a), b)
  {
    assert [a, b][..1] == [a] && [a][..0] == [];
    assert Run(c, s, [a]) == Apply(c, Run(c, s, []), a);
  }

  // ---- Invariant of every reachable state ----

  ghost predicate PortsHeld(c: Config, rows: map<string, Row>) {
    && (forall id :: id in rows ==> (rows[id].port.Some? <==> Live(rows[id])))
    && (forall id :: id in rows && rows[id].port.Some? ==> c.min <= rows[id].port.value <= c.max)
    && (forall i, j :: i in rows && j in rows && i != j && rows[i].port.Some? ==> rows[i].port != rows[j].port)
  }

  /** The audit row tells who asked for the session, where, for how long, and on which port it began. */
  ghost predicate AuditedAs(a: Audit, id: string, row: Row) {
    && a.session == id && a.actor == row.actor && a.agent == row.agent && a.expires == row.expires
    && (row.port.Some? ==> row.port.value == a.port)
  }

  /** A row agrees with what Create issued and audited, and is READY only through a READY message. */
  ghost predicate TracedRow(s: State, id: string)
    requires id in s.rows && id in s.issued
  {
    && s.rows[id].actor == s.issued[id].actor && s.rows[id].agent == s.issued[id].agent
    && s.rows[id].expires == s.issued[id].expires && s.rows[id].actor != ""
    && s.issued[id].audit in s.audits && AuditedAs(s.audits[s.issued[id].audit], id, s.rows[id])
    && (id in s.tokens ==> s.tokens[id] == s.issued[id].token)
    && (s.rows[id].state == Ready ==> id in s.readied) && (s.rows[id].state == Preparing ==> id !in s.readied)
    && (id in s.readied ==> s.readied[id] < s.issued[id].expires)
  }

  ghost predicate Traced(s: State) {
    && s.issued.Keys == s.rows.Keys
    && s.tokens.Keys <= s.rows.Keys && s.readied.Keys <= s.rows.Keys
    && forall id {:trigger TracedRow(s, id)} :: id in s.rows ==> TracedRow(s, id)
  }

  lemma CreateKeepsPorts(c: Config, s: State, q: Request, now: int, draw: Draw)
    requires PortsHeld(c, s.rows) && Creates(c, s, q, now, draw)
    ensures PortsHeld(c, AfterCreate(c, s, q, now, draw).rows)
  {}

  /** Updates that keep a live row's port, or end the row and release it. */
  lemma UpdatesKeepPorts(c: Config, rows: map<string, Row>, after: map<string, Row>)
    requires PortsHeld(c, rows) && after.Keys == rows.Keys
    requires forall id :: id in rows ==>
      || (after[id].port == rows[id].port && (Live(after[id]) <==> Live(rows[id])))
      || (after[id].port == None && !Live(after[id]))
    ensures PortsHeld(c, after)
  {}

  lemma StepKeepsPorts(c: Config, s: State, step: Step)
    requires PortsHeld(c, s.rows)
    ensures PortsHeld(c, Apply(c, s, step).rows)
  {
    if step.Create? {
      if Creates(c, s, step.request, step.now, step.draw) {
        CreateKeepsPorts(c, s, step.request, step.now, step.draw);
      }
    } else {
      UpdatesKeepPorts(c, s.rows, Apply(c, s, step).rows);
    }
  }

  lemma CreateKeepsTrace(c: Config, s: State, q: Request, now: int, draw: Draw)
    requires Traced(s) && Creates(c, s, q, now, draw)
    ensures Traced(AfterCreate(c, s, q, now, draw))
  {
    var t := AfterCreate(c, s, q, now, draw);
    forall id | id in t.rows ensures TracedRow(t, id) {
      if id != draw.id {
        assert TracedRow(s, id);
      }
    }
  }

  lemma ReadyKeepsTrace(c: Config, s: State, step: Step)
    requires Traced(s) && step.ReadyMessage?
    ensures Traced(Apply(c, s, step))
  {
    if BecomesReady(s, step.id, step.token, step.now) {
      var t := Apply(c, s, step);
      assert t.rows == s.rows[step.id := t.rows[step.id]] && t.issued == s.issued && t.audits == s.audits;
      forall id | id in t.rows ensures TracedRow(t, id) {
        assert TracedRow(s, id);
      }
    }
  }

  lemma UpdatesKeepTrace(s: State, t: State)
    requires Traced(s)
    requires t.issued == s.issued && t.readied == s.readied && t.audits == s.audits
    requires t.rows.Keys == s.rows.Keys && t.tokens.Keys <= s.tokens.Keys
    requires forall id :: id in t.tokens ==> t.tokens[id] == s.tokens[id]
    requires forall id :: id in s.rows ==>
      t.rows[id] == s.rows[id]
          || (!Live(t.rows[id]) && t.rows[id] == s.rows[id].(state := t.rows[id].state, port := None))
    ensures Traced(t)
  {
    forall id | id in t.rows ensures TracedRow(t, id) {
      assert TracedRow(s, id);
    }
  }

  lemma StepKeepsTrace(c: Config, s: State, step: Step)
    requires Traced(s)
    ensures Traced(Apply(c, s, step))
  {
    if step.Create? {
      if Creates(c, s, step.request, step.now, step.draw) {
        CreateKeepsTrace(c, s, step.request, step.now, step.draw);
      }
    } else if step.ReadyMessage? {
      ReadyKeepsTrace(c, s, step);
    } else if step.CloseStart? || step.CloseFinish? || step.GiveUp? {
      CloseKeepsTrace(c, s, step);
    } else {
      ReconcileKeepsTrace(c, s, step);
    }
  }

  lemma CloseKeepsTrace(c: Config, s: State, step: Step)
    requires Traced(s) && (step.CloseStart? || step.CloseFinish? || step.GiveUp?)
    ensures Traced(Apply(c, s, step))
  {
    UpdatesKeepTrace(s, Apply(c, s, step));
  }

  lemma ReconcileKeepsTrace(c: Config, s: State, step: Step)
    requires Traced(s) && (step.ReconcileStart? || step.ReconcileFinish?)
    ensures Traced(Apply(c, s, step))
  {
    UpdatesKeepTrace(s, Apply(c, s, step));
  }

  /** In every run: a row holds a port exactly when it is PREPARING or READY, held ports are pairwise
      distinct and in range, and each row has its audit row. */
  lemma {:induction false} TableInvariant(c: Config, steps: seq<Step>)
    ensures PortsHeld(c, Run(c, INITIAL, steps).rows) && Traced(Run(c, INITIAL, steps))
  {
    if steps == [] {
    } else {
      TableInvariant(c, steps[..|steps| - 1]);
      StepKeepsPorts(c, Run(c, INITIAL, steps[..|steps| - 1]), steps[|steps| - 1]);
      StepKeepsTrace(c, Run(c, INITIAL, steps[..|steps| - 1]), steps[|steps| - 1]);
    }
  }

  // ---- Tokens belong to PREPARING rows ----

  ghost predicate TokensPreparing(s: State) {
    forall id :: id in s.tokens ==> id in s.rows && s.rows[id].state == Preparing
  }

  /** Every half-finished call can finish without leaving a token behind. */
  ghost predicate PendingHarmless(s: State) {
    && (forall call :: call in s.pending && s.pending[call].Closing? ==>
         s.pending[call].id !in s.tokens)
    && (forall call, id :: call in s.pending && s.pending[call].Reconciling? && id in s.tokens && id in s.rows ==>
         s.rows[id].expires > s.pending[call].nowMs)
  }

  /** A Create between the halves of a Reconcile expires after its time, and no Create draws an id that a
      Close in progress names. */
  predicate Disciplined(s: State, step: Step) {
    match step
    case Create(q, now, draw) => OutlivesReconciles(s, q, now) && NotBeingClosed(s, draw.id)
    case _ => true
  }

  predicate OutlivesReconciles(s: State, q: Request, now: int) {
    forall call :: call in s.pending && s.pending[call].Reconciling? ==> Millis(now + q.ttl) > s.pending[call].nowMs
  }

  predicate NotBeingClosed(s: State, id: string) {
    forall call :: call in s.pending && s.pending[call].Closing? ==> s.pending[call].id != id
  }

  /** A session that lives a millisecond or more, as all of PrepareSsh's do, outlives every Reconcile that
      began no later than it was created. */
  lemma LongLivedOutlives(s: State, q: Request, now: int)
    requires q.ttl >= 1_000_000
    requires forall call :: call in s.pending && s.pending[call].Reconciling? ==> s.pending[call].nowMs <= Millis(now)
    ensures OutlivesReconciles(s, q, now)
  {
    assert Millis(now + q.ttl) > Millis(now);
  }

  predicate DisciplinedRun(c: Config, s: State, steps: seq<Step>) {
    steps == [] ||
    (DisciplinedRun(c, s, steps[..|steps| - 1]) && Disciplined(Run(c, s, steps[..|steps| - 1]), steps[|steps| - 1]))
  }

  lemma CreateKeepsTokens(c: Config, s: State, step: Step)
    requires TokensPreparing(s) && PendingHarmless(s) && s.tokens.Keys <= s.rows.Keys && step.Create?
        && Disciplined(s, step)
    ensures TokensPreparing(Apply(c, s, step)) && PendingHarmless(Apply(c, s, step))
  {}

  lemma ReconcileKeepsTokens(c: Config, s: State, step: Step)
    requires TokensPreparing(s) && PendingHarmless(s) && (step.ReconcileStart? || step.ReconcileFinish?)
    ensures TokensPreparing(Apply(c, s, step)) && PendingHarmless(Apply(c, s, step))
  {}

  lemma OthersKeepTokens(c: Config, s: State, step: Step)
    requires TokensPreparing(s) && PendingHarmless(s) && Disciplined(s, step)
    requires step.ReadyMessage? || step.CloseStart? || step.CloseFinish? || step.GiveUp?
    ensures TokensPreparing(Apply(c, s, step)) && PendingHarmless(Apply(c, s, step))
  {}

  lemma StepKeepsTokens(c: Config, s: State, step: Step)
    requires TokensPreparing(s) && PendingHarmless(s) && Traced(s) && Disciplined(s, step)
    ensures TokensPreparing(Apply(c, s, step)) && PendingHarmless(Apply(c, s, step))
  {
    if step.Create? {
      CreateKeepsTokens(c, s, step);
    } else if step.ReconcileStart? || step.ReconcileFinish? {
      ReconcileKeepsTokens(c, s, step);
    } else {
      OthersKeepTokens(c, s, step);
    }
  }

  lemma {:induction false} TokensBelongToPreparing(c: Config, steps: seq<Step>)
    requires DisciplinedRun(c, INITIAL, steps)
    ensures TokensPreparing(Run(c, INITIAL, steps)) && PendingHarmless(Run(c, INITIAL, steps))
  {
    if steps == [] {
    } else {
      TokensBelongToPreparing(c, steps[..|steps| - 1]);
      TableInvariant(c, steps[..|steps| - 1]);
      StepKeepsTokens(c, Run(c, INITIAL, steps[..|steps| - 1]), steps[|steps| - 1]);
    }
  }

  /** The finishing half of Reconcile keeps the property exactly when no token's row expires by then. */
  lemma {:induction false} ReconcileFinishExactly(c: Config, s: State, call: nat)
    requires TokensPreparing(s) && call in s.pending && s.pending[call].Reconciling?
    ensures TokensPreparing(Apply(c, s, ReconcileFinish(call)))
       <==> forall id :: id in s.tokens ==> s.rows[id].expires > s.pending[call].nowMs
  {
    var after := Apply(c, s, ReconcileFinish(call));
    forall id | id in s.tokens
      ensures after.rows[id].state == Preparing <==> s.rows[id].expires > s.pending[call].nowMs {}
  }

  /** Without the discipline it fails: a session created between the halves with less than a
      millisecond to live is expired with its token still held. */
  lemma {:induction false} TokenLeftBehind() returns (c: Config, steps: seq<Step>, id: string)
    ensures var s := Run(c, INITIAL, steps); id in s.tokens && id in s.rows && s.rows[id].state == Expired
  {
    c, id := Config(1, 1, {"u"}, {"a"}), "s";
    var create := Create(Request("u", "a", [1], "r", 1), 0, Draw(id, [1], "x"));
    steps := [ReconcileStart(0, 0), create, ReconcileFinish(0)];
    RunTwo(c, INITIAL, steps[0], steps[1]);
    assert steps[..2] == [steps[0], steps[1]];
    var s1 := Apply(c, INITIAL, steps[0]);
    var p := Scan(s1.rows, 1, 1, 0);
    assert Creates(c, s1, create.request, 0, create.draw);
  }

  // ---- Lifecycle ----

  function Rank(state: SessionState): nat {
    match state
    case Preparing => 0
    case Ready => 1
    case Closed => 2
    case Expired => 2
  }

  /** A session may only move forward, keeps its identity, and CLOSED and EXPIRED are final. */
  ghost predicate Forward(before: Row, after: Row) {
    && (before.state == after.state || Rank(before.state) < Rank(after.state))
    && after.actor == before.actor && after.agent == before.agent && after.key == before.key
    && after.expires == before.expires && after.created == before.created
    && (after.port == before.port || after.port == None)
  }

  /** READY is entered only by a message carrying exactly the token Create issued, before expiry. */
  lemma {:induction false} StepLifecycle(c: Config, s: State, step: Step, id: string)
    requires Traced(s) && id in s.rows
    ensures var t := Apply(c, s, step);
            && id in t.rows && Forward(s.rows[id], t.rows[id])
            && (s.rows[id].state != Ready && t.rows[id].state == Ready ==>
                 && step.ReadyMessage? && step.id == id && step.token == s.issued[id].token
                 && Millis(step.now) < s.rows[id].expires && s.rows[id].state == Preparing)
            && (s.rows[id].state == Preparing && id !in s.tokens ==> t.rows[id].state != Ready && id !in t.tokens)
  {
    assert TracedRow(s, id);
    if step.ReadyMessage? {
      ReadyLifecycle(c, s, step, id);
    } else {
      OtherLifecycle(c, s, step, id);
    }
  }

  lemma ReadyLifecycle(c: Config, s: State, step: Step, id: string)
    requires id in s.rows && step.ReadyMessage?
    ensures var t := Apply(c, s, step);
            && id in t.rows && Forward(s.rows[id], t.rows[id])
            && (s.rows[id].state != Ready && t.rows[id].state == Ready ==>
                 && step.id == id && id in s.tokens && step.token == s.tokens[id]
                 && Millis(step.now) < s.rows[id].expires && s.rows[id].state == Preparing)
            && (id !in s.tokens ==> id !in t.tokens)
  {}

  lemma OtherLifecycle(c: Config, s: State, step: Step, id: string)
    requires id in s.rows && !step.ReadyMessage?
    ensures var t := Apply(c, s, step);
            && id in t.rows && Forward(s.rows[id], t.rows[id])
            && (t.rows[id].state == Ready ==> s.rows[id].state == Ready)
            && (id !in s.tokens ==> id !in t.tokens)
  {}

  lemma {:induction false} RunFrom(c: Config, prefix: seq<Step>, steps: seq<Step>)
    ensures Run(c, Run(c, INITIAL, prefix), steps) == Run(c, INITIAL, prefix + steps)
  {
    if steps == [] {
      assert prefix + steps == prefix;
    } else {
      RunFrom(c, prefix, steps[..|steps| - 1]);
      assert (prefix + steps)[..|prefix + steps| - 1] == prefix + steps[..|steps| - 1];
    }
  }

  /** Over the rest of any run a session only moves forward; a PREPARING session whose token is gone
      (as after the first half of Reconcile) never becomes READY. */
  lemma {:induction false} Lifecycle(c: Config, prefix: seq<Step>, steps: seq<Step>, id: string)
    requires id in Run(c, INITIAL, prefix).rows
    ensures var s, t := Run(c, INITIAL, prefix), Run(c, INITIAL, prefix + steps);
            && id in t.rows && Forward(s.rows[id], t.rows[id])
            && (s.rows[id].state == Preparing && id !in s.tokens ==> t.rows[id].state != Ready && id !in t.tokens)
  {
    if steps == [] {
      assert prefix + steps == prefix;
    } else {
      var before := prefix + steps[..|steps| - 1];
      Lifecycle(c, prefix, steps[..|steps| - 1], id);
      assert (prefix + steps)[..|prefix + steps| - 1] == before;
      TableInvariant(c, before);
      StepLifecycle(c, Run(c, INITIAL, before), steps[|steps| - 1], id);
      var u := Run(c, INITIAL, before);
      if id !in u.tokens {
        GoneStaysGone(c, u, steps[|steps| - 1], id);
      }
    }
  }

  lemma GoneStaysGone(c: Config, s: State, step: Step, id: string)
    requires id in s.rows && id !in s.tokens
    ensures id !in Apply(c, s, step).tokens
  {}

  /** Every session PREPARING when Reconcile starts is never READY afterwards. */
  lemma {:induction false} ReconcileStrands(c: Config, prefix: seq<Step>, call: nat, now: int, steps: seq<Step>,
      id: string)
    requires call !in Run(c, INITIAL, prefix).pending
    requires id in Run(c, INITIAL, prefix).rows && Run(c, INITIAL, prefix).rows[id].state == Preparing
    ensures var t := Run(c, INITIAL, prefix + [ReconcileStart(call, now)] + steps);
            id in t.rows && t.rows[id].state != Ready
  {
    var start := prefix + [ReconcileStart(call, now)];
    assert start[..|start| - 1] == prefix;
    Lifecycle(c, start, steps, id);
  }

  // ---- How long a live session lasts ----

  /** The step carries out a Close of this session, or a Reconcile at or after its expiry. */
  predicate Ends(s: State, step: Step, id: string) {
    && id in s.rows && (step.CloseFinish? || step.ReconcileFinish?) && step.call in s.pending
    && match s.pending[step.call]
       case Closing(x) => step.CloseFinish? && x == id
       case Reconciling(nowMs) => step.ReconcileFinish? && s.rows[id].expires <= nowMs
  }

  predicate NeverEnded(c: Config, s: State, steps: seq<Step>, id: string) {
    steps == [] ||
    (NeverEnded(c, s, steps[..|steps| - 1], id) && !Ends(Run(c, s, steps[..|steps| - 1]), steps[|steps| - 1], id))
  }

  /** One step ends a live session exactly if it is such a step, as CLOSED or as EXPIRED. */
  lemma {:induction false} LiveStep(c: Config, s: State, step: Step, id: string)
    requires id in s.rows
    ensures var t := Apply(c, s, step);
            && id in t.rows && t.rows[id].expires == s.rows[id].expires
            && (Live(t.rows[id]) <==> Live(s.rows[id]) && !Ends(s, step, id))
            && (Live(t.rows[id]) ==> t.rows[id].port == s.rows[id].port)
            && (Live(s.rows[id]) && !Live(t.rows[id]) ==>
                 && t.rows[id].port == None
                 && t.rows[id].state == if step.CloseFinish? then Closed else Expired)
  {}

  /** From any state on, over any continuation: a live session is still live, on its port, exactly while no
      Close of it and no Reconcile at or after its expiry has been carried out. */
  lemma {:induction false} LiveExactly(c: Config, s: State, steps: seq<Step>, id: string)
    requires id in s.rows && Live(s.rows[id])
    ensures var t := Run(c, s, steps);
            && id in t.rows && t.rows[id].expires == s.rows[id].expires
            && (Live(t.rows[id]) <==> NeverEnded(c, s, steps, id))
            && (Live(t.rows[id]) ==> t.rows[id].port == s.rows[id].port)
  {
    if steps == [] {
    } else {
      LiveExactly(c, s, steps[..|steps| - 1], id);
      LiveStep(c, Run(c, s, steps[..|steps| - 1]), steps[|steps| - 1], id);
    }
  }

  /** Bridge succeeds only for the actor that created the session, after the issued token was
      presented in time, and before the session expires. */
  lemma {:induction false} BridgeOnlyForCreator(c: Config, steps: seq<Step>, id: string, actor: string, now: int)
    requires Bridged(Run(c, INITIAL, steps), id, actor, now)
    ensures var s := Run(c, INITIAL, steps);
            && id in s.issued && s.issued[id].actor == actor && Millis(now) < s.issued[id].expires
            && id in s.readied && s.readied[id] < s.issued[id].expires
            && s.rows[id].port.Some?
  {
    TableInvariant(c, steps);
    assert TracedRow(Run(c, INITIAL, steps), id);
  }

  /** A READY message makes a session READY, with its host key, exactly when the session is PREPARING, its token
      is still held, the message carries the token Create issued, and the session has not expired; the token
      is then used up. Otherwise the message changes nothing. */
  lemma {:induction false} ReadyExactly(c: Config, steps: seq<Step>, id: string, token: seq<Byte>,
      hostKey: seq<Byte>, now: int)
    requires id in Run(c, INITIAL, steps).issued
    ensures var s := Run(c, INITIAL, steps);
            var t := Apply(c, s, ReadyMessage(id, token, hostKey, now));
            && id in s.rows
            && if s.rows[id].state == Preparing && id in s.tokens && token == s.issued[id].token
                 && Millis(now) < s.issued[id].expires
               then
                 && t.rows.Keys == s.rows.Keys && (forall x :: x in s.rows && x != id ==> t.rows[x] == s.rows[x])
                 && t.rows[id].state == Ready && t.rows[id].hostKey == hostKey && Forward(s.rows[id], t.rows[id])
                 && t.rows[id].port == s.rows[id].port && t.tokens == s.tokens - {id} && id in t.readied
               else t == s
  {
    TableInvariant(c, steps);
    assert TracedRow(Run(c, INITIAL, steps), id);
  }

  /** In every run Bridge grants a session exactly to the actor Create was called by, exactly once the session
      has become READY, while it is live and has not expired. */
  lemma {:induction false} BridgedExactly(c: Config, steps: seq<Step>, id: string, actor: string, now: int)
    ensures var s := Run(c, INITIAL, steps);
            Bridged(s, id, actor, now) <==>
            && id in s.issued && id in s.readied && id in s.rows && Live(s.rows[id])
            && actor == s.issued[id].actor && Millis(now) < s.issued[id].expires
  {
    TableInvariant(c, steps);
    var s := Run(c, INITIAL, steps);
    if id in s.rows {
      assert TracedRow(s, id);
    }
  }

  lemma CreatedRow(c: Config, prefix: seq<Step>, q: Request, now: int, draw: Draw)
    requires Creates(c, Run(c, INITIAL, prefix), q, now, draw)
    ensures var s, t := Run(c, INITIAL, prefix), Run(c, INITIAL, prefix + [Create(q, now, draw)]);
            && draw.id in t.rows && draw.id in t.tokens && t.tokens[draw.id] == draw.token
            && var row := t.rows[draw.id];
            && row.actor == q.actor && row.agent == q.agent && row.key == q.key && row.state == Preparing
            && row.port.Some? && row.port == Scan(s.rows, c.min, c.max, Millis(now))
            && row.created == Millis(now) && row.expires == Millis(now + q.ttl)
            && draw.id in t.issued && t.issued[draw.id].token == draw.token
            && t.issued[draw.id].expires == Millis(now + q.ttl)
  {
    var all := prefix + [Create(q, now, draw)];
    assert all[..|all| - 1] == prefix;
  }

  lemma IssuedKept(c: Config, s: State, step: Step, id: string)
    requires Traced(s) && id in s.issued
    ensures id in Apply(c, s, step).issued && Apply(c, s, step).issued[id] == s.issued[id]
  {}

  lemma {:induction false} IssuedStays(c: Config, prefix: seq<Step>, rest: seq<Step>, id: string)
    requires id in Run(c, INITIAL, prefix).issued
    ensures id in Run(c, INITIAL, prefix + rest).issued
    ensures Run(c, INITIAL, prefix + rest).issued[id] == Run(c, INITIAL, prefix).issued[id]
  {
    if rest == [] {
      assert prefix + rest == prefix;
    } else {
      var before := prefix + rest[..|rest| - 1];
      assert (prefix + rest)[..|prefix + rest| - 1] == before;
      IssuedStays(c, prefix, rest[..|rest| - 1], id);
      TableInvariant(c, before);
      IssuedKept(c, Run(c, INITIAL, before), rest[|rest| - 1], id);
    }
  }

  /** The life of a session: once it is created, and while its token is held, the READY message with that token
      makes it READY. From then on, over every continuation, Bridge grants it exactly to its creator, exactly
      until its lifetime has passed or it is ended; and so long it keeps the port it was given. */
  lemma {:induction false} CreatedSessionServesItsCreator(c: Config, prefix: seq<Step>, q: Request, now: int,
      draw: Draw, middle: seq<Step>, hostKey: seq<Byte>, at: int, rest: seq<Step>, actor: string, later: int)
    requires Creates(c, Run(c, INITIAL, prefix), q, now, draw)
    requires var m := Run(c, INITIAL, prefix + [Create(q, now, draw)] + middle);
      draw.id in m.tokens && draw.id in m.rows && m.rows[draw.id].state == Preparing
    requires Millis(at) < Millis(now + q.ttl)
    ensures var m := Run(c, INITIAL, prefix + [Create(q, now, draw)] + middle);
            var r := Apply(c, m, ReadyMessage(draw.id, draw.token, hostKey, at));
            var t := Run(c, r, rest);
            && draw.id in r.rows && r.rows[draw.id].state == Ready && r.rows[draw.id].hostKey == hostKey
            && (Bridged(t, draw.id, actor, later) <==>
                  actor == q.actor && Millis(later) < Millis(now + q.ttl) && NeverEnded(c, r, rest, draw.id))
            && draw.id in t.rows && t.rows[draw.id].agent == q.agent && t.rows[draw.id].key == q.key
            && t.rows[draw.id].created == Millis(now)
            && t.rows[draw.id].port == if NeverEnded(c, r, rest, draw.id)
                 then Scan(Run(c, INITIAL, prefix).rows, c.min, c.max, Millis(now)) else None
  {
    var id, created := draw.id, prefix + [Create(q, now, draw)];
    var before := created + middle;
    var ready := before + [ReadyMessage(id, draw.token, hostKey, at)];
    assert ready[..|ready| - 1] == before;
    CreatedRow(c, prefix, q, now, draw);
    Lifecycle(c, created, middle, id);
    IssuedStays(c, created, middle, id);
    ReadyExactly(c, before, id, draw.token, hostKey, at);
    TableInvariant(c, before);
    PreparingKeepsPort(c, created, middle, id);
    var r := Run(c, INITIAL, ready);
    LiveExactly(c, r, rest, id);
    RunFrom(c, ready, rest);
    Lifecycle(c, ready, rest, id);
    TableInvariant(c, ready + rest);
    assert TracedRow(Run(c, INITIAL, ready + rest), id);
  }

  lemma PreparingKeepsPort(c: Config, prefix: seq<Step>, rest: seq<Step>, id: string)
    requires id in Run(c, INITIAL, prefix).rows
    requires id in Run(c, INITIAL, prefix + rest).rows && Run(c, INITIAL, prefix + rest).rows[id].state == Preparing
    ensures Run(c, INITIAL, prefix + rest).rows[id].port == Run(c, INITIAL, prefix).rows[id].port
  {
    Lifecycle(c, prefix, rest, id);
    RunFrom(c, prefix, rest);
    LiveExactly(c, Run(c, INITIAL, prefix), rest, id);
  }

  // ---- Capacity ----

  function LiveIds(rows: map<string, Row>): set<string> {
    set id | id in rows && Live(rows[id])
  }

  function HeldPorts(rows: map<string, Row>, ids: set<string>): set<uint32>
    requires forall id :: id in ids ==> id in rows && rows[id].port.Some?
  {
    set id | id in ids :: rows[id].port.value
  }

  lemma {:induction false} HeldPortsCount(c: Config, rows: map<string, Row>, ids: set<string>)
    requires PortsHeld(c, rows) && forall id :: id in ids ==> id in rows && rows[id].port.Some?
    ensures |HeldPorts(rows, ids)| == |ids|
    decreases |ids|
  {
    if ids != {} {
      var id :| id in ids;
      var rest := ids - {id};
      HeldPortsCount(c, rows, rest);
      assert HeldPorts(rows, ids) == HeldPorts(rows, rest) + {rows[id].port.value};
      assert rows[id].port.value !in HeldPorts(rows, rest);
    }
  }

  function PortRange(min: int, max: int): set<uint32>
    requires 0 <= min && max < 0x1_0000_0000
  {
    set p: uint32 | InRange(p, min, max)
  }

  predicate InRange(p: uint32, min: int, max: int) {
    min <= p as int <= max
  }

  lemma {:induction false} PortRangeCount(min: int, max: int)
    requires 0 <= min && max < 0x1_0000_0000
    ensures |PortRange(min, max)| == if min <= max then max - min + 1 else 0
    decreases max - min + 1
  {
    if min <= max {
      PortRangeCount(min + 1, max);
      assert PortRange(min, max) == PortRange(min + 1, max) + {min as uint32};
    } else {
      assert PortRange(min, max) == {};
    }
  }

  lemma SubsetCount<T>(a: set<T>, b: set<T>)
    requires a <= b
    ensures |a| <= |b|
    ensures |a| == |b| ==> a == b
  {
    assert |b - a| == |b| - |a|;
  }

  /** Live sessions never outnumber the ports. */
  lemma {:induction false} CapacityBound(c: Config, steps: seq<Step>)
    ensures |LiveIds(Run(c, INITIAL, steps).rows)| <= if c.min <= c.max then c.max as int - c.min as int + 1 else 0
  {
    var rows := Run(c, INITIAL, steps).rows;
    TableInvariant(c, steps);
    HeldPortsCount(c, rows, LiveIds(rows));
    PortRangeCount(c.min as int, c.max as int);
    SubsetCount(HeldPorts(rows, LiveIds(rows)), PortRange(c.min as int, c.max as int));
  }

  /** A request with all its fields set and a lifetime of at most an hour, whose random values and references
      are good. */
  ghost predicate WellFormed(c: Config, s: State, q: Request, draw: Draw) {
    && |q.actor| > 0 && |q.agent| > 0 && |q.key| > 0 && |q.reason| > 0 && 0 < q.ttl <= 3_600_000_000_000
    && q.actor in c.users && q.agent in c.agents && draw.id !in s.rows && draw.audit !in s.audits
  }

  /** A session that is PREPARING or READY and has not expired has this port. */
  ghost predicate Taken(rows: map<string, Row>, port: uint32, nowMs: int) {
    exists id :: id in rows && HasPort(rows[id], port, nowMs)
  }

  predicate HasPort(row: Row, port: uint32, nowMs: int) {
    row.port == Some(port) && nowMs < row.expires && (row.state == Preparing || row.state == Ready)
  }

  lemma BusyIsTaken(rows: map<string, Row>, port: uint32, nowMs: int)
    ensures Busy(rows, port, nowMs) <==> Taken(rows, port, nowMs)
  {
    if id :| id in rows && Occupies(rows[id], port, nowMs) {
      assert HasPort(rows[id], port, nowMs);
    }
    if id :| id in rows && HasPort(rows[id], port, nowMs) {
      assert Occupies(rows[id], port, nowMs);
    }
  }

  /** Every port below p is occupied by a live unexpired session, and p is held by no row at all. */
  ghost predicate FirstUnheld(c: Config, s: State, p: uint32, nowMs: int) {
    && c.min <= p <= c.max
    && (forall q :: c.min <= q < p ==> Taken(s.rows, q, nowMs))
    && (forall id :: id in s.rows ==> s.rows[id].port != Some(p))
  }

  /** Create succeeds exactly with a well-formed request when the least port free of live unexpired rows exists
      and is not still held by an expired row that no Reconcile has released. */
  lemma {:induction false} CreateSucceedsExactly(c: Config, s: State, q: Request, now: int, draw: Draw)
    requires PortsHeld(c, s.rows)
    ensures Creates(c, s, q, now, draw) <==>
      WellFormed(c, s, q, draw) && exists p: uint32 :: FirstUnheld(c, s, p, Millis(now))
  {
    var r := Scan(s.rows, c.min, c.max, Millis(now));
    forall q: uint32 ensures Busy(s.rows, q, Millis(now)) <==> Taken(s.rows, q, Millis(now)) {
      BusyIsTaken(s.rows, q, Millis(now));
    }
    if p: uint32 :| FirstUnheld(c, s, p, Millis(now)) {
      assert !Busy(s.rows, p, Millis(now));
      assert r == Some(p);
    }
    if r.Some? && (forall id :: id in s.rows ==> s.rows[id].port != r) {
      assert FirstUnheld(c, s, r.value, Millis(now));
    }
  }

  /** At the instant of a Reconcile, a good Create succeeds exactly when fewer sessions are live than
      there are ports. */
  lemma {:induction false} CreateAfterReconcileExactly(c: Config, steps: seq<Step>, call: nat, q: Request, now: int,
      draw: Draw)
    requires call !in Run(c, INITIAL, steps).pending
    requires WellFormed(c, Run(c, INITIAL, steps), q, draw)
    ensures var s := Run(c, INITIAL, steps + [ReconcileStart(call, now), ReconcileFinish(call)]);
            Creates(c, s, q, now, draw) <==> |LiveIds(s.rows)| < c.max as int - c.min as int + 1
  {
    var a, b := ReconcileStart(call, now), ReconcileFinish(call);
    var s0 := Run(c, INITIAL, steps);
    RunFrom(c, steps, [a, b]);
    RunTwo(c, s0, a, b);
    var s := Run(c, INITIAL, steps + [a, b]);
    assert WellFormed(c, s, q, draw);
    assert forall id :: id in s.rows && Live(s.rows[id]) ==> s.rows[id].expires > Millis(now);
    TableInvariant(c, steps + [a, b]);
    CapacityDecides(c, s, q, now, draw);
  }

  lemma CapacityDecides(c: Config, s: State, q: Request, now: int, draw: Draw)
    requires PortsHeld(c, s.rows) && WellFormed(c, s, q, draw)
    requires forall id :: id in s.rows && Live(s.rows[id]) ==> s.rows[id].expires > Millis(now)
    ensures Creates(c, s, q, now, draw) <==> |LiveIds(s.rows)| < c.max as int - c.min as int + 1
  {
    var ids := LiveIds(s.rows);
    var held, range := HeldPorts(s.rows, ids), PortRange(c.min as int, c.max as int);
    HeldPortsCount(c, s.rows, ids);
    PortRangeCount(c.min as int, c.max as int);
    SubsetCount(held, range);
    var r := Scan(s.rows, c.min, c.max, Millis(now));
    if r.Some? {
      assert r.value !in held;
      assert r.value in range;
    } else {
      forall p | p in range ensures p in held {
        assert Busy(s.rows, p, Millis(now));
        var id :| id in s.rows && Occupies(s.rows[id], p, Millis(now));
        assert id in ids;
      }
      SubsetCount(range, held);
    }
  }
}
