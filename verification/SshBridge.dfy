/** Bridging a client to an agent over SSH (internal/server/ssh.go): the session table, the tunnel relay
    and the registry together, with every BridgeSsh call broken into its steps, in any interleaving. */
module SshBridge {
  import opened Common
  import opened Protocol
  import S = SshSessions
  import T = TunnelRelay
  import R = AgentRegistry

  type Stream = T.Stream

  datatype Config = Config(ssh: S.Config, registry: R.Config)

  /** What the session table granted a client stream; kept for the proofs after the call has ended. */
  datatype Grant = Grant(session: string, actor: string, agent: string)

  /** The session an agent's stream named, the agent that opened it and the token it presented. */
  datatype Claim = Claim(session: string, agent: string, token: seq<Byte>)

  /** Progress of BridgeSsh after the session table has granted it. */
  datatype Phase =
    | Authorized
    | Registered(record: nat, token: seq<Byte>)
    | Routed(record: nat, token: seq<Byte>, to: nat)
    | Failing
    | Requested
    | Over

  /** `own` is the record each call registered. */
  datatype System = System(
    ssh: S.State, relay: T.State, registry: R.State,
    phases: map<Stream, Phase>, grants: map<Stream, Grant>, claims: map<Stream, Claim>, own: map<Stream, nat>)

  const INITIAL: System := System(S.INITIAL, T.INITIAL, R.INITIAL, map[], map[], map[], map[])

  datatype Step =
    | Ssh(ssh: S.Step)
    | Net(net: R.Step)
    | BridgeStart(stream: Stream, session: string, actor: string, now: int)
    | BridgeRegister(stream: Stream, token: seq<Byte>)
    | BridgeRoute(stream: Stream)
    | BridgeSend(stream: Stream)
    | BridgeGiveUp(stream: Stream)
    | BridgeCancel(stream: Stream)
    | BridgeServe(stream: Stream)
    | ClientMoves(move: T.Step)
    | AgentAttach(stream: Stream, agent: string, session: string, token: seq<Byte>)
    | AgentMoves(move: T.Step)

  /** Everything the registry does except sending tunnel requests, which only BridgeSsh does. */
  predicate NetStep(step: R.Step) {
    step.Enqueue? ==> !step.message.TunnelMessage?
  }

  predicate ClientStep(step: T.Step) {
    step.ServeOffer? || step.ServeDone? || step.ServeAbandon?
  }

  predicate AgentStep(step: T.Step) {
    step.AttachTake? || step.AttachAbandon? || step.AttachClose? || step.AttachRemove?
  }

  predicate Fresh(s: System, stream: Stream) {
    stream !in s.grants && stream !in s.claims
  }

  predicate At(s: System, stream: Stream) {
    stream in s.phases && stream in s.grants && !s.registry.crashed
  }

  predicate Starts(s: System, stream: Stream, session: string, actor: string, now: int) {
    Fresh(s, stream) && session != "" && S.Bridged(s.ssh, session, actor, now)
  }

  function Started(s: System, stream: Stream, session: string, actor: string): System
    requires session in s.ssh.rows
  {
    s.(phases := s.phases[stream := Authorized],
        grants := s.grants[stream := Grant(session, actor, s.ssh.rows[session].agent)])
  }

  function AfterRegister(s: System, stream: Stream, token: seq<Byte>): System
    requires stream in s.grants
  {
    var session := s.grants[stream].session;
    if T.Registers(s.relay, session) then
      s.(relay := T.Apply(s.relay, T.Register(session, token)),
          phases := s.phases[stream := Registered(|s.relay.records|, token)],
         own := s.own[stream := |s.relay.records|])
    else s.(phases := s.phases[stream := Over])
  }

  function AfterRoute(s: System, stream: Stream): System
    requires stream in s.grants && stream in s.phases && s.phases[stream].Registered?
  {
    var route, p := R.Route(s.registry, s.grants[stream].agent), s.phases[stream];
    s.(phases := s.phases[stream := if route.Some? then Routed(p.record, p.token, route.value) else Failing])
  }

  function AfterSend(c: Config, s: System, stream: Stream): System
    requires stream in s.grants && stream in s.phases && s.phases[stream].Routed?
  {
    var p := s.phases[stream];
    s.(registry := R.Apply(c.registry, s.registry, R.Enqueue(p.to, TunnelMessage(s.grants[stream].session, p.token))),
       phases := if R.RoomIn(c.registry, s.registry, p.to) then s.phases[stream := Requested] else s.phases)
  }

  function Apply(c: Config, s: System, step: Step): System {
    match step
    case Ssh(x) => s.(ssh := S.Apply(c.ssh, s.ssh, x))
    case Net(x) => if NetStep(x) then s.(registry := R.Apply(c.registry, s.registry, x)) else s
    case BridgeStart(stream, session, actor, now) =>
      if Starts(s, stream, session, actor, now) then Started(s, stream, session, actor) else s
    case BridgeRegister(stream, token) =>
      if At(s, stream) && s.phases[stream].Authorized? then AfterRegister(s, stream, token) else s
    case BridgeRoute(stream) => if At(s, stream) && s.phases[stream].Registered? then AfterRoute(s, stream) else s
    case BridgeSend(stream) => if At(s, stream) && s.phases[stream].Routed? then AfterSend(c, s, stream) else s
    case BridgeGiveUp(stream) =>
      if At(s, stream) && s.phases[stream].Routed? then s.(phases := s.phases[stream := Failing]) else s
    case BridgeCancel(stream) =>
      if At(s, stream) && s.phases[stream].Failing? then
        s.(relay := T.Apply(s.relay, T.Cancel(s.grants[stream].session)), phases := s.phases[stream := Over])
      else s
    case BridgeServe(stream) =>
      if At(s, stream) && s.phases[stream].Requested? then
        s.(relay := T.Apply(s.relay, T.ServeGet(stream, s.grants[stream].session)), phases := s.phases[stream := Over])
      else s
    case ClientMoves(x) => if ClientStep(x) then s.(relay := T.Apply(s.relay, x)) else s
    case AgentAttach(stream, agent, session, token) =>
      if Fresh(s, stream) then
        s.(relay := T.Apply(s.relay, T.AttachGet(stream, session, token)),
            claims := s.claims[stream := Claim(session, agent, token)])
      else s
    case AgentMoves(x) => if AgentStep(x) then s.(relay := T.Apply(s.relay, x)) else s
  }

  function Run(c: Config, s: System, steps: seq<Step>): System {
    if steps == [] then s else Apply(c, Run(c, s, steps[..|steps| - 1]), steps[|steps| - 1])
  }

  /** Agents open tunnels only with what they were sent. */
  ghost predicate Disciplined(s: System, step: Step) {
    step.AgentAttach? ==> Received(s.registry.sessions, step.agent, step.session, step.token)
  }

  ghost predicate Received(sessions: Sessions, agent: string, session: string, token: seq<Byte>) {
    exists i, k :: 0 <= i < |sessions| && 0 <= k < |sessions[i].delivered|
      && sessions[i].agent == agent && sessions[i].delivered[k] == TunnelMessage(session, token)
  }

  ghost predicate DisciplinedRun(c: Config, s: System, steps: seq<Step>) {
    steps == [] ||
    (DisciplinedRun(c, s, steps[..|steps| - 1]) && Disciplined(Run(c, s, steps[..|steps| - 1]), steps[|steps| - 1]))
  }

  // ---- Invariant ----

  type Sessions = seq<R.SessionState>
  type Records = seq<T.Record>
  type Issued = map<string, S.Issue>

  ghost predicate GrantsOk(issued: Issued, readied: map<string, int>, grants: map<Stream, Grant>) {
    forall c :: c in grants ==>
      && grants[c].session in issued && issued[grants[c].session].actor == grants[c].actor
      && issued[grants[c].session].agent == grants[c].agent && grants[c].session in readied
  }

  ghost predicate PhaseOk(records: Records, sessions: Sessions, g: Grant, p: Phase) {
    match p
    case Registered(record, token) =>
      record < |records| && records[record].session == g.session && records[record].token == token
    case Routed(record, token, to) =>
      && record < |records| && records[record].session == g.session && records[record].token == token
      && to < |sessions| && sessions[to].agent == g.agent
    case _ => true
  }

  ghost predicate PhasesOk(records: Records, sessions: Sessions, grants: map<Stream, Grant>,
      phases: map<Stream, Phase>) {
    phases.Keys == grants.Keys && forall c :: c in phases ==> PhaseOk(records, sessions, grants[c], phases[c])
  }

  ghost predicate OfferedOk(records: Records, grants: map<Stream, Grant>) {
    forall p, c :: 0 <= p < |records| && c in records[p].offered ==>
      c in grants && grants[c].session == records[p].session
  }

  /** Client streams serve, and are handed to, only records of the session they were granted. */
  ghost predicate ServesOk(relay: T.State, grants: map<Stream, Grant>) {
    && (forall c :: c in relay.serves ==> c in grants)
    && (forall c :: c in relay.serves && !relay.serves[c].Left? && relay.serves[c].record < |relay.records| ==>
         relay.records[relay.serves[c].record].session == grants[c].session)
    && OfferedOk(relay.records, grants)
  }

  /** Agent streams are bound to, and spliced on, only records of the session they named, by the token they
      presented. */
  ghost predicate ClaimsOk(relay: T.State, claims: map<Stream, Claim>) {
    && (forall a :: a in relay.attaches ==> a in claims)
    && (forall a :: a in relay.attaches && relay.attaches[a].Bound? && relay.attaches[a].record < |relay.records| ==>
         relay.records[relay.attaches[a].record].session == claims[a].session
             && relay.attaches[a].token == claims[a].token)
    && (forall k :: 0 <= k < |relay.splices| && relay.splices[k].record < |relay.records| ==>
         relay.splices[k].agent in claims && relay.splices[k].token == claims[relay.splices[k].agent].token
             && claims[relay.splices[k].agent].session == relay.records[relay.splices[k].record].session)
  }

  /** A tunnel request in a log is for this log's agent, and carries the token of a record of its session. */
  ghost predicate RequestOk(records: Records, issued: Issued, agent: string, m: Message) {
    m.TunnelMessage? ==>
      && m.sessionId in issued && issued[m.sessionId].agent == agent
      && exists p :: 0 <= p < |records| && records[p].session == m.sessionId && records[p].token == m.token
  }

  ghost predicate LogsOk(records: Records, issued: Issued, sessions: Sessions) {
    forall i, k :: 0 <= i < |sessions| && 0 <= k < |sessions[i].enqueued| ==>
      RequestOk(records, issued, sessions[i].agent, sessions[i].enqueued[k])
  }

  ghost predicate RelayOk(relay: T.State) {
    T.Indexed(relay) && T.Placed(relay) && T.Matched(relay)
  }

  ghost predicate Inv(c: Config, s: System) {
    && S.Traced(s.ssh) && RelayOk(s.relay) && R.Inv(c.registry, s.registry)
    && GrantsOk(s.ssh.issued, s.ssh.readied, s.grants)
    && PhasesOk(s.relay.records, s.registry.sessions, s.grants, s.phases)
    && ServesOk(s.relay, s.grants) && ClaimsOk(s.relay, s.claims)
    && LogsOk(s.relay.records, s.ssh.issued, s.registry.sessions)
  }

  /** The claims are honest: each names a session of the agent that made it. */
  ghost predicate HonestClaims(claims: map<Stream, Claim>, issued: Issued) {
    forall a :: a in claims ==> claims[a].session in issued && issued[claims[a].session].agent == claims[a].agent
  }

  // ---- Each component only grows ----

  ghost predicate IssuedGrows(a: S.State, b: S.State) {
    && (forall id :: id in a.issued ==> id in b.issued && b.issued[id] == a.issued[id])
    && (forall id :: id in a.readied ==> id in b.readied)
  }

  lemma SshGrows(c: S.Config, s: S.State, step: S.Step)
    requires S.Traced(s)
    ensures IssuedGrows(s, S.Apply(c, s, step))
  {
    if step.Create? {
      assert step.draw.id in s.issued ==> step.draw.id in s.rows;
    } else {
      assert S.Apply(c, s, step).issued == s.issued;
    }
  }

  /** Records keep their session and token. */
  ghost predicate RecordsGrow(a: Records, b: Records) {
    |a| <= |b| && forall p :: 0 <= p < |a| ==> b[p].session == a[p].session && b[p].token == a[p].token
  }

  lemma RelayGrows(s: T.State, step: T.Step)
    ensures RecordsGrow(s.records, T.Apply(s, step).records)
  {}

  ghost predicate SessionsGrow(a: Sessions, b: Sessions) {
    |a| <= |b| && forall i :: 0 <= i < |a| ==> b[i].agent == a[i].agent
  }

  lemma RegistryGrows(c: R.Config, s: R.State, step: R.Step)
    ensures SessionsGrow(s.sessions, R.Apply(c, s, step).sessions)
  {}

  lemma PhasesGrow(a: Records, b: Records, x: Sessions, y: Sessions, grants: map<Stream, Grant>,
      phases: map<Stream, Phase>)
    requires PhasesOk(a, x, grants, phases) && RecordsGrow(a, b) && SessionsGrow(x, y)
    ensures PhasesOk(b, y, grants, phases)
  {
    forall c | c in phases ensures PhaseOk(b, y, grants[c], phases[c]) {
      assert PhaseOk(a, x, grants[c], phases[c]);
    }
  }

  lemma RequestGrows(a: Records, b: Records, x: Issued, y: Issued, agent: string, m: Message)
    requires RequestOk(a, x, agent, m) && RecordsGrow(a, b)
    requires forall id :: id in x ==> id in y && y[id] == x[id]
    ensures RequestOk(b, y, agent, m)
  {
    if m.TunnelMessage? {
      var p :| 0 <= p < |a| && a[p].session == m.sessionId && a[p].token == m.token;
      assert b[p].session == m.sessionId && b[p].token == m.token;
    }
  }

  lemma LogsGrow(a: Records, b: Records, x: Issued, y: Issued, sessions: Sessions)
    requires LogsOk(a, x, sessions) && RecordsGrow(a, b)
    requires forall id :: id in x ==> id in y && y[id] == x[id]
    ensures LogsOk(b, y, sessions)
  {
    forall i, k | 0 <= i < |sessions| && 0 <= k < |sessions[i].enqueued|
      ensures RequestOk(b, y, sessions[i].agent, sessions[i].enqueued[k]) {
      RequestGrows(a, b, x, y, sessions[i].agent, sessions[i].enqueued[k]);
    }
  }

  /** A registry step adds at most the message it sends to the logs. */
  lemma LogsAdd(c: R.Config, s: R.State, step: R.Step, records: Records, issued: Issued)
    requires LogsOk(records, issued, s.sessions)
    requires step.Enqueue? && step.session < |s.sessions| ==>
      RequestOk(records, issued, s.sessions[step.session].agent, step.message)
    ensures LogsOk(records, issued, R.Apply(c, s, step).sessions)
  {
    var t := R.Apply(c, s, step);
    forall i, k | 0 <= i < |t.sessions| && 0 <= k < |t.sessions[i].enqueued|
      ensures RequestOk(records, issued, t.sessions[i].agent, t.sessions[i].enqueued[k]) {
      if i < |s.sessions| && k < |s.sessions[i].enqueued| {
        assert RequestOk(records, issued, s.sessions[i].agent, s.sessions[i].enqueued[k]);
      }
    }
  }

  // ---- Steps of one component ----

  lemma SshKeepsInv(c: Config, s: System, x: S.Step)
    requires Inv(c, s)
    ensures Inv(c, s.(ssh := S.Apply(c.ssh, s.ssh, x)))
  {
    var t := S.Apply(c.ssh, s.ssh, x);
    S.StepKeepsTrace(c.ssh, s.ssh, x);
    SshGrows(c.ssh, s.ssh, x);
    LogsGrow(s.relay.records, s.relay.records, s.ssh.issued, t.issued, s.registry.sessions);
  }

  lemma RegistryKeepsInv(c: Config, s: System, x: R.Step)
    requires Inv(c, s)
    requires x.Enqueue? && x.session < |s.registry.sessions| ==>
      RequestOk(s.relay.records, s.ssh.issued, s.registry.sessions[x.session].agent, x.message)
    ensures Inv(c, s.(registry := R.Apply(c.registry, s.registry, x)))
  {
    var t := R.Apply(c.registry, s.registry, x);
    R.StepKeepsInv(c.registry, s.registry, x);
    RegistryGrows(c.registry, s.registry, x);
    PhasesGrow(s.relay.records, s.relay.records, s.registry.sessions, t.sessions, s.grants, s.phases);
    LogsAdd(c.registry, s.registry, x, s.relay.records, s.ssh.issued);
  }

  lemma RelayKeepsItself(s: T.State, x: T.Step)
    requires RelayOk(s)
    ensures RelayOk(T.Apply(s, x))
  {
    T.StepIndexed(s, x);
    T.StepPlaced(s, x);
    T.StepMatched(s, x);
  }

  /** A relay step that keeps the promises about client and agent streams. */
  lemma RelayKeepsInv(c: Config, s: System, x: T.Step, claims: map<Stream, Claim>)
    requires Inv(c, s)
    requires ServesOk(T.Apply(s.relay, x), s.grants) && ClaimsOk(T.Apply(s.relay, x), claims)
    ensures Inv(c, s.(relay := T.Apply(s.relay, x), claims := claims))
  {
    var t := T.Apply(s.relay, x);
    RelayKeepsItself(s.relay, x);
    RelayGrows(s.relay, x);
    PhasesGrow(s.relay.records, t.records, s.registry.sessions, s.registry.sessions, s.grants, s.phases);
    LogsGrow(s.relay.records, t.records, s.ssh.issued, s.ssh.issued, s.registry.sessions);
  }

  // ---- Client streams ----

  lemma ServeGetKeepsServes(s: T.State, stream: Stream, g: map<Stream, Grant>)
    requires RelayOk(s) && ServesOk(s, g) && stream in g
    ensures ServesOk(T.Apply(s, T.ServeGet(stream, g[stream].session)), g)
  {}

  lemma AcceptedOfferIs(s: T.State, stream: Stream)
    requires T.ServesAt(s, stream) && s.serves[stream].Got? && s.records[s.serves[stream].record].channel.None?
    ensures var p := s.serves[stream].record;
            T.Apply(s, T.ServeOffer(stream)) ==
            s.(records :=
                s.records[p := s.records[p].(channel := Some(stream), offered := s.records[p].offered + [stream])],
               serves := s.serves[stream := T.Waiting(p)], places := s.places[stream := T.InChannel(p)])
  {}

  lemma OneMoreOffered(records: Records, g: map<Stream, Grant>, p: nat, r: T.Record, stream: Stream)
    requires OfferedOk(records, g) && p < |records| && r.session == records[p].session
        && r.offered == records[p].offered + [stream]
    requires stream in g && g[stream].session == r.session
    ensures OfferedOk(records[p := r], g)
  {}

  lemma OfferKeepsServes(s: T.State, stream: Stream, g: map<Stream, Grant>)
    requires RelayOk(s) && ServesOk(s, g)
    ensures ServesOk(T.Apply(s, T.ServeOffer(stream)), g)
  {
    if T.ServesAt(s, stream) && s.serves[stream].Got? && s.records[s.serves[stream].record].channel.None? {
      AcceptedOfferIs(s, stream);
      var p := s.serves[stream].record;
      OneMoreOffered(s.records, g, p,
          s.records[p].(channel := Some(stream), offered := s.records[p].offered + [stream]), stream);
      AcceptedKeepsLookups(s, stream, g);
    }
  }

  lemma AcceptedKeepsLookups(s: T.State, stream: Stream, g: map<Stream, Grant>)
    requires ServesOk(s, g) && stream in s.serves && s.serves[stream].Got?
    requires T.ServesAt(s, stream) && s.records[s.serves[stream].record].channel.None?
    ensures var t := T.Apply(s, T.ServeOffer(stream));
            && (forall c :: c in t.serves ==> c in g)
            && forall c :: c in t.serves && !t.serves[c].Left? && t.serves[c].record < |t.records| ==>
                 t.records[t.serves[c].record].session == g[c].session
  {
    var t := T.Apply(s, T.ServeOffer(stream));
    RelayGrows(s, T.ServeOffer(stream));
    assert t.serves == s.serves[stream := T.Waiting(s.serves[stream].record)] && |t.records| == |s.records|;
  }

  /** Steps that offer nothing and start no Serve. */
  lemma OtherKeepsServes(s: T.State, x: T.Step, g: map<Stream, Grant>)
    requires RelayOk(s) && ServesOk(s, g) && !x.ServeGet? && !x.ServeOffer?
    ensures ServesOk(T.Apply(s, x), g)
  {
    RelayGrows(s, x);
    OtherKeepsOffers(s, x);
    ServesStay(s, T.Apply(s, x), g);
  }

  lemma OtherKeepsOffers(s: T.State, x: T.Step)
    requires !x.ServeGet? && !x.ServeOffer?
    ensures var t := T.Apply(s, x);
            && t.serves.Keys == s.serves.Keys
            && (forall c :: c in t.serves && !t.serves[c].Left? ==> t.serves[c] == s.serves[c])
            && (forall p :: 0 <= p < |s.records| ==> t.records[p].offered == s.records[p].offered)
            && (forall p :: |s.records| <= p < |t.records| ==> t.records[p].offered == [])
  {}

  lemma ServesStay(s: T.State, t: T.State, g: map<Stream, Grant>)
    requires RelayOk(s) && ServesOk(s, g) && RecordsGrow(s.records, t.records)
    requires t.serves.Keys == s.serves.Keys
    requires forall c :: c in t.serves && !t.serves[c].Left? ==> t.serves[c] == s.serves[c]
    requires forall p :: 0 <= p < |s.records| ==> t.records[p].offered == s.records[p].offered
    requires forall p :: |s.records| <= p < |t.records| ==> t.records[p].offered == []
    ensures ServesOk(t, g)
  {
    forall c | c in t.serves && !t.serves[c].Left? && t.serves[c].record < |t.records|
      ensures t.records[t.serves[c].record].session == g[c].session {
      assert s.serves[c].record < |s.records|;
    }
  }

  // ---- Agent streams ----

  lemma AttachKeepsClaims(s: T.State, stream: Stream, session: string, token: seq<Byte>, claims: map<Stream, Claim>,
      agent: string)
    requires RelayOk(s) && ClaimsOk(s, claims) && stream !in claims
    ensures ClaimsOk(T.Apply(s, T.AttachGet(stream, session, token)), claims[stream := Claim(session, agent, token)])
  {}

  lemma TakeKeepsClaims(s: T.State, stream: Stream, claims: map<Stream, Claim>)
    requires RelayOk(s) && ClaimsOk(s, claims)
    ensures ClaimsOk(T.Apply(s, T.AttachTake(stream)), claims)
  {}

  lemma ClaimsStay(s: T.State, t: T.State, claims: map<Stream, Claim>)
    requires RelayOk(s) && ClaimsOk(s, claims) && RecordsGrow(s.records, t.records)
    requires t.attaches.Keys == s.attaches.Keys
    requires forall a :: a in t.attaches && t.attaches[a].Bound? ==> t.attaches[a] == s.attaches[a]
    requires |t.splices| == |s.splices|
    requires forall k :: 0 <= k < |t.splices| ==>
      t.splices[k] == s.splices[k].(finished := t.splices[k].finished)
    ensures ClaimsOk(t, claims)
  {
    forall a | a in t.attaches && t.attaches[a].Bound? && t.attaches[a].record < |t.records|
      ensures t.records[t.attaches[a].record].session == claims[a].session {
      assert s.attaches[a].record < |s.records|;
    }
  }

  lemma OtherKeepsClaims(s: T.State, x: T.Step, claims: map<Stream, Claim>)
    requires RelayOk(s) && ClaimsOk(s, claims) && !x.AttachGet? && !x.AttachTake?
    ensures ClaimsOk(T.Apply(s, x), claims)
  {
    RelayGrows(s, x);
    OtherKeepsSplices(s, x);
    ClaimsStay(s, T.Apply(s, x), claims);
  }

  lemma OtherKeepsSplices(s: T.State, x: T.Step)
    requires !x.AttachGet? && !x.AttachTake?
    ensures var t := T.Apply(s, x);
            && t.attaches.Keys == s.attaches.Keys
            && (forall a :: a in t.attaches && t.attaches[a].Bound? ==> t.attaches[a] == s.attaches[a])
            && |t.splices| == |s.splices|
            && forall k :: 0 <= k < |t.splices| ==>
                 t.splices[k] == s.splices[k].(finished := t.splices[k].finished)
  {
    if x.AttachClose? {
      CloseKeepsSplices(s, x.stream);
    } else {
      assert T.Apply(s, x).splices == s.splices;
    }
  }

  lemma CloseKeepsSplices(s: T.State, stream: Stream)
    ensures var t := T.Apply(s, T.AttachClose(stream));
            && t.attaches.Keys == s.attaches.Keys
            && (forall a :: a in t.attaches && t.attaches[a].Bound? ==> t.attaches[a] == s.attaches[a])
            && |t.splices| == |s.splices|
            && forall k :: 0 <= k < |t.splices| ==>
                 t.splices[k] == s.splices[k].(finished := t.splices[k].finished)
  {}

  // ---- Every step of the whole ----

  lemma PhaseKeepsInv(c: Config, s: System, stream: Stream, p: Phase)
    requires Inv(c, s) && stream in s.phases && PhaseOk(s.relay.records, s.registry.sessions, s.grants[stream], p)
    ensures Inv(c, s.(phases := s.phases[stream := p]))
  {}

  lemma GrantMore(relay: T.State, sessions: Sessions, grants: map<Stream, Grant>, phases: map<Stream, Phase>,
      stream: Stream, g: Grant)
    requires ServesOk(relay, grants) && PhasesOk(relay.records, sessions, grants, phases) && stream !in grants
    ensures ServesOk(relay, grants[stream := g])
        && PhasesOk(relay.records, sessions, grants[stream := g], phases[stream := Authorized])
  {
    var more := grants[stream := g];
    forall x | x in phases ensures PhaseOk(relay.records, sessions, more[x], phases[x]) {
      assert PhaseOk(relay.records, sessions, grants[x], phases[x]) && x != stream;
    }
  }

  lemma StartKeepsInv(c: Config, s: System, stream: Stream, session: string, actor: string, now: int)
    requires Inv(c, s) && Starts(s, stream, session, actor, now)
    ensures Inv(c, Started(s, stream, session, actor))
  {
    assert S.TracedRow(s.ssh, session);
    GrantMore(s.relay, s.registry.sessions, s.grants, s.phases, stream,
        Grant(session, actor, s.ssh.rows[session].agent));
  }

  lemma BridgeStartKeepsInv(c: Config, s: System, stream: Stream, session: string, actor: string, now: int)
    requires Inv(c, s)
    ensures Inv(c, Apply(c, s, BridgeStart(stream, session, actor, now)))
  {
    if Starts(s, stream, session, actor, now) {
      StartKeepsInv(c, s, stream, session, actor, now);
    }
  }

  lemma OwnDoesNotMatter(c: Config, s: System, own: map<Stream, nat>)
    requires Inv(c, s)
    ensures Inv(c, s.(own := own))
  {}

  lemma RegisterKeepsInv(c: Config, s: System, stream: Stream, token: seq<Byte>)
    requires Inv(c, s)
    ensures Inv(c, Apply(c, s, BridgeRegister(stream, token)))
  {
    if At(s, stream) && s.phases[stream].Authorized? {
      var x := T.Register(s.grants[stream].session, token);
      if T.Registers(s.relay, s.grants[stream].session) {
        RelayMoveKeepsInv(c, s, x);
        PhaseKeepsInv(c, s.(relay := T.Apply(s.relay, x)), stream, Registered(|s.relay.records|, token));
        OwnDoesNotMatter(c,
            s.(relay := T.Apply(s.relay, x), phases := s.phases[stream := Registered(|s.relay.records|, token)]),
                         s.own[stream := |s.relay.records|]);
      } else {
        PhaseKeepsInv(c, s, stream, Over);
      }
    }
  }

  lemma RouteKeepsInv(c: Config, s: System, stream: Stream)
    requires Inv(c, s)
    ensures Inv(c, Apply(c, s, BridgeRoute(stream)))
  {
    if At(s, stream) && s.phases[stream].Registered? {
      var route, p := R.Route(s.registry, s.grants[stream].agent), s.phases[stream];
      assert PhaseOk(s.relay.records, s.registry.sessions, s.grants[stream], p);
      if route.Some? {
        R.RouteIsOpen(c.registry, s.registry, s.grants[stream].agent);
      }
      PhaseKeepsInv(c, s, stream, if route.Some? then Routed(p.record, p.token, route.value) else Failing);
    }
  }

  /** The request goes to the session of the right agent, with the record's token. */
  lemma RequestIsRight(c: Config, s: System, stream: Stream)
    requires Inv(c, s) && stream in s.phases && s.phases[stream].Routed?
    ensures var p := s.phases[stream];
            p.to < |s.registry.sessions| &&
            RequestOk(s.relay.records, s.ssh.issued, s.registry.sessions[p.to].agent,
                TunnelMessage(s.grants[stream].session, p.token))
  {
    var g, p := s.grants[stream], s.phases[stream];
    assert PhaseOk(s.relay.records, s.registry.sessions, g, p);
    assert s.relay.records[p.record].session == g.session && s.relay.records[p.record].token == p.token;
  }

  lemma SendKeepsInv(c: Config, s: System, stream: Stream)
    requires Inv(c, s)
    ensures Inv(c, Apply(c, s, BridgeSend(stream)))
  {
    if At(s, stream) && s.phases[stream].Routed? {
      var p := s.phases[stream];
      var x := R.Enqueue(p.to, TunnelMessage(s.grants[stream].session, p.token));
      RequestIsRight(c, s, stream);
      RegistryKeepsInv(c, s, x);
      if R.RoomIn(c.registry, s.registry, p.to) {
        PhaseKeepsInv(c, s.(registry := R.Apply(c.registry, s.registry, x)), stream, Requested);
      }
    }
  }

  lemma GiveUpKeepsInv(c: Config, s: System, stream: Stream)
    requires Inv(c, s)
    ensures Inv(c, Apply(c, s, BridgeGiveUp(stream)))
  {
    if At(s, stream) && s.phases[stream].Routed? {
      PhaseKeepsInv(c, s, stream, Failing);
    }
  }

  lemma RelayMoveKeepsInv(c: Config, s: System, x: T.Step)
    requires Inv(c, s) && !x.AttachGet?
        && (x.ServeGet? ==> x.stream in s.grants && x.session == s.grants[x.stream].session)
    ensures Inv(c, s.(relay := T.Apply(s.relay, x)))
  {
    if x.ServeOffer? {
      OfferKeepsServes(s.relay, x.stream, s.grants);
    } else if x.ServeGet? {
      ServeGetKeepsServes(s.relay, x.stream, s.grants);
    } else {
      OtherKeepsServes(s.relay, x, s.grants);
    }
    if x.AttachTake? {
      TakeKeepsClaims(s.relay, x.stream, s.claims);
    } else {
      OtherKeepsClaims(s.relay, x, s.claims);
    }
    RelayKeepsInv(c, s, x, s.claims);
    assert s.(relay := T.Apply(s.relay, x), claims := s.claims) == s.(relay := T.Apply(s.relay, x));
  }

  lemma CancelKeepsInv(c: Config, s: System, stream: Stream)
    requires Inv(c, s)
    ensures Inv(c, Apply(c, s, BridgeCancel(stream)))
  {
    if At(s, stream) && s.phases[stream].Failing? {
      var x := T.Cancel(s.grants[stream].session);
      RelayMoveKeepsInv(c, s, x);
      PhaseKeepsInv(c, s.(relay := T.Apply(s.relay, x)), stream, Over);
    }
  }

  lemma ServeKeepsInv(c: Config, s: System, stream: Stream)
    requires Inv(c, s)
    ensures Inv(c, Apply(c, s, BridgeServe(stream)))
  {
    if At(s, stream) && s.phases[stream].Requested? {
      var x := T.ServeGet(stream, s.grants[stream].session);
      RelayMoveKeepsInv(c, s, x);
      PhaseKeepsInv(c, s.(relay := T.Apply(s.relay, x)), stream, Over);
    }
  }

  lemma AttachKeepsInv(c: Config, s: System, stream: Stream, agent: string, session: string, token: seq<Byte>)
    requires Inv(c, s)
    ensures Inv(c, Apply(c, s, AgentAttach(stream, agent, session, token)))
  {
    if Fresh(s, stream) {
      var x := T.AttachGet(stream, session, token);
      OtherKeepsServes(s.relay, x, s.grants);
      AttachKeepsClaims(s.relay, stream, session, token, s.claims, agent);
      RelayKeepsInv(c, s, x, s.claims[stream := Claim(session, agent, token)]);
    }
  }

  lemma NetKeepsInv(c: Config, s: System, x: R.Step)
    requires Inv(c, s)
    ensures Inv(c, Apply(c, s, Net(x)))
  {
    if NetStep(x) {
      RegistryKeepsInv(c, s, x);
    }
  }

  lemma MoveIs(c: Config, s: System, step: Step)
    requires step.ClientMoves? || step.AgentMoves?
    ensures Apply(c, s, step) == s
        || (ClientOrAgent(step.move) && Apply(c, s, step) == s.(relay := T.Apply(s.relay, step.move)))
  {}

  predicate ClientOrAgent(x: T.Step) {
    ClientStep(x) || AgentStep(x)
  }

  lemma MoveKeepsInv(c: Config, s: System, step: Step)
    requires Inv(c, s) && (step.ClientMoves? || step.AgentMoves?)
    ensures Inv(c, Apply(c, s, step))
  {
    MoveIs(c, s, step);
    if ClientOrAgent(step.move) {
      RelayMoveKeepsInv(c, s, step.move);
    }
  }

  lemma StepKeepsInv(c: Config, s: System, step: Step)
    requires Inv(c, s)
    ensures Inv(c, Apply(c, s, step))
  {
    match step
    case BridgeStart(stream, session, actor, now) => BridgeStartKeepsInv(c, s, stream, session, actor, now);
    case BridgeRegister(stream, token) => RegisterKeepsInv(c, s, stream, token);
    case BridgeRoute(stream) => RouteKeepsInv(c, s, stream);
    case BridgeSend(stream) => SendKeepsInv(c, s, stream);
    case BridgeGiveUp(stream) => GiveUpKeepsInv(c, s, stream);
    case BridgeCancel(stream) => CancelKeepsInv(c, s, stream);
    case BridgeServe(stream) => ServeKeepsInv(c, s, stream);
    case AgentAttach(stream, agent, session, token) => AttachKeepsInv(c, s, stream, agent, session, token);
    case Ssh(x) => SshKeepsInv(c, s, x);
    case Net(x) => NetKeepsInv(c, s, x);
    case _ => MoveKeepsInv(c, s, step);
  }

  lemma {:induction false} BridgeInvariant(c: Config, steps: seq<Step>)
    ensures Inv(c, Run(c, INITIAL, steps))
  {
    if steps == [] {
    } else {
      BridgeInvariant(c, steps[..|steps| - 1]);
      StepKeepsInv(c, Run(c, INITIAL, steps[..|steps| - 1]), steps[|steps| - 1]);
    }
  }

  // ---- What the bridge guarantees ----

  /** In every run each tunnel request anywhere was sent only to the agent of its session, and carries a
      token the relay issued for that session. */
  lemma {:induction false} RequestsGoToTheAgent(c: Config, steps: seq<Step>, i: nat, k: nat)
    requires var s := Run(c, INITIAL, steps);
             i < |s.registry.sessions| && k < |s.registry.sessions[i].enqueued|
                 && s.registry.sessions[i].enqueued[k].TunnelMessage?
    ensures var s := Run(c, INITIAL, steps);
            var m := s.registry.sessions[i].enqueued[k];
            && m.sessionId in s.ssh.issued && s.ssh.issued[m.sessionId].agent == s.registry.sessions[i].agent
            && exists p ::
                 0 <= p < |s.relay.records| && s.relay.records[p].session == m.sessionId
                     && s.relay.records[p].token == m.token
  {
    BridgeInvariant(c, steps);
    var s := Run(c, INITIAL, steps);
    assert RequestOk(s.relay.records, s.ssh.issued, s.registry.sessions[i].agent, s.registry.sessions[i].enqueued[k]);
  }

  lemma ReceivedNamesOwnSession(c: Config, s: System, agent: string, session: string, token: seq<Byte>)
    requires Inv(c, s) && Received(s.registry.sessions, agent, session, token)
    ensures session in s.ssh.issued && s.ssh.issued[session].agent == agent
  {
    var sessions := s.registry.sessions;
    var i, k :| 0 <= i < |sessions| && 0 <= k < |sessions[i].delivered|
      && sessions[i].agent == agent && sessions[i].delivered[k] == TunnelMessage(session, token);
    assert R.SessionOk(c.registry, s.registry, i);
    assert sessions[i].enqueued[k] == TunnelMessage(session, token);
    assert RequestOk(s.relay.records, s.ssh.issued, agent, sessions[i].enqueued[k]);
  }

  lemma HonestyGrows(claims: map<Stream, Claim>, a: Issued, b: Issued)
    requires HonestClaims(claims, a) && forall id :: id in a ==> id in b && b[id] == a[id]
    ensures HonestClaims(claims, b)
  {}

  lemma AttachKeepsHonest(c: Config, s: System, step: Step)
    requires Inv(c, s) && HonestClaims(s.claims, s.ssh.issued) && Disciplined(s, step) && step.AgentAttach?
    ensures HonestClaims(Apply(c, s, step).claims, Apply(c, s, step).ssh.issued)
  {
    ReceivedNamesOwnSession(c, s, step.agent, step.session, step.token);
    ClaimsAfterAttach(c, s, step);
  }

  lemma ClaimsAfterAttach(c: Config, s: System, step: Step)
    requires step.AgentAttach?
    ensures Apply(c, s, step).ssh == s.ssh
    ensures Apply(c, s, step).claims ==
      if Fresh(s, step.stream) then s.claims[step.stream := Claim(step.session, step.agent, step.token)] else s.claims
  {}

  lemma ClaimsOnlyByAttach(c: Config, s: System, step: Step)
    requires !step.AgentAttach?
    ensures Apply(c, s, step).claims == s.claims
    ensures !step.Ssh? ==> Apply(c, s, step).ssh == s.ssh
  {}

  lemma IssuedOnlyGrows(c: Config, s: System, step: Step)
    requires S.Traced(s.ssh) && !step.AgentAttach?
    ensures IssuedGrows(s.ssh, Apply(c, s, step).ssh)
  {
    ClaimsOnlyByAttach(c, s, step);
    if step.Ssh? {
      SshGrows(c.ssh, s.ssh, step.ssh);
    }
  }

  lemma OtherKeepsHonest(c: Config, s: System, step: Step)
    requires S.Traced(s.ssh) && HonestClaims(s.claims, s.ssh.issued) && !step.AgentAttach?
    ensures HonestClaims(Apply(c, s, step).claims, Apply(c, s, step).ssh.issued)
  {
    ClaimsOnlyByAttach(c, s, step);
    IssuedOnlyGrows(c, s, step);
    HonestyGrows(s.claims, s.ssh.issued, Apply(c, s, step).ssh.issued);
  }

  lemma StepKeepsHonest(c: Config, s: System, step: Step)
    requires Inv(c, s) && HonestClaims(s.claims, s.ssh.issued) && Disciplined(s, step)
    ensures HonestClaims(Apply(c, s, step).claims, Apply(c, s, step).ssh.issued)
  {
    if step.AgentAttach? {
      AttachKeepsHonest(c, s, step);
    } else {
      OtherKeepsHonest(c, s, step);
    }
  }

  lemma {:induction false} ClaimsAreHonest(c: Config, steps: seq<Step>)
    requires DisciplinedRun(c, INITIAL, steps)
    ensures HonestClaims(Run(c, INITIAL, steps).claims, Run(c, INITIAL, steps).ssh.issued)
  {
    if steps == [] {
    } else {
      ClaimsAreHonest(c, steps[..|steps| - 1]);
      BridgeInvariant(c, steps[..|steps| - 1]);
      StepKeepsHonest(c, Run(c, INITIAL, steps[..|steps| - 1]), steps[|steps| - 1]);
    }
  }

  /** Every client ever spliced is the actor that created the session it is spliced on, and that session
      had become READY with its own token. */
  lemma {:induction false} ClientsOwnTheirTunnels(c: Config, steps: seq<Step>, k: nat)
    requires k < |Run(c, INITIAL, steps).relay.splices|
    ensures var s := Run(c, INITIAL, steps);
            var x := s.relay.splices[k];
            && x.record < |s.relay.records| && x.client in s.grants
            && var session := s.relay.records[x.record].session;
            && session in s.ssh.issued && session in s.ssh.readied
            && s.grants[x.client].session == session && s.grants[x.client].actor == s.ssh.issued[session].actor
  {
    BridgeInvariant(c, steps);
    var s := Run(c, INITIAL, steps);
    assert s.relay.splices[k].client in s.relay.records[s.relay.splices[k].record].offered;
  }

  /** When agents open tunnels only with what they were sent, every splice joins the creator of a session
      with the agent of that session, who presented the token of the record. */
  lemma {:induction false} TunnelsJoinOwnerAndAgent(c: Config, steps: seq<Step>, k: nat)
    requires DisciplinedRun(c, INITIAL, steps) && k < |Run(c, INITIAL, steps).relay.splices|
    ensures var s := Run(c, INITIAL, steps);
            var x := s.relay.splices[k];
            && x.record < |s.relay.records| && x.client in s.grants && x.agent in s.claims
            && var session := s.relay.records[x.record].session;
            && session in s.ssh.issued
            && s.grants[x.client].actor == s.ssh.issued[session].actor
            && s.claims[x.agent] == Claim(session, s.ssh.issued[session].agent, s.relay.records[x.record].token)
  {
    BridgeInvariant(c, steps);
    ClaimsAreHonest(c, steps);
    ClientsOwnTheirTunnels(c, steps, k);
  }

  // ---- One hand-off per record ----

  /** What one step of the whole does to the relay. */
  function RelayStep(s: System, step: Step): Option<T.Step> {
    match step
    case BridgeRegister(stream, token) =>
      if At(s, stream) && s.phases[stream].Authorized? then Some(T.Register(s.grants[stream].session, token)) else None
    case BridgeCancel(stream) =>
      if At(s, stream) && s.phases[stream].Failing? then Some(T.Cancel(s.grants[stream].session)) else None
    case BridgeServe(stream) =>
      if At(s, stream) && s.phases[stream].Requested? then Some(T.ServeGet(stream, s.grants[stream].session)) else None
    case ClientMoves(x) => if ClientStep(x) then Some(x) else None
    case AgentAttach(stream, agent, session, token) =>
      if Fresh(s, stream) then Some(T.AttachGet(stream, session, token)) else None
    case AgentMoves(x) => if AgentStep(x) then Some(x) else None
    case _ => None
  }

  lemma RelayMoves(c: Config, s: System, step: Step)
    ensures var x := RelayStep(s, step);
            Apply(c, s, step).relay == if x.Some? then T.Apply(s.relay, x.value) else s.relay
  {}

  /** The relay only ever takes steps of its own, so what holds of all its runs holds here. */
  lemma {:induction false} RelayRuns(c: Config, steps: seq<Step>) returns (moves: seq<T.Step>)
    ensures Run(c, INITIAL, steps).relay == T.Run(T.INITIAL, moves)
  {
    if steps == [] {
      moves := [];
    } else {
      var s := Run(c, INITIAL, steps[..|steps| - 1]);
      moves := RelayRuns(c, steps[..|steps| - 1]);
      RelayMoves(c, s, steps[|steps| - 1]);
      var x := RelayStep(s, steps[|steps| - 1]);
      if x.Some? {
        assert (moves + [x.value])[..|moves|] == moves;
        moves := moves + [x.value];
      }
    }
  }

  /** The call finds the record it registered itself, or none. */
  predicate FindsOwn(s: System, step: Step) {
    step.BridgeServe? && At(s, step.stream) && s.phases[step.stream].Requested?
    && s.grants[step.stream].session in s.relay.pending ==>
      step.stream in s.own && s.relay.pending[s.grants[step.stream].session] == s.own[step.stream]
  }

  predicate FindsOwnRun(c: Config, s: System, steps: seq<Step>) {
    steps == [] ||
    (FindsOwnRun(c, s, steps[..|steps| - 1]) && FindsOwn(Run(c, s, steps[..|steps| - 1]), steps[|steps| - 1]))
  }

  ghost predicate OwnOk(records: Records, phases: map<Stream, Phase>, own: map<Stream, nat>) {
    && own.Keys <= phases.Keys
    && (forall c :: c in own ==> own[c] < |records| && !phases[c].Authorized?)
    && (forall a, b :: a in own && b in own && own[a] == own[b] ==> a == b)
  }

  ghost predicate ServesOwn(serves: map<Stream, T.ServePhase>, own: map<Stream, nat>) {
    forall c :: c in serves && !serves[c].Left? ==> c in own && serves[c].record == own[c]
  }

  /** A record was handed to nobody, or once, to the call that registered it. */
  ghost predicate HandedOnce(records: Records, serves: map<Stream, T.ServePhase>, own: map<Stream, nat>) {
    forall p :: 0 <= p < |records| ==>
      |records[p].offered| <= 1 && forall x :: x in records[p].offered ==>
        x in own && own[x] == p && x in serves && !serves[x].Got?
  }

  ghost predicate HandOffInv(s: System) {
    && OwnOk(s.relay.records, s.phases, s.own)
    && ServesOwn(s.relay.serves, s.own)
    && HandedOnce(s.relay.records, s.relay.serves, s.own)
  }

  lemma FirstIsMember(streams: seq<Stream>)
    requires streams != []
    ensures streams[0] in streams
  {}

  lemma OfferHandsOnce(s: T.State, stream: Stream, own: map<Stream, nat>)
    requires HandedOnce(s.records, s.serves, own) && ServesOwn(s.serves, own)
    requires forall a, b :: a in own && b in own && own[a] == own[b] ==> a == b
    ensures var t := T.Apply(s, T.ServeOffer(stream)); HandedOnce(t.records, t.serves, own) && ServesOwn(t.serves, own)
  {
    if T.ServesAt(s, stream) && s.serves[stream].Got? {
      var p := s.serves[stream].record;
      if s.records[p].offered != [] {
        FirstIsMember(s.records[p].offered);
      }
      if s.records[p].channel.None? {
        AcceptedOfferIs(s, stream);
      }
    }
  }

  /** Relay steps other than lookups, offers and registrations hand nothing over. */
  lemma OtherHandsOnce(s: T.State, x: T.Step, own: map<Stream, nat>)
    requires HandedOnce(s.records, s.serves, own) && ServesOwn(s.serves, own) && !x.ServeGet? && !x.ServeOffer?
    ensures var t := T.Apply(s, x); HandedOnce(t.records, t.serves, own) && ServesOwn(t.serves, own)
  {
    var t := T.Apply(s, x);
    OtherKeepsOffers(s, x);
    RelayGrows(s, x);
    forall p | 0 <= p < |t.records|
      ensures |t.records[p].offered| <= 1
           && forall y :: y in t.records[p].offered ==> y in own && own[y] == p && y in t.serves && !t.serves[y].Got? {
      if p < |s.records| {
        assert t.records[p].offered == s.records[p].offered;
      }
    }
  }

  lemma LookupHandsOnce(s: T.State, stream: Stream, session: string, own: map<Stream, nat>)
    requires HandedOnce(s.records, s.serves, own) && ServesOwn(s.serves, own)
    requires session in s.pending ==> stream in own && s.pending[session] == own[stream]
    ensures var t := T.Apply(s, T.ServeGet(stream, session));
        HandedOnce(t.records, t.serves, own) && ServesOwn(t.serves, own)
  {}

  lemma MoreOwnHandsOnce(s: T.State, own: map<Stream, nat>, stream: Stream, p: nat)
    requires HandedOnce(s.records, s.serves, own) && ServesOwn(s.serves, own) && stream !in own
    ensures HandedOnce(s.records, s.serves, own[stream := p]) && ServesOwn(s.serves, own[stream := p])
  {}

  lemma PhasesKeepOwn(records: Records, more: Records, phases: map<Stream, Phase>, own: map<Stream, nat>,
      stream: Stream, p: Phase)
    requires OwnOk(records, phases, own) && |records| <= |more| && (stream in own ==> !p.Authorized?)
    ensures OwnOk(more, phases[stream := p], own)
  {}

  lemma OwnsAnother(records: Records, more: Records, phases: map<Stream, Phase>, own: map<Stream, nat>,
      stream: Stream, p: Phase)
    requires OwnOk(records, phases, own) && |more| == |records| + 1 && stream !in own && !p.Authorized?
    ensures OwnOk(more, phases[stream := p], own[stream := |records|])
  {}

  lemma RegisterHandsOnce(c: Config, s: System, stream: Stream, token: seq<Byte>)
    requires HandOffInv(s)
    ensures HandOffInv(Apply(c, s, BridgeRegister(stream, token)))
  {
    if At(s, stream) && s.phases[stream].Authorized? {
      var x := T.Register(s.grants[stream].session, token);
      if T.Registers(s.relay, s.grants[stream].session) {
        var t := T.Apply(s.relay, x);
        OtherHandsOnce(s.relay, x, s.own);
        MoreOwnHandsOnce(t, s.own, stream, |s.relay.records|);
        OwnsAnother(s.relay.records, t.records, s.phases, s.own, stream, Registered(|s.relay.records|, token));
      } else {
        PhasesKeepOwn(s.relay.records, s.relay.records, s.phases, s.own, stream, Over);
      }
    }
  }

  lemma RelayHandsOnce(s: System, x: T.Step)
    requires HandOffInv(s) && !x.Register?
    requires x.ServeGet? && x.session in s.relay.pending ==>
      x.stream in s.own && s.relay.pending[x.session] == s.own[x.stream]
    ensures HandOffInv(s.(relay := T.Apply(s.relay, x)))
  {
    RelayGrows(s.relay, x);
    if x.ServeOffer? {
      OfferHandsOnce(s.relay, x.stream, s.own);
    } else if x.ServeGet? {
      LookupHandsOnce(s.relay, x.stream, x.session, s.own);
    } else {
      OtherHandsOnce(s.relay, x, s.own);
    }
  }

  /** The steps of a call that change its phase and register nothing. */
  predicate MovesPhase(step: Step) {
    step.BridgeStart? || step.BridgeRoute? || step.BridgeSend? || step.BridgeGiveUp? || step.BridgeCancel?
        || step.BridgeServe?
  }

  /** Only a step that starts a call authorizes it. */
  ghost predicate PhaseMoved(s: System, t: System, step: Step) {
    && MovesPhase(step) && step.stream in t.phases && t.phases == s.phases[step.stream := t.phases[step.stream]]
    && (t.phases[step.stream].Authorized? ==> step.stream !in s.grants)
  }

  lemma OtherSteps(c: Config, s: System, step: Step)
    requires !step.BridgeRegister?
    ensures var t := Apply(c, s, step); t.own == s.own && (t.phases == s.phases || PhaseMoved(s, t, step))
  {}

  lemma StepHandsOnce(c: Config, s: System, step: Step)
    requires HandOffInv(s) && s.phases.Keys == s.grants.Keys && FindsOwn(s, step)
    ensures HandOffInv(Apply(c, s, step))
  {
    if step.BridgeRegister? {
      RegisterHandsOnce(c, s, step.stream, step.token);
    } else {
      var t, x := Apply(c, s, step), RelayStep(s, step);
      RelayMoves(c, s, step);
      OtherSteps(c, s, step);
      if x.Some? {
        RelayHandsOnce(s, x.value);
      }
      if t.phases != s.phases {
        PhasesKeepOwn(t.relay.records, t.relay.records, s.phases, s.own, step.stream, t.phases[step.stream]);
      }
    }
  }

  lemma {:induction false} HandOffInvariant(c: Config, steps: seq<Step>)
    requires FindsOwnRun(c, INITIAL, steps)
    ensures HandOffInv(Run(c, INITIAL, steps))
  {
    if steps == [] {
    } else {
      HandOffInvariant(c, steps[..|steps| - 1]);
      BridgeInvariant(c, steps[..|steps| - 1]);
      StepHandsOnce(c, Run(c, INITIAL, steps[..|steps| - 1]), steps[|steps| - 1]);
    }
  }

  /** In every run in which each call finds the record it registered, or none, every record has at most
      one hand-off and one splice, and its `done` is closed at most once. */
  lemma {:induction false} DoneClosedOnce(c: Config, steps: seq<Step>, p: nat)
    requires FindsOwnRun(c, INITIAL, steps) && p < |Run(c, INITIAL, steps).relay.records|
    ensures var relay := Run(c, INITIAL, steps).relay;
            relay.records[p].closes <= T.Splices(relay.splices, p) <= |relay.records[p].offered| <= 1
  {
    HandOffInvariant(c, steps);
    var moves := RelayRuns(c, steps);
    T.HandOffsBoundSplices(moves, p);
  }

  // ---- One presentation per token ----

  predicate Presents(step: Step, token: seq<Byte>) {
    step.AgentAttach? && step.token == token
  }

  /** How many streams the agents opened with this token. */
  function Presented(steps: seq<Step>, token: seq<Byte>): nat {
    if steps == [] then 0
    else Presented(steps[..|steps| - 1], token) + if Presents(steps[|steps| - 1], token) then 1 else 0
  }

  function Claimants(claims: map<Stream, Claim>, token: seq<Byte>): set<Stream> {
    set a | a in claims && claims[a].token == token
  }

  lemma OneMoreClaimant(claims: map<Stream, Claim>, stream: Stream, claim: Claim, token: seq<Byte>)
    requires stream !in claims
    ensures |Claimants(claims[stream := claim], token)|
         == |Claimants(claims, token)| + if claim.token == token then 1 else 0
  {
    assert Claimants(claims[stream := claim], token)
        == Claimants(claims, token) + if claim.token == token then {stream} else {};
  }

  lemma StepClaims(c: Config, s: System, step: Step, token: seq<Byte>)
    ensures |Claimants(Apply(c, s, step).claims, token)|
         <= |Claimants(s.claims, token)| + if Presents(step, token) then 1 else 0
  {
    if step.AgentAttach? {
      ClaimsAfterAttach(c, s, step);
      if step.stream !in s.claims {
        OneMoreClaimant(s.claims, step.stream, Claim(step.session, step.agent, step.token), token);
      }
    } else {
      ClaimsOnlyByAttach(c, s, step);
    }
  }

  lemma {:induction false} ClaimantsPresented(c: Config, steps: seq<Step>, token: seq<Byte>)
    ensures |Claimants(Run(c, INITIAL, steps).claims, token)| <= Presented(steps, token)
  {
    if steps == [] {
    } else {
      ClaimantsPresented(c, steps[..|steps| - 1], token);
      StepClaims(c, Run(c, INITIAL, steps[..|steps| - 1]), steps[|steps| - 1], token);
    }
  }

  /** The agents' streams spliced on record p. */
  function AgentsOn(splices: seq<T.Splice>, p: nat): set<Stream> {
    set k | 0 <= k < |splices| && splices[k].record == p :: splices[k].agent
  }

  lemma AgentOneMore(front: seq<T.Splice>, x: T.Splice, p: nat)
    requires forall k :: 0 <= k < |front| ==> front[k].agent != x.agent
    ensures |AgentsOn(front + [x], p)| == |AgentsOn(front, p)| + if x.record == p then 1 else 0
  {
    var all := front + [x];
    assert forall k :: 0 <= k < |front| ==> all[k] == front[k];
    assert all[|front|] == x;
    assert AgentsOn(all, p) == AgentsOn(front, p) + if x.record == p then {x.agent} else {};
  }

  lemma {:induction false} SplicesAreAgents(splices: seq<T.Splice>, p: nat)
    requires forall j, k :: 0 <= j < k < |splices| ==> splices[j].agent != splices[k].agent
    ensures T.Splices(splices, p) == |AgentsOn(splices, p)|
  {
    if splices == [] {
      assert AgentsOn(splices, p) == {};
    } else {
      var last := |splices| - 1;
      var front, x := splices[..last], splices[last];
      SplicesAreAgents(front, p);
      assert splices == front + [x];
      AgentOneMore(front, x, p);
    }
  }

  lemma AgentsClaimed(c: Config, s: System, p: nat)
    requires Inv(c, s) && p < |s.relay.records|
    ensures AgentsOn(s.relay.splices, p) <= Claimants(s.claims, s.relay.records[p].token)
  {
    forall k | 0 <= k < |s.relay.splices| && s.relay.splices[k].record == p
      ensures s.relay.splices[k].agent in Claimants(s.claims, s.relay.records[p].token) {
      assert s.relay.splices[k].token == s.relay.records[p].token;
    }
  }

  /** In every run, whatever the callers drop or find: a record has at most as many splices, and its `done`
      is closed at most as often, as agents opened streams with its token. */
  lemma {:induction false} PresentationsBoundSplices(c: Config, steps: seq<Step>, p: nat)
    requires p < |Run(c, INITIAL, steps).relay.records|
    ensures var relay := Run(c, INITIAL, steps).relay;
            relay.records[p].closes <= T.Splices(relay.splices, p) <= Presented(steps, relay.records[p].token)
  {
    var s := Run(c, INITIAL, steps);
    var moves := RelayRuns(c, steps);
    T.HandOffsBoundSplices(moves, p);
    T.Pairing(moves);
    SplicesAreAgents(s.relay.splices, p);
    BridgeInvariant(c, steps);
    AgentsClaimed(c, s, p);
    S.SubsetCount(AgentsOn(s.relay.splices, p), Claimants(s.claims, s.relay.records[p].token));
    ClaimantsPresented(c, steps, s.relay.records[p].token);
  }

  lemma {:induction false} PresentedOnce(steps: seq<Step>, token: seq<Byte>)
    requires forall i, j ::
      0 <= i < j < |steps| && Presents(steps[i], token) ==> !Presents(steps[j], token)
    ensures Presented(steps, token) <= 1
    ensures (forall i :: 0 <= i < |steps| ==> !Presents(steps[i], token)) ==> Presented(steps, token) == 0
  {
    if steps == [] {
    } else {
      var last := |steps| - 1;
      assert forall i :: 0 <= i < last ==> steps[..last][i] == steps[i];
      PresentedOnce(steps[..last], token);
    }
  }

  /** So when no two streams present the token of a record, the record has at most one splice and its `done`
      is closed at most once. */
  lemma {:induction false} PresentedOnceClosesOnce(c: Config, steps: seq<Step>, p: nat)
    requires p < |Run(c, INITIAL, steps).relay.records|
    requires var token := Run(c, INITIAL, steps).relay.records[p].token;
      forall i, j :: 0 <= i < j < |steps| && Presents(steps[i], token) ==> !Presents(steps[j], token)
    ensures var relay := Run(c, INITIAL, steps).relay; relay.records[p].closes <= T.Splices(relay.splices, p) <= 1
  {
    PresentationsBoundSplices(c, steps, p);
    PresentedOnce(steps, Run(c, INITIAL, steps).relay.records[p].token);
  }

  // ---- When a call finds its own record ----

  ghost predicate Holds(s: System, session: string, p: nat) {
    session in s.relay.pending && s.relay.pending[session] == p
  }

  lemma HoldsUntilDropped(c: Config, s: System, step: Step, session: string, p: nat)
    requires p < |s.relay.records|
    ensures Holds(Apply(c, s, step), session, p) <==> Holds(s, session, p) && session in Apply(c, s, step).relay.pending
    ensures p < |Apply(c, s, step).relay.records|
  {
    RelayMoves(c, s, step);
    if RelayStep(s, step).Some? {
      RegistrationStays(s.relay, RelayStep(s, step).value, session, p);
    }
  }

  lemma RegistrationStays(s: T.State, x: T.Step, session: string, p: nat)
    requires p < |s.records|
    ensures var t := T.Apply(s, x);
            && p < |t.records|
            && (session in t.pending && t.pending[session] == p <==>
                  session in s.pending && s.pending[session] == p && session in t.pending)
  {}

  ghost predicate RegisteredAfter(c: Config, s: System, steps: seq<Step>, session: string, k: nat)
    requires k <= |steps|
  {
    session in Run(c, s, steps[..k]).relay.pending
  }

  /** No step so far has dropped the session's registration. */
  ghost predicate NeverDropped(c: Config, s: System, steps: seq<Step>, session: string) {
    forall k :: 0 <= k <= |steps| ==> RegisteredAfter(c, s, steps, session, k)
  }

  lemma SamePrefix(c: Config, s: System, steps: seq<Step>, session: string, k: nat)
    requires k < |steps|
    ensures RegisteredAfter(c, s, steps, session, k) == RegisteredAfter(c, s, steps[..|steps| - 1], session, k)
  {
    assert steps[..|steps| - 1][..k] == steps[..k];
  }

  lemma NeverDroppedStep(c: Config, s: System, steps: seq<Step>, session: string)
    requires steps != []
    ensures NeverDropped(c, s, steps, session) <==>
            NeverDropped(c, s, steps[..|steps| - 1], session) && session in Run(c, s, steps).relay.pending
  {
    var before := steps[..|steps| - 1];
    assert steps[..|steps|] == steps;
    assert RegisteredAfter(c, s, steps, session, |steps|) == (session in Run(c, s, steps).relay.pending);
    forall k | 0 <= k < |steps|
      ensures RegisteredAfter(c, s, steps, session, k) == RegisteredAfter(c, s, before, session, k)
    {
      SamePrefix(c, s, steps, session, k);
    }
    if NeverDropped(c, s, before, session) && session in Run(c, s, steps).relay.pending {
      forall k | 0 <= k <= |steps| ensures RegisteredAfter(c, s, steps, session, k) {
        if k < |steps| {
          assert RegisteredAfter(c, s, before, session, k);
        }
      }
    }
    if NeverDropped(c, s, steps, session) {
      forall k | 0 <= k <= |before| ensures RegisteredAfter(c, s, before, session, k) {
        assert RegisteredAfter(c, s, steps, session, k);
      }
      assert RegisteredAfter(c, s, steps, session, |steps|);
    }
  }

  /** A call finds its own record again exactly while no step has dropped its session's registration:
      a Cancel, a Serve or Attach given up, or the end of a splice of that session. */
  lemma {:induction false} OwnRecordExactly(c: Config, s: System, steps: seq<Step>, session: string, p: nat)
    requires p < |s.relay.records| && Holds(s, session, p)
    ensures Holds(Run(c, s, steps), session, p) <==> NeverDropped(c, s, steps, session)
    ensures p < |Run(c, s, steps).relay.records|
  {
    if steps == [] {
      assert steps[..0] == steps;
    } else {
      var before := steps[..|steps| - 1];
      OwnRecordExactly(c, s, before, session, p);
      HoldsUntilDropped(c, Run(c, s, before), steps[|steps| - 1], session, p);
      NeverDroppedStep(c, s, steps, session);
    }
  }

  /** The call has registered record p and will not register again. */
  ghost predicate Owns(s: System, stream: Stream, p: nat) {
    && stream in s.own && s.own[stream] == p
    && stream in s.grants && stream in s.phases && !s.phases[stream].Authorized?
  }

  lemma OwnsKept(c: Config, s: System, step: Step, stream: Stream, p: nat)
    requires Owns(s, stream, p)
    ensures Owns(Apply(c, s, step), stream, p) && Apply(c, s, step).grants[stream] == s.grants[stream]
  {
    if !step.BridgeRegister? {
      OtherSteps(c, s, step);
      GrantsOnlyGrow(c, s, step);
    }
  }

  lemma GrantsOnlyGrow(c: Config, s: System, step: Step)
    ensures var t := Apply(c, s, step);
            t.grants == s.grants || (step.BridgeStart? && step.stream !in s.grants && step.stream in t.grants
                                     && t.grants == s.grants[step.stream := t.grants[step.stream]])
  {}

  lemma {:induction false} OwnsForever(c: Config, s: System, steps: seq<Step>, stream: Stream, p: nat)
    requires Owns(s, stream, p)
    ensures Owns(Run(c, s, steps), stream, p) && Run(c, s, steps).grants[stream] == s.grants[stream]
  {
    if steps == [] {
    } else {
      OwnsForever(c, s, steps[..|steps| - 1], stream, p);
      OwnsKept(c, Run(c, s, steps[..|steps| - 1]), steps[|steps| - 1], stream, p);
    }
  }

  /** From a call's successful registration on, over any continuation: its lookup finds its own record
      exactly when no step in between dropped the session's registration. */
  lemma {:induction false} FindsOwnExactly(c: Config, s: System, stream: Stream, token: seq<Byte>, rest: seq<Step>)
    requires At(s, stream) && s.phases[stream].Authorized? && T.Registers(s.relay, s.grants[stream].session)
    ensures var session, r := s.grants[stream].session, Apply(c, s, BridgeRegister(stream, token));
            var t := Run(c, r, rest);
            && stream in t.own && stream in t.grants && t.grants[stream].session == session
            && (Holds(t, session, t.own[stream]) <==> NeverDropped(c, r, rest, session))
  {
    var r := Apply(c, s, BridgeRegister(stream, token));
    assert Owns(r, stream, |s.relay.records|);
    OwnsForever(c, r, rest, stream, |s.relay.records|);
    OwnRecordExactly(c, r, rest, s.grants[stream].session, |s.relay.records|);
  }

  // ---- A condition on whole runs ----

  /** Step m is a call's successful registration. */
  ghost predicate RegistersAt(c: Config, steps: seq<Step>, m: nat, stream: Stream)
    requires m < |steps|
  {
    var s := Run(c, INITIAL, steps[..m]);
    && steps[m].BridgeRegister? && steps[m].stream == stream
    && At(s, stream) && s.phases[stream].Authorized? && T.Registers(s.relay, s.grants[stream].session)
  }

  /** Step n is a call's lookup at the relay. */
  ghost predicate ServesAt(c: Config, steps: seq<Step>, n: nat, stream: Stream)
    requires n < |steps|
  {
    var s := Run(c, INITIAL, steps[..n]);
    steps[n] == BridgeServe(stream) && At(s, stream) && s.phases[stream].Requested?
  }

  /** Between any call's registration and its lookup no step drops the registration of its session. */
  ghost predicate NothingDropped(c: Config, steps: seq<Step>) {
    forall m: nat, n: nat, stream: Stream ::
      m < n < |steps| && RegistersAt(c, steps, m, stream) && ServesAt(c, steps, n, stream) ==>
      NeverDropped(c, Run(c, INITIAL, steps[..m + 1]), steps[m + 1..n],
          Run(c, INITIAL, steps[..m]).grants[stream].session)
  }

  ghost predicate PhasesOwned(phases: map<Stream, Phase>, own: map<Stream, nat>) {
    forall x :: x in phases && !phases[x].Authorized? && !phases[x].Over? ==> x in own
  }

  lemma StepKeepsOwned(c: Config, s: System, step: Step)
    requires PhasesOwned(s.phases, s.own)
    ensures PhasesOwned(Apply(c, s, step).phases, Apply(c, s, step).own)
  {}

  lemma {:induction false} OwnedInvariant(c: Config, steps: seq<Step>)
    ensures PhasesOwned(Run(c, INITIAL, steps).phases, Run(c, INITIAL, steps).own)
  {
    if steps == [] {
    } else {
      OwnedInvariant(c, steps[..|steps| - 1]);
      StepKeepsOwned(c, Run(c, INITIAL, steps[..|steps| - 1]), steps[|steps| - 1]);
    }
  }

  lemma OwnIsNew(c: Config, s: System, step: Step, stream: Stream)
    requires stream !in s.own && stream in Apply(c, s, step).own
    ensures step.BridgeRegister? && step.stream == stream
    ensures At(s, stream) && s.phases[stream].Authorized? && T.Registers(s.relay, s.grants[stream].session)
  {}

  /** A call with a record of its own registered it at some step. */
  lemma {:induction false} RegisteredOnce(c: Config, steps: seq<Step>, stream: Stream) returns (m: nat)
    requires stream in Run(c, INITIAL, steps).own
    ensures m < |steps| && RegistersAt(c, steps, m, stream)
  {
    m := |steps| - 1;
    var before := steps[..m];
    if stream in Run(c, INITIAL, before).own {
      var k := RegisteredOnce(c, before, stream);
      assert before[..k] == steps[..k] && before[k] == steps[k];
      m := k;
    } else {
      OwnIsNew(c, Run(c, INITIAL, before), steps[m], stream);
    }
  }

  lemma {:induction false} RunFrom(c: Config, prefix: seq<Step>, rest: seq<Step>)
    ensures Run(c, INITIAL, prefix + rest) == Run(c, Run(c, INITIAL, prefix), rest)
  {
    if rest == [] {
      assert prefix + rest == prefix;
    } else {
      var all := prefix + rest;
      assert all[..|all| - 1] == prefix + rest[..|rest| - 1];
      RunFrom(c, prefix, rest[..|rest| - 1]);
    }
  }

  /** The lookup of a call whose registration nothing dropped finds the call's own record. */
  lemma UndroppedFindsOwn(c: Config, steps: seq<Step>, n: nat, stream: Stream)
    requires NothingDropped(c, steps) && n < |steps| && ServesAt(c, steps, n, stream)
    ensures FindsOwn(Run(c, INITIAL, steps[..n]), steps[n])
  {
    OwnedInvariant(c, steps[..n]);
    var m := RegisteredOnce(c, steps[..n], stream);
    assert steps[..n][..m] == steps[..m] && steps[..n][m] == steps[m];
    assert RegistersAt(c, steps, m, stream);
    var s := Run(c, INITIAL, steps[..m]);
    var rest := steps[m + 1..n];
    assert steps[..m + 1][..m] == steps[..m] && steps[..m + 1] + rest == steps[..n];
    RunFrom(c, steps[..m + 1], rest);
    assert Run(c, INITIAL, steps[..m + 1]) == Apply(c, s, steps[m])
        && steps[m] == BridgeRegister(stream, steps[m].token);
    FindsOwnExactly(c, s, stream, steps[m].token, rest);
  }

  lemma {:induction false} UndroppedRun(c: Config, steps: seq<Step>, n: nat)
    requires NothingDropped(c, steps) && n <= |steps|
    ensures FindsOwnRun(c, INITIAL, steps[..n])
  {
    if n == 0 {
    } else {
      UndroppedRun(c, steps, n - 1);
      assert steps[..n][..n - 1] == steps[..n - 1];
      var s := Run(c, INITIAL, steps[..n - 1]);
      var step := steps[n - 1];
      if step.BridgeServe? && At(s, step.stream) && s.phases[step.stream].Requested? {
        assert ServesAt(c, steps, n - 1, step.stream);
        UndroppedFindsOwn(c, steps, n - 1, step.stream);
      }
    }
  }

  /** When nothing drops a record between its registration and the lookup of the call that registered it,
      every record has at most one hand-off and one splice, and its `done` is closed at most once. */
  lemma {:induction false} UndroppedClosesOnce(c: Config, steps: seq<Step>, p: nat)
    requires NothingDropped(c, steps) && p < |Run(c, INITIAL, steps).relay.records|
    ensures var relay := Run(c, INITIAL, steps).relay;
            relay.records[p].closes <= T.Splices(relay.splices, p) <= |relay.records[p].offered| <= 1
  {
    UndroppedRun(c, steps, |steps|);
    assert steps[..|steps|] == steps;
    DoneClosedOnce(c, steps, p);
  }
}
