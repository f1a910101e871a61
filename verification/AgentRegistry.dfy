/** The validator's registry of connected agents (internal/registry/registry.go). Sessions are fenced by
    generation numbers; each has a bounded FIFO queue. A closed channel panics when it is sent to or
    closed again; `crashed` records that, and nothing happens afterwards. */
module AgentRegistry {
  import opened Common
  import opened Protocol

  const GENERATIONS: nat := 0x1_0000_0000_0000_0000  // the counter is a uint64

  datatype Config = Config(version: nat, maxCapabilities: nat, maxQueueDepth: nat, timeout: int)

  datatype Hello = Hello(agentId: string, minimum: nat, maximum: nat, hasProtocol: bool, capabilities: nat)

  datatype AcquireError = IdentityMismatch | VersionMismatch | LimitsExceeded | DuplicateStream

  /** `attached` is session != nil. `owner` is the index of the session the entry was made with; it is
      kept for the proofs, as are the logs of a session. */
  datatype Entry = Entry(generation: nat, online: bool, lastSeen: int, attached: bool, owner: nat)

  datatype SessionState = SessionState(
    agent: string, generation: nat, queue: seq<Message>, closed: bool, released: bool, ended: bool,
    enqueued: seq<Message>, delivered: seq<Message>)

  datatype State = State(entries: map<string, Entry>, generation: nat, sessions: seq<SessionState>, crashed: bool)

  const INITIAL: State := State(map[], 0, [], false)

  datatype Step =
    | Acquire(certId: string, helloId: string, hello: Option<Hello>, now: int)
    | Heartbeat(session: nat, now: int)
    | Release(session: nat, now: int)
    | CloseQueue(session: nat)
    | Disconnect(agent: string, now: int)
    | Expire(now: int)
    | Enqueue(session: nat, message: Message)
    | Take(session: nat)

  function Depth(c: Config): nat {
    if c.maxQueueDepth == 0 then 1 else c.maxQueueDepth
  }

  function AcquireCheck(c: Config, s: State, certId: string, helloId: string,
      hello: Option<Hello>): Option<AcquireError> {
    if hello.None? || certId == "" || certId != helloId || helloId != hello.value.agentId then Some(IdentityMismatch)
    else if !hello.value.hasProtocol || c.version < hello.value.minimum
        || c.version > hello.value.maximum then Some(VersionMismatch)
    else if hello.value.capabilities > c.maxCapabilities then Some(LimitsExceeded)
    else if certId in s.entries && s.entries[certId].online then Some(DuplicateStream)
    else None
  }

  /** Certificate, request and hello name one agent. */
  predicate Identified(certId: string, helloId: string, hello: Option<Hello>) {
    |certId| > 0 && helloId == certId && hello.Some? && hello.value.agentId == certId
  }

  /** The validator's version is in the agent's range, and the agent has no more capabilities than allowed. */
  predicate Compatible(c: Config, hello: Hello) {
    hello.hasProtocol && hello.minimum <= c.version <= hello.maximum && hello.capabilities <= c.maxCapabilities
  }

  predicate Online(s: State, agent: string) {
    agent in s.entries && s.entries[agent].online
  }

  /** Who is granted a session. */
  predicate Welcome(c: Config, s: State, certId: string, helloId: string, hello: Option<Hello>) {
    Identified(certId, helloId, hello) && Compatible(c, hello.value) && !Online(s, certId)
  }

  function AfterAcquire(s: State, id: string, now: int): State {
    var g := (s.generation + 1) % GENERATIONS;
    s.(generation := g,
       entries := s.entries[id := Entry(g, true, now, true, |s.sessions|)],
       sessions := s.sessions + [SessionState(id, g, [], false, false, false, [], [])])
  }

  /** The entry still belongs to this generation. */
  predicate Current(s: State, i: nat)
    requires i < |s.sessions|
  {
    s.sessions[i].agent in s.entries && s.entries[s.sessions[i].agent].generation == s.sessions[i].generation
  }

  predicate Overdue(online: bool, lastSeen: int, now: int, timeout: int) {
    online && now - lastSeen > timeout
  }

  function ExpireEntry(e: Entry, now: int, timeout: int): Entry {
    if Overdue(e.online, e.lastSeen, now, timeout) then e.(online := false) else e
  }

  /** The session Dispatch picks under the lock. */
  function Route(s: State, agent: string): Option<nat> {
    if agent in s.entries && s.entries[agent].online
        && s.entries[agent].attached then Some(s.entries[agent].owner) else None
  }

  predicate RoomIn(c: Config, s: State, i: nat) {
    i < |s.sessions| && !s.sessions[i].closed && |s.sessions[i].queue| < Depth(c)
  }

  /** A send that blocks ends with its context; with room, either branch of the select may be taken. */
  ghost predicate CanEnqueue(c: Config, s: State, agent: string, gaveUp: bool) {
    Route(s, agent).Some? && !gaveUp ==> RoomIn(c, s, Route(s, agent).value)
  }

  function Apply(c: Config, s: State, step: Step): State {
    if s.crashed then s else
    match step
    case Acquire(certId, helloId, hello, now) =>
      if AcquireCheck(c, s, certId, helloId, hello).None? then AfterAcquire(s, certId, now) else s
    case Heartbeat(i, now) =>
      if i < |s.sessions| && Current(s, i) && s.entries[s.sessions[i].agent].online then
        var id := s.sessions[i].agent;
        s.(entries := s.entries[id := s.entries[id].(lastSeen := now)])
      else s
    case Release(i, now) =>
      if i >= |s.sessions| || s.sessions[i].released then s
      else
        var id := s.sessions[i].agent;
        s.(entries := if Current(s, i) then s.entries[id := s.entries[id].(online := false, lastSeen := now)]
                      else s.entries,
           sessions := s.sessions[i := s.sessions[i].(released := true)])
    case CloseQueue(i) =>
      if i >= |s.sessions| || !s.sessions[i].released || s.sessions[i].ended then s
      else if s.sessions[i].closed then s.(crashed := true)
      else s.(sessions := s.sessions[i := s.sessions[i].(closed := true, ended := true)])
    case Disconnect(id, now) =>
      if id !in s.entries || !s.entries[id].attached || s.entries[id].owner >= |s.sessions| then s
      else
        var i := s.entries[id].owner;
        if s.sessions[i].closed then s.(crashed := true)
        else
          s.(entries := s.entries[id := s.entries[id].(online := false, attached := false, lastSeen := now)],
             sessions := s.sessions[i := s.sessions[i].(closed := true)])
    case Expire(now) =>
      s.(entries := map id | id in s.entries :: ExpireEntry(s.entries[id], now, c.timeout))
    case Enqueue(i, m) =>
      if i >= |s.sessions| then s
      else if s.sessions[i].closed then s.(crashed := true)
      else if |s.sessions[i].queue| < Depth(c) then
        var x := s.sessions[i];
        s.(sessions := s.sessions[i := x.(queue := x.queue + [m], enqueued := x.enqueued + [m])])
      else s
    case Take(i) =>
      if i < |s.sessions| && s.sessions[i].queue != [] then
        var x := s.sessions[i];
        s.(sessions := s.sessions[i := x.(queue := x.queue[1..], delivered := x.delivered + [x.queue[0]])])
      else s
  }

  function Run(c: Config, s: State, steps: seq<Step>): State {
    if steps == [] then s else Apply(c, Run(c, s, steps[..|steps| - 1]), steps[|steps| - 1])
  }

  // ---- The registry itself ----

  class Session {
    const agentId: string
    const generation: nat
    var queue: seq<Message>
    var closed: bool
    var released: bool
    ghost var ended: bool

    constructor (agentId: string, generation: nat)
      ensures this.agentId == agentId && this.generation == generation && queue == [] && !closed && !released && !ended
    {
      this.agentId, this.generation, queue, closed := agentId, generation, [], false;
      released, ended := false, false;
    }
  }

  /** An entry as the registry stores it, with a reference to its session instead of history. */
  datatype Slot = Slot(generation: nat, online: bool, lastSeen: int, session: Session?)

  ghost predicate Expires(before: Slot, after: Slot, now: int, timeout: int) {
    after == if Overdue(before.online, before.lastSeen, now, timeout) then before.(online := false) else before
  }

  /** The loop of Expire over all entries, in whatever order the map gives them. */
  method ExpireSlots(slots: map<string, Slot>, now: int, timeout: int) returns (after: map<string, Slot>)
    ensures after.Keys == slots.Keys
    ensures forall id :: id in slots ==> Expires(slots[id], after[id], now, timeout)
  {
    after := slots;
    var todo := slots.Keys;
    while todo != {}
      invariant todo <= slots.Keys == after.Keys
      invariant forall id :: id in slots ==>
        if id in todo then after[id] == slots[id] else Expires(slots[id], after[id], now, timeout)
      decreases |todo|
    {
      var id :| id in todo;
      if after[id].online && now - after[id].lastSeen > timeout {
        after := after[id := after[id].(online := false)];
      }
      todo := todo - {id};
    }
  }

  class Registry {
    const config: Config
    var entries: map<string, Slot>
    var generation: nat
    ghost var sessions: seq<Session>
    ghost var model: State

    ghost predicate SessionMatches(x: Session, m: SessionState)
      reads x
    {
      x.agentId == m.agent && x.generation == m.generation && x.queue == m.queue && x.closed == m.closed
          && x.released == m.released && x.ended == m.ended
    }

    ghost predicate SlotMatches(x: Slot, m: Entry)
      reads this
    {
      && x.generation == m.generation && x.online == m.online && x.lastSeen == m.lastSeen
      && m.owner < |sessions|
      && (if m.attached then x.session == sessions[m.owner] else x.session == null)
    }

    ghost predicate Valid()
      reads this, sessions
    {
      && !model.crashed
      && generation == model.generation
      && |sessions| == |model.sessions|
      && (forall i :: 0 <= i < |sessions| ==> SessionMatches(sessions[i], model.sessions[i]))
      && (forall i, j :: 0 <= i < j < |sessions| ==> sessions[i] != sessions[j])
      && entries.Keys == model.entries.Keys
      && (forall id :: id in entries ==> SlotMatches(entries[id], model.entries[id]))
    }

    constructor (config: Config)
      ensures Valid() && this.config == config && model == INITIAL
    {
      this.config := config;
      entries, generation, sessions, model := map[], 0, [], INITIAL;
    }

    method Acquire(certId: string, helloId: string, hello: Option<Hello>, now: int)
      returns (session: Session?, error: Option<AcquireError>)
      requires Valid()
      modifies this
      ensures Valid() && model == Apply(config, old(model), Step.Acquire(certId, helloId, hello, now))
      ensures error == AcquireCheck(config, old(model), certId, helloId, hello)
      ensures error.None? <==> Welcome(config, old(model), certId, helloId, hello)
      ensures error == Some(DuplicateStream) <==>
        Identified(certId, helloId, hello) && Compatible(config, hello.value) && Online(old(model), certId)
      ensures error == Some(LimitsExceeded) <==>
        && Identified(certId, helloId, hello) && hello.value.capabilities > config.maxCapabilities
        && hello.value.hasProtocol && hello.value.minimum <= config.version <= hello.value.maximum
      ensures error == Some(IdentityMismatch) <==> !Identified(certId, helloId, hello)
      ensures error.Some? ==> session == null && sessions == old(sessions)
      ensures error.None? ==> session != null && fresh(session) && sessions == old(sessions) + [session]
    {
      if hello.None? || certId == "" || certId != helloId || helloId != hello.value.agentId {
        return null, Some(IdentityMismatch);
      }
      if !hello.value.hasProtocol || config.version < hello.value.minimum || config.version > hello.value.maximum {
        return null, Some(VersionMismatch);
      }
      if hello.value.capabilities > config.maxCapabilities {
        return null, Some(LimitsExceeded);
      }
      if certId in entries && entries[certId].online {
        return null, Some(DuplicateStream);
      }
      generation := (generation + 1) % GENERATIONS;
      var s := new Session(certId, generation);
      entries := entries[certId := Slot(generation, true, now, s)];
      sessions := sessions + [s];
      model := Apply(config, model, Step.Acquire(certId, helloId, hello, now));
      return s, None;
    }

    method Heartbeat(ghost i: nat, session: Session, now: int)
      requires Valid() && i < |sessions| && sessions[i] == session
      modifies this
      ensures Valid() && model == Apply(config, old(model), Step.Heartbeat(i, now)) && sessions == old(sessions)
      ensures entries.Keys == old(entries).Keys && forall id :: id in entries ==>
        entries[id] == if id == session.agentId && old(entries)[id].generation == session.generation
                         && old(entries)[id].online
                       then old(entries)[id].(lastSeen := now) else old(entries)[id]
    {
      var id := session.agentId;
      if id in entries && entries[id].generation == session.generation && entries[id].online {
        entries := entries[id := entries[id].(lastSeen := now)];
      }
      model := Apply(config, model, Step.Heartbeat(i, now));
    }

    /** Both halves of Release run without interruption, once. False when closing the queue panics; the
        registry is then not used any more. */
    method Release(ghost i: nat, session: Session, now: int) returns (alive: bool)
      requires Valid() && i < |sessions| && sessions[i] == session
      requires session.released == session.ended
      modifies this, session
      ensures model == Apply(config, Apply(config, old(model), Step.Release(i, now)), CloseQueue(i))
      ensures sessions == old(sessions)
      ensures alive == !model.crashed && (alive ==> Valid())
    {
      model := Apply(config, Apply(config, model, Step.Release(i, now)), CloseQueue(i));
      if session.released {
        return true;
      }
      session.released := true;
      var id := session.agentId;
      if id in entries && entries[id].generation == session.generation {
        entries := entries[id := entries[id].(online := false, lastSeen := now)];
      }
      if session.closed {
        return false;
      }
      session.closed, session.ended := true, true;
      return true;
    }

    method Disconnect(id: string, now: int) returns (alive: bool)
      requires Valid()
      modifies this, sessions
      ensures model == Apply(config, old(model), Step.Disconnect(id, now)) && sessions == old(sessions)
      ensures alive == !model.crashed && (alive ==> Valid())
    {
      ghost var before := model;
      model := Apply(config, model, Step.Disconnect(id, now));
      if id in entries && entries[id].session != null {
        var session := entries[id].session;
        entries := entries[id := entries[id].(online := false, session := null, lastSeen := now)];
        if session.closed {
          return false;
        }
        session.closed := true;
      }
      return true;
    }

    method Expire(now: int)
      requires Valid()
      modifies this
      ensures Valid() && model == Apply(config, old(model), Step.Expire(now)) && sessions == old(sessions)
    {
      ghost var before, m := entries, Apply(config, model, Step.Expire(now));
      entries := ExpireSlots(entries, now, config.timeout);
      forall id | id in entries ensures SlotMatches(entries[id], m.entries[id]) {
        assert SlotMatches(before[id], model.entries[id]);
      }
      model := m;
    }

    /** What the validator tells about an agent. */
    method Snapshot(id: string) returns (online: bool, lastSeen: Option<int>)
      requires Valid()
      ensures online <==> Online(model, id)
      ensures lastSeen == if id in model.entries then Some(model.entries[id].lastSeen) else None
    {
      if id !in entries {
        return false, None;
      }
      return entries[id].online, Some(entries[id].lastSeen);
    }

    /** First half of Dispatch, under the lock. */
    method Lookup(agent: string) returns (session: Session?)
      requires Valid()
      ensures session != null <==> Route(model, agent).Some?
      ensures session != null ==>
        Route(model, agent).value < |sessions| && session == sessions[Route(model, agent).value]
    {
      if agent !in entries || !entries[agent].online || entries[agent].session == null {
        return null;
      }
      return entries[agent].session;
    }

    /** Second half of Dispatch, outside the lock: the send that is not cancelled. */
    method Send(ghost i: nat, session: Session, m: Message) returns (alive: bool)
      requires Valid() && i < |sessions| && sessions[i] == session
      requires |session.queue| < Depth(config)
      modifies this`model, session
      ensures model == Apply(config, old(model), Enqueue(i, m)) && sessions == old(sessions)
      ensures alive == !model.crashed && (alive ==> Valid())
      ensures alive <==> !old(session.closed)
      ensures session.queue == if alive then old(session.queue) + [m] else old(session.queue)
    {
      model := Apply(config, model, Enqueue(i, m));
      if session.closed {
        return false;
      }
      session.queue := session.queue + [m];
      return true;
    }

    /** Valid, in a state some run reaches. */
    ghost predicate Running()
      reads this, sessions
    {
      Valid() && Inv(config, model)
    }

    /** Dispatch run without interruption: false when the agent is offline or the context ends first. */
    method Dispatch(agent: string, m: Message, gaveUp: bool) returns (sent: bool)
      requires Running() && CanEnqueue(config, model, agent, gaveUp)
      modifies this`model, sessions
      ensures Running() && sessions == old(sessions)
      ensures sent <==> Route(old(model), agent).Some? && !gaveUp
      ensures model == if sent then Apply(config, old(model), Enqueue(Route(old(model), agent).value, m))
          else old(model)
    {
      var session := Lookup(agent);
      if session == null || gaveUp {
        return false;
      }
      ghost var i := Route(model, agent).value;
      StepKeepsInv(config, model, Enqueue(i, m));
      RouteIsOpen(config, model, agent);
      var alive := Send(i, session, m);
      return true;
    }

    /** The connection's sender receives the next message. */
    method Receive(ghost i: nat, session: Session) returns (m: Message)
      requires Valid() && i < |sessions| && sessions[i] == session && session.queue != []
      modifies this`model, session
      ensures Valid() && model == Apply(config, old(model), Take(i)) && sessions == old(sessions)
      ensures old(session.queue) == [m] + session.queue
    {
      m := session.queue[0];
      session.queue := session.queue[1..];
      model := Apply(config, model, Take(i));
    }
  }

  // ---- Invariant of every reachable state ----

  ghost predicate SessionOk(c: Config, s: State, i: nat)
    requires i < |s.sessions|
  {
    var x := s.sessions[i];
    && x.generation == (i + 1) % GENERATIONS
    && x.enqueued == x.delivered + x.queue
    && |x.queue| <= Depth(c)
    && x.agent in s.entries && s.entries[x.agent].owner >= i
  }

  ghost predicate EntryOk(s: State, id: string)
    requires id in s.entries
  {
    var e := s.entries[id];
    && e.owner < |s.sessions| && s.sessions[e.owner].agent == id
    && e.generation == s.sessions[e.owner].generation
    && (e.online ==> e.attached && !s.sessions[e.owner].closed && !s.sessions[e.owner].released)
  }

  ghost predicate Inv(c: Config, s: State) {
    && s.generation == |s.sessions| % GENERATIONS
    && (forall i :: 0 <= i < |s.sessions| ==> SessionOk(c, s, i))
    && (forall id :: id in s.entries ==> EntryOk(s, id))
  }

  lemma NextGeneration(n: nat)
    ensures (n % GENERATIONS + 1) % GENERATIONS == (n + 1) % GENERATIONS
  {}

  lemma AcquireKeepsInv(c: Config, s: State, id: string, now: int)
    requires Inv(c, s)
    ensures Inv(c, AfterAcquire(s, id, now))
  {
    var t := AfterAcquire(s, id, now);
    NextGeneration(|s.sessions|);
    forall i | 0 <= i < |t.sessions| ensures SessionOk(c, t, i) {
      if i < |s.sessions| {
        assert SessionOk(c, s, i);
      }
    }
    forall x | x in t.entries ensures EntryOk(t, x) {
      if x != id {
        assert EntryOk(s, x);
      }
    }
  }

  predicate SameSession(c: Config, x: SessionState, y: SessionState) {
    && y.agent == x.agent && y.generation == x.generation
    && y.enqueued == y.delivered + y.queue && |y.queue| <= Depth(c)
  }

  /** The entry keeps its owner, comes online no more, and is offline once its session is on its way out. */
  ghost predicate EntryFollows(s: State, t: State, id: string)
    requires id in s.entries && id in t.entries
  {
    && t.entries[id].owner == s.entries[id].owner && t.entries[id].generation == s.entries[id].generation
    && (t.entries[id].online ==> s.entries[id].online && t.entries[id].attached)
    && (t.entries[id].online && s.entries[id].owner < |t.sessions| ==>
         !t.sessions[s.entries[id].owner].closed && !t.sessions[s.entries[id].owner].released)
  }

  /** Steps that change entries and one session, without touching owners, agents or generations. */
  lemma UpdatesKeepInv(c: Config, s: State, t: State)
    requires Inv(c, s) && t.generation == s.generation
    requires |t.sessions| == |s.sessions| && t.entries.Keys == s.entries.Keys
    requires forall i :: 0 <= i < |s.sessions| ==> SameSession(c, s.sessions[i], t.sessions[i])
    requires forall id :: id in s.entries ==> EntryFollows(s, t, id)
    ensures Inv(c, t)
  {
    forall i | 0 <= i < |t.sessions| ensures SessionOk(c, t, i) {
      assert SessionOk(c, s, i);
      assert EntryFollows(s, t, s.sessions[i].agent);
    }
    forall id | id in t.entries ensures EntryOk(t, id) {
      assert EntryOk(s, id) && EntryFollows(s, t, id);
    }
  }

  lemma EntriesFollow(c: Config, s: State, step: Step, id: string)
    requires Inv(c, s) && !step.Acquire? && id in s.entries
    ensures id in Apply(c, s, step).entries && EntryFollows(s, Apply(c, s, step), id)
  {
    assert EntryOk(s, id);
    match step
    case Release(i, _) => if i < |s.sessions| { assert SessionOk(c, s, i) && EntryOk(s, s.sessions[i].agent); }
    case Heartbeat(i, _) => if i < |s.sessions| { assert SessionOk(c, s, i); }
    case Disconnect(x, _) => if x in s.entries { assert EntryOk(s, x); }
    case _ =>
  }

  lemma SessionsStay(c: Config, s: State, step: Step)
    requires !step.Acquire? && !step.Enqueue? && !step.Take?
    ensures var t := Apply(c, s, step);
            && t.generation == s.generation && |t.sessions| == |s.sessions| && t.entries.Keys == s.entries.Keys
            && forall i :: 0 <= i < |s.sessions| ==>
                 t.sessions[i] == s.sessions[i].(closed := t.sessions[i].closed, released := t.sessions[i].released,
                                                 ended := t.sessions[i].ended)
  {}

  lemma QueueStays(c: Config, s: State, step: Step, i: nat)
    requires Inv(c, s) && (step.Enqueue? || step.Take?) && i < |s.sessions|
    ensures i < |Apply(c, s, step).sessions| && SameSession(c, s.sessions[i], Apply(c, s, step).sessions[i])
  {
    assert SessionOk(c, s, i);
    var x := s.sessions[i];
    if step.Enqueue? {
      assert x.delivered + (x.queue + [step.message]) == (x.delivered + x.queue) + [step.message];
    } else if x.queue != [] {
      assert (x.delivered + [x.queue[0]]) + x.queue[1..] == x.delivered + x.queue;
    }
  }

  lemma OtherKeepsInv(c: Config, s: State, step: Step)
    requires Inv(c, s) && !step.Acquire?
    ensures Inv(c, Apply(c, s, step))
  {
    var t := Apply(c, s, step);
    if !step.Enqueue? && !step.Take? {
      SessionsStay(c, s, step);
    }
    forall i | 0 <= i < |s.sessions| ensures SameSession(c, s.sessions[i], t.sessions[i]) {
      if step.Enqueue? || step.Take? {
        QueueStays(c, s, step, i);
      } else {
        assert SessionOk(c, s, i);
      }
    }
    forall id | id in s.entries ensures EntryFollows(s, t, id) {
      EntriesFollow(c, s, step, id);
    }
    UpdatesKeepInv(c, s, t);
  }

  lemma StepKeepsInv(c: Config, s: State, step: Step)
    requires Inv(c, s)
    ensures Inv(c, Apply(c, s, step))
  {
    if step.Acquire? {
      AcquireKeepsInv(c, s, step.certId, step.now);
    } else {
      OtherKeepsInv(c, s, step);
    }
  }

  lemma {:induction false} RegistryInvariant(c: Config, steps: seq<Step>)
    ensures Inv(c, Run(c, INITIAL, steps))
  {
    if steps == [] {
    } else {
      RegistryInvariant(c, steps[..|steps| - 1]);
      StepKeepsInv(c, Run(c, INITIAL, steps[..|steps| - 1]), steps[|steps| - 1]);
    }
  }

  lemma EnqueueIs(c: Config, s: State, i: nat, m: Message)
    requires RoomIn(c, s, i) && !s.crashed
    ensures Apply(c, s, Enqueue(i, m)) ==
            s.(sessions :=
                s.sessions[i :=
                    s.sessions[i].(queue := s.sessions[i].queue + [m], enqueued := s.sessions[i].enqueued + [m])])
  {}

  /** An online agent's queue is open. */
  lemma RouteIsOpen(c: Config, s: State, agent: string)
    requires Inv(c, s) && Route(s, agent).Some?
    ensures Route(s, agent).value < |s.sessions| && !s.sessions[Route(s, agent).value].closed
    ensures s.sessions[Route(s, agent).value].agent == agent
  {
    assert EntryOk(s, agent);
  }

  // ---- Queues ----

  /** In every run each queue is FIFO and bounded: what was enqueued is what was delivered, in order,
      followed by what still waits, and no more than max(1, MaxQueueDepth) wait. */
  lemma {:induction false} QueueIsFifo(c: Config, steps: seq<Step>, i: nat)
    requires i < |Run(c, INITIAL, steps).sessions|
    ensures var x := Run(c, INITIAL, steps).sessions[i];
            x.enqueued == x.delivered + x.queue && |x.queue| <= (if c.maxQueueDepth > 1 then c.maxQueueDepth else 1)
  {
    RegistryInvariant(c, steps);
    assert SessionOk(c, Run(c, INITIAL, steps), i);
  }

  /** A Take delivers the message enqueued next after those delivered before, if there is one. */
  lemma {:induction false} TakeIsNext(c: Config, s: State, i: nat)
    requires Inv(c, s) && !s.crashed && i < |s.sessions|
    ensures var x, y := s.sessions[i], Apply(c, s, Take(i)).sessions[i];
            && y.enqueued == x.enqueued && y.closed == x.closed
            && y.delivered == if |x.delivered| < |x.enqueued| then x.enqueued[..|x.delivered| + 1] else x.delivered
  {
    var x := s.sessions[i];
    assert SessionOk(c, s, i);
    assert x.delivered == x.enqueued[..|x.delivered|];
    if x.queue != [] {
      assert x.enqueued[|x.delivered|] == x.queue[0];
    }
  }

  /** From any state of any run, n Takes in a row deliver exactly the next n messages, or all there are. */
  lemma {:induction false} TakesDeliverInOrder(c: Config, s: State, i: nat, n: nat)
    requires Inv(c, s) && !s.crashed && i < |s.sessions|
    ensures var t := Run(c, s, seq(n, _ => Take(i)));
            var x := s.sessions[i];
            && !t.crashed && i < |t.sessions| && t.sessions[i].enqueued == x.enqueued
            && t.sessions[i].delivered
                 == if |x.delivered| + n < |x.enqueued| then x.enqueued[..|x.delivered| + n] else x.enqueued
  {
    var takes := seq(n, _ => Take(i));
    assert SessionOk(c, s, i);
    if n == 0 {
      assert s.sessions[i].delivered == s.sessions[i].enqueued[..|s.sessions[i].delivered|];
    } else {
      TakesDeliverInOrder(c, s, i, n - 1);
      assert takes[..n - 1] == seq(n - 1, _ => Take(i)) && takes[n - 1] == Take(i);
      InvFrom(c, s, takes[..n - 1]);
      TakeIsNext(c, Run(c, s, takes[..n - 1]), i);
    }
  }

  // ---- Granting a session ----

  /** A session is granted exactly to an identified, compatible agent that is not online. It is then the one
      messages are routed to, new, open and empty, and heard from now; nothing else changes. */
  lemma {:induction false} AcquireExactly(c: Config, s: State, certId: string, helloId: string, hello: Option<Hello>,
      now: int)
    requires !s.crashed
    ensures var t := Apply(c, s, Acquire(certId, helloId, hello, now));
            if Welcome(c, s, certId, helloId, hello) then
              && Route(t, certId) == Some(|s.sessions|) && |t.sessions| == |s.sessions| + 1
              && t.sessions[..|s.sessions|] == s.sessions
              && (forall id :: id in s.entries && id != certId ==> id in t.entries && t.entries[id] == s.entries[id])
              && t.entries.Keys == s.entries.Keys + {certId} && t.entries[certId].lastSeen == now
              && var x := t.sessions[|s.sessions|];
              && x.agent == certId && x.generation == t.entries[certId].generation == t.generation
              && !x.closed && !x.released && x.queue == [] && x.enqueued == [] && x.delivered == []
            else t == s
  {}

  // ---- When an agent was last seen ----

  /** The step is a sign of life of this agent, or the end of its current session. */
  ghost predicate Touches(c: Config, s: State, step: Step, id: string) {
    !s.crashed && match step
    case Acquire(certId, helloId, hello, _) => certId == id && Welcome(c, s, certId, helloId, hello)
    case Heartbeat(i, _) => SpeaksFor(s, i, id) && Online(s, id)
    case Release(i, _) => SpeaksFor(s, i, id) && !s.sessions[i].released
    case Disconnect(agent, _) =>
      && agent == id && id in s.entries && s.entries[id].attached
      && s.entries[id].owner < |s.sessions| && !s.sessions[s.entries[id].owner].closed
    case _ => false
  }

  /** Session i is of this agent and of its current generation. */
  ghost predicate SpeaksFor(s: State, i: nat, id: string) {
    && i < |s.sessions| && s.sessions[i].agent == id && id in s.entries
    && s.sessions[i].generation == s.entries[id].generation
  }

  /** The time of the last such step, if there was one. */
  ghost function LastTouch(c: Config, steps: seq<Step>, id: string): Option<int> {
    if steps == [] then None
    else
      var last := |steps| - 1;
      if Touches(c, Run(c, INITIAL, steps[..last]), steps[last], id) then Some(steps[last].now)
      else LastTouch(c, steps[..last], id)
  }

  lemma TouchKept(c: Config, s: State, step: Step, id: string)
    ensures var t := Apply(c, s, step);
            && (Touches(c, s, step, id) ==> id in t.entries && t.entries[id].lastSeen == step.now)
            && (!Touches(c, s, step, id) ==>
                 && (id in t.entries <==> id in s.entries)
                 && (id in s.entries ==> t.entries[id].lastSeen == s.entries[id].lastSeen))
  {}

  /** In every run the registry remembers for each agent exactly the last time it was connected, heard from,
      released or disconnected; Expire and the steps of superseded sessions leave that alone. */
  lemma {:induction false} SeenExactly(c: Config, steps: seq<Step>, id: string)
    ensures var s := Run(c, INITIAL, steps);
            LastTouch(c, steps, id) == if id in s.entries then Some(s.entries[id].lastSeen) else None
  {
    if steps == [] {
    } else {
      SeenExactly(c, steps[..|steps| - 1], id);
      TouchKept(c, Run(c, INITIAL, steps[..|steps| - 1]), steps[|steps| - 1], id);
    }
  }

  /** So an Expire takes an agent offline exactly when that was longer ago than the timeout. */
  lemma {:induction false} ExpiresExactlyTheSilent(c: Config, steps: seq<Step>, id: string, now: int)
    requires !Run(c, INITIAL, steps).crashed && Online(Run(c, INITIAL, steps), id)
    ensures LastTouch(c, steps, id).Some?
    ensures Online(Apply(c, Run(c, INITIAL, steps), Expire(now)), id)
       <==> now - LastTouch(c, steps, id).value <= c.timeout
  {
    SeenExactly(c, steps, id);
  }

  // ---- Fencing ----

  /** Session i is its agent's current session and marked online. */
  ghost predicate IsOnline(s: State, i: nat) {
    && i < |s.sessions| && s.sessions[i].agent in s.entries
    && s.entries[s.sessions[i].agent].owner == i && s.entries[s.sessions[i].agent].online
  }

  /** Session i has a successor for its agent. */
  ghost predicate Superseded(s: State, i: nat) {
    i < |s.sessions| && s.sessions[i].agent in s.entries && s.entries[s.sessions[i].agent].owner != i
  }

  lemma SessionGeneration(c: Config, steps: seq<Step>, i: nat)
    requires i < |Run(c, INITIAL, steps).sessions|
    ensures Run(c, INITIAL, steps).sessions[i].generation == (i + 1) % GENERATIONS
  {
    RegistryInvariant(c, steps);
    assert SessionOk(c, Run(c, INITIAL, steps), i);
  }

  lemma SameRemainder(a: nat, b: nat)
    requires a <= b
    ensures a % GENERATIONS == b % GENERATIONS <==> (b - a) % GENERATIONS == 0
  {}

  /** Generations repeat exactly every 2^64 sessions. */
  lemma {:induction false} GenerationsRepeatExactly(c: Config, steps: seq<Step>, i: nat, j: nat)
    requires i <= j < |Run(c, INITIAL, steps).sessions|
    ensures var s := Run(c, INITIAL, steps);
            s.sessions[i].generation == s.sessions[j].generation <==> (j - i) % GENERATIONS == 0
  {
    SessionGeneration(c, steps, i);
    SessionGeneration(c, steps, j);
    SameRemainder(i + 1, j + 1);
    assert (j + 1) - (i + 1) == j - i;
  }

  /** Within 2^64 sessions, a heartbeat or release through a superseded session changes no entry. */
  lemma {:induction false} SupersededIsFenced(c: Config, steps: seq<Step>, i: nat, now: int)
    requires Superseded(Run(c, INITIAL, steps), i)
    requires |Run(c, INITIAL, steps).sessions| <= GENERATIONS
    ensures var s := Run(c, INITIAL, steps);
            && Apply(c, s, Heartbeat(i, now)) == s
            && Apply(c, s, Release(i, now)).entries == s.entries
  {
    var s := Run(c, INITIAL, steps);
    RegistryInvariant(c, steps);
    assert SessionOk(c, s, i) && EntryOk(s, s.sessions[i].agent);
    var j := s.entries[s.sessions[i].agent].owner;
    assert i < j < GENERATIONS;
    DistinctGenerations(c, steps, i, j);
    assert !Current(s, i);
  }

  lemma DistinctGenerations(c: Config, steps: seq<Step>, i: nat, j: nat)
    requires i < j < |Run(c, INITIAL, steps).sessions| && j < GENERATIONS
    ensures Run(c, INITIAL, steps).sessions[i].generation != Run(c, INITIAL, steps).sessions[j].generation
  {
    GenerationsRepeatExactly(c, steps, i, j);
  }

  /** No step brings a session back online; only a new Acquire makes a session online. */
  lemma OfflineStays(c: Config, s: State, step: Step, i: nat)
    requires Inv(c, s) && i < |s.sessions| && !IsOnline(s, i)
    ensures !IsOnline(Apply(c, s, step), i) && i < |Apply(c, s, step).sessions|
  {
    assert SessionOk(c, s, i);
  }

  lemma {:induction false} InvFrom(c: Config, s: State, steps: seq<Step>)
    requires Inv(c, s)
    ensures Inv(c, Run(c, s, steps))
  {
    if steps == [] {
    } else {
      InvFrom(c, s, steps[..|steps| - 1]);
      StepKeepsInv(c, Run(c, s, steps[..|steps| - 1]), steps[|steps| - 1]);
    }
  }

  lemma {:induction false} OfflineForever(c: Config, s: State, steps: seq<Step>, i: nat)
    requires Inv(c, s) && i < |s.sessions| && !IsOnline(s, i)
    ensures !IsOnline(Run(c, s, steps), i) && i < |Run(c, s, steps).sessions|
  {
    if steps == [] {
    } else {
      OfflineForever(c, s, steps[..|steps| - 1], i);
      InvFrom(c, s, steps[..|steps| - 1]);
      OfflineStays(c, Run(c, s, steps[..|steps| - 1]), steps[|steps| - 1], i);
    }
  }

  /** What can take an online session offline. */
  lemma {:induction false} OfflineCause(c: Config, s: State, step: Step, i: nat)
    requires Inv(c, s) && IsOnline(s, i) && !IsOnline(Apply(c, s, step), i)
    ensures var id := s.sessions[i].agent;
            || (step.Disconnect? && step.agent == id)
            || (step.Release? && step.session < |s.sessions| && s.sessions[step.session].agent == id
                && (step.session - i) % GENERATIONS == 0 && (|s.sessions| <= GENERATIONS ==> step.session == i))
            || (step.Expire? && step.now - s.entries[id].lastSeen > c.timeout)
  {
    assert SessionOk(c, s, i) && EntryOk(s, s.sessions[i].agent);
    if step.Release? {
      assert step.session < |s.sessions| && SessionOk(c, s, step.session);
      assert s.sessions[step.session].agent == s.sessions[i].agent
          && s.sessions[step.session].generation == s.sessions[i].generation;
      OwnGeneration(i, step.session);
    }
  }

  lemma OwnGeneration(i: nat, j: nat)
    ensures (i + 1) % GENERATIONS == (j + 1) % GENERATIONS <==> (j - i) % GENERATIONS == 0
    ensures i < GENERATIONS && j < GENERATIONS && (j - i) % GENERATIONS == 0 ==> i == j
  {}

  /** Two successful Acquires of one agent are separated by an offline event of the earlier session:
      if the agent can be acquired again, there is a step in between that took it offline. */
  lemma {:induction false} AcquiresAreSeparated(c: Config, s: State, steps: seq<Step>, i: nat,
      helloId: string, hello: Option<Hello>) returns (n: nat)
    requires IsOnline(s, i)
    requires AcquireCheck(c, Run(c, s, steps), s.sessions[i].agent, helloId, hello).None?
    ensures n < |steps| && IsOnline(Run(c, s, steps[..n]), i) && !IsOnline(Run(c, s, steps[..n + 1]), i)
  {
    AgentsKept(c, s, steps, i);
    n := FirstOffline(c, s, steps, i);
  }

  lemma {:induction false} AgentsKept(c: Config, s: State, steps: seq<Step>, i: nat)
    requires i < |s.sessions|
    ensures i < |Run(c, s, steps).sessions| && Run(c, s, steps).sessions[i].agent == s.sessions[i].agent
  {
    if steps == [] {
    } else {
      AgentsKept(c, s, steps[..|steps| - 1], i);
      AgentKept(c, Run(c, s, steps[..|steps| - 1]), steps[|steps| - 1], i);
    }
  }

  lemma AgentKept(c: Config, s: State, step: Step, i: nat)
    requires i < |s.sessions|
    ensures i < |Apply(c, s, step).sessions| && Apply(c, s, step).sessions[i].agent == s.sessions[i].agent
  {}

  lemma {:induction false} FirstOffline(c: Config, s: State, steps: seq<Step>, i: nat) returns (n: nat)
    requires IsOnline(s, i) && !IsOnline(Run(c, s, steps), i)
    ensures n < |steps| && IsOnline(Run(c, s, steps[..n]), i) && !IsOnline(Run(c, s, steps[..n + 1]), i)
  {
    n := |steps| - 1;
    assert steps[..n + 1] == steps;
    if !IsOnline(Run(c, s, steps[..n]), i) {
      var shorter := steps[..n];
      n := FirstOffline(c, s, shorter, i);
      assert shorter[..n] == steps[..n] && shorter[..n + 1] == steps[..n + 1];
    }
  }

  /** At most one session of an agent is online; a routed message goes to it, and to a session of that agent. */
  lemma {:induction false} RoutesToTheOnlineSession(c: Config, steps: seq<Step>, agent: string)
    ensures var s := Run(c, INITIAL, steps);
            && (Route(s, agent).Some? <==> exists i: nat :: IsOnline(s, i) && s.sessions[i].agent == agent)
            && (forall i: nat, j: nat ::
                 IsOnline(s, i) && IsOnline(s, j) && s.sessions[i].agent == s.sessions[j].agent ==> i == j)
            && (Route(s, agent).Some? ==>
                 && IsOnline(s, Route(s, agent).value) && s.sessions[Route(s, agent).value].agent == agent
                 && !s.sessions[Route(s, agent).value].closed)
  {
    var s := Run(c, INITIAL, steps);
    RegistryInvariant(c, steps);
    if agent in s.entries {
      assert EntryOk(s, agent);
      if s.entries[agent].online {
        assert IsOnline(s, s.entries[agent].owner);
      }
    }
  }

  /** After Expire every online entry was seen within the timeout. */
  lemma {:induction false} ExpireLeavesTheRecentlySeen(c: Config, s: State, now: int, id: string)
    requires !s.crashed && id in s.entries
    ensures var t := Apply(c, s, Expire(now));
            id in t.entries
                && (t.entries[id].online <==> s.entries[id].online && now - s.entries[id].lastSeen <= c.timeout)
  {}

  // ---- Closing twice ----

  /** A Release that has closed its queue began; an attached session is closed only that way. */
  ghost predicate ClosedMeansEnded(s: State) {
    && (forall i :: 0 <= i < |s.sessions| && s.sessions[i].ended ==> s.sessions[i].closed && s.sessions[i].released)
    && (forall id :: id in s.entries && s.entries[id].attached && s.entries[id].owner < |s.sessions| ==>
         (s.sessions[s.entries[id].owner].closed <==> s.sessions[s.entries[id].owner].ended))
  }

  lemma StepKeepsClosed(c: Config, s: State, step: Step)
    requires Inv(c, s) && ClosedMeansEnded(s)
    ensures ClosedMeansEnded(Apply(c, s, step))
  {
    forall id | id in s.entries ensures EntryOk(s, id) {}
    if step.Release? || step.CloseQueue? || step.Disconnect? {
      ClosingKeepsClosed(c, s, step);
    } else {
      OpenStepKeepsClosed(c, s, step);
    }
  }

  lemma ClosingKeepsClosed(c: Config, s: State, step: Step)
    requires ClosedMeansEnded(s) && (forall id :: id in s.entries ==> EntryOk(s, id))
    requires step.Release? || step.CloseQueue? || step.Disconnect?
    ensures ClosedMeansEnded(Apply(c, s, step))
  {}

  lemma OpenStepKeepsClosed(c: Config, s: State, step: Step)
    requires ClosedMeansEnded(s) && (forall id :: id in s.entries ==> EntryOk(s, id))
    requires !step.Release? && !step.CloseQueue? && !step.Disconnect?
    ensures ClosedMeansEnded(Apply(c, s, step))
  {}

  lemma {:induction false} ClosedInvariant(c: Config, steps: seq<Step>)
    ensures ClosedMeansEnded(Run(c, INITIAL, steps))
  {
    if steps == [] {
    } else {
      ClosedInvariant(c, steps[..|steps| - 1]);
      RegistryInvariant(c, steps[..|steps| - 1]);
      StepKeepsClosed(c, Run(c, INITIAL, steps[..|steps| - 1]), steps[|steps| - 1]);
    }
  }

  /** The Release of the agent's current session has closed its queue. */
  ghost predicate ReleasedButAttached(s: State, id: string) {
    && id in s.entries && s.entries[id].attached
    && s.entries[id].owner < |s.sessions| && s.sessions[s.entries[id].owner].ended
  }

  /** Disconnect panics exactly when the agent's current session was released before it. */
  lemma {:induction false} DisconnectPanicsExactly(c: Config, steps: seq<Step>, id: string, now: int)
    requires !Run(c, INITIAL, steps).crashed
    ensures var s := Run(c, INITIAL, steps);
            Apply(c, s, Disconnect(id, now)).crashed <==> ReleasedButAttached(s, id)
  {
    ClosedInvariant(c, steps);
  }

  /** It does happen: an agent that connected and left is then disconnected. */
  lemma {:induction false} DisconnectAfterReleasePanics(c: Config, hello: Hello)
    requires c.version == 1 && hello == Hello("a", 1, 1, true, 0)
    ensures Run(c, INITIAL,
      [Acquire("a", "a", Some(hello), 0), Release(0, 1), CloseQueue(0), Disconnect("a", 2)]).crashed
  {
    var steps := [Acquire("a", "a", Some(hello), 0), Release(0, 1), CloseQueue(0), Disconnect("a", 2)];
    assert steps[..3] == [steps[0], steps[1], steps[2]] && steps[..3][..2] == [steps[0], steps[1]];
    assert steps[..3][..2][..1] == [steps[0]] && [steps[0]][..0] == [];
    assert Run(c, INITIAL, [steps[0]]) == Apply(c, Run(c, INITIAL, []), steps[0]);
    assert Run(c, INITIAL, steps[..3][..2]) == Apply(c, Run(c, INITIAL, [steps[0]]), steps[1]);
    assert Run(c, INITIAL, steps[..3]) == Apply(c, Run(c, INITIAL, steps[..3][..2]), steps[2]);
    assert steps[..|steps| - 1] == steps[..3];
  }

  ghost predicate Doomed(s: State, i: nat) {
    i < |s.sessions| && s.sessions[i].closed && !s.sessions[i].ended
  }

  /** The step is a Disconnect that hits session i while it is attached and open. */
  ghost predicate Hits(s: State, step: Step, i: nat) {
    && step.Disconnect? && !s.crashed && i < |s.sessions| && !s.sessions[i].closed
    && step.agent in s.entries && s.entries[step.agent].attached && s.entries[step.agent].owner == i
  }

  /** The step is the second half of the Release of session i, while it is open. */
  ghost predicate Releases(s: State, step: Step, i: nat) {
    step == CloseQueue(i) && !s.crashed && i < |s.sessions| && s.sessions[i].released && !s.sessions[i].ended
        && !s.sessions[i].closed
  }

  ghost predicate HitAt(c: Config, steps: seq<Step>, i: nat, n: nat)
    requires n < |steps|
  {
    Hits(Run(c, INITIAL, steps[..n]), steps[n], i)
  }

  ghost predicate ReleasedAt(c: Config, steps: seq<Step>, i: nat, n: nat)
    requires n < |steps|
  {
    Releases(Run(c, INITIAL, steps[..n]), steps[n], i)
  }

  /** A session that is not there, or whose queue is open. */
  ghost predicate NotClosed(s: State, i: nat) {
    i >= |s.sessions| || !s.sessions[i].closed
  }

  lemma DoomedByStep(c: Config, s: State, step: Step, i: nat)
    requires !Apply(c, s, step).crashed && ClosedMeansEnded(s)
    ensures Doomed(Apply(c, s, step), i) <==> Doomed(s, i) || Hits(s, step, i)
  {}

  lemma ClosedByStep(c: Config, s: State, step: Step, i: nat)
    requires !Apply(c, s, step).crashed
    ensures NotClosed(Apply(c, s, step), i) <==> NotClosed(s, i) && !Hits(s, step, i) && !Releases(s, step, i)
  {}

  lemma Earlier(c: Config, steps: seq<Step>, i: nat, n: nat)
    requires n < |steps| - 1
    ensures HitAt(c, steps, i, n) == HitAt(c, steps[..|steps| - 1], i, n)
    ensures ReleasedAt(c, steps, i, n) == ReleasedAt(c, steps[..|steps| - 1], i, n)
  {
    assert steps[..|steps| - 1][..n] == steps[..n];
  }

  /** Some step so far was a Disconnect that hit session i. */
  ghost predicate EverHit(c: Config, steps: seq<Step>, i: nat) {
    exists n :: 0 <= n < |steps| && HitAt(c, steps, i, n)
  }

  ghost predicate EverReleased(c: Config, steps: seq<Step>, i: nat) {
    exists n :: 0 <= n < |steps| && ReleasedAt(c, steps, i, n)
  }

  lemma EverHitStep(c: Config, steps: seq<Step>, i: nat)
    requires steps != []
    ensures var last := |steps| - 1;
            EverHit(c, steps, i) <==> EverHit(c, steps[..last], i) || HitAt(c, steps, i, last)
  {
    var last := |steps| - 1;
    forall n | 0 <= n < last ensures HitAt(c, steps, i, n) == HitAt(c, steps[..last], i, n) {
      Earlier(c, steps, i, n);
    }
  }

  lemma EverReleasedStep(c: Config, steps: seq<Step>, i: nat)
    requires steps != []
    ensures var last := |steps| - 1;
            EverReleased(c, steps, i) <==> EverReleased(c, steps[..last], i) || ReleasedAt(c, steps, i, last)
  {
    var last := |steps| - 1;
    forall n | 0 <= n < last ensures ReleasedAt(c, steps, i, n) == ReleasedAt(c, steps[..last], i, n) {
      Earlier(c, steps, i, n);
    }
  }

  lemma {:induction false} DoomedExactly(c: Config, steps: seq<Step>, i: nat)
    requires !Run(c, INITIAL, steps).crashed
    ensures Doomed(Run(c, INITIAL, steps), i) <==> EverHit(c, steps, i)
  {
    if steps == [] {
    } else {
      var before := steps[..|steps| - 1];
      DoomedExactly(c, before, i);
      ClosedInvariant(c, before);
      DoomedByStep(c, Run(c, INITIAL, before), steps[|steps| - 1], i);
      EverHitStep(c, steps, i);
    }
  }

  lemma {:induction false} ClosedExactly(c: Config, steps: seq<Step>, i: nat)
    requires !Run(c, INITIAL, steps).crashed
    ensures NotClosed(Run(c, INITIAL, steps), i) <==> !EverHit(c, steps, i) && !EverReleased(c, steps, i)
  {
    if steps == [] {
    } else {
      var before := steps[..|steps| - 1];
      ClosedExactly(c, before, i);
      ClosedByStep(c, Run(c, INITIAL, before), steps[|steps| - 1], i);
      EverHitStep(c, steps, i);
      EverReleasedStep(c, steps, i);
    }
  }

  /** In every run that has not panicked, a Release that has begun panics at its second half exactly when
      a Disconnect hit its session while it was attached and open, before the Release or between its
      halves; a whole Release panics exactly when such a Disconnect came before. */
  lemma {:induction false} ReleasePanicsExactly(c: Config, steps: seq<Step>, i: nat, now: int)
    requires !Run(c, INITIAL, steps).crashed
    ensures var s := Run(c, INITIAL, steps);
            && (i < |s.sessions| && s.sessions[i].released ==>
                 (Apply(c, s, CloseQueue(i)).crashed <==> exists n :: 0 <= n < |steps| && HitAt(c, steps, i, n)))
            && (Apply(c, Apply(c, s, Release(i, now)), CloseQueue(i)).crashed <==>
                 exists n :: 0 <= n < |steps| && HitAt(c, steps, i, n))
  {
    DoomedExactly(c, steps, i);
    ClosedInvariant(c, steps);
    assert EverHit(c, steps, i) <==> exists n :: 0 <= n < |steps| && HitAt(c, steps, i, n);
  }

  /** A Disconnect that closes the queue of an attached session comes before that session's own Release
      does: from then on the process either has panicked already, or panics when that Release comes. */
  lemma {:induction false} DisconnectDoomsRelease(c: Config, s: State, id: string, i: nat, now: int, steps: seq<Step>,
      later: int)
    requires Hits(s, Disconnect(id, now), i) && ClosedMeansEnded(s)
    ensures var t := Run(c, Apply(c, s, Disconnect(id, now)), steps);
            t.crashed || (i < |t.sessions| && Apply(c, Apply(c, t, Release(i, later)), CloseQueue(i)).crashed)
  {
    DoomedStays(c, Apply(c, s, Disconnect(id, now)), steps, i);
  }

  lemma {:induction false} DoomedStays(c: Config, s: State, steps: seq<Step>, i: nat)
    requires Doomed(s, i)
    ensures Run(c, s, steps).crashed || Doomed(Run(c, s, steps), i)
  {
    if steps == [] {
    } else {
      DoomedStays(c, s, steps[..|steps| - 1], i);
      DoomedKept(c, Run(c, s, steps[..|steps| - 1]), steps[|steps| - 1], i);
    }
  }

  lemma DoomedKept(c: Config, s: State, step: Step, i: nat)
    requires s.crashed || Doomed(s, i)
    ensures Apply(c, s, step).crashed || Doomed(Apply(c, s, step), i)
  {}

  // ---- Sending to a closed queue ----

  /** Dispatch sends outside the lock. In every run that has not panicked, sending to the session that
      Route picked at an earlier point panics exactly when, between the two, a Disconnect hit that
      session or the session's Release closed its queue. */
  lemma {:induction false} SendPanicsExactly(c: Config, prefix: seq<Step>, rest: seq<Step>, agent: string, i: nat,
      m: Message)
    requires Route(Run(c, INITIAL, prefix), agent) == Some(i)
    requires !Run(c, INITIAL, prefix + rest).crashed
    ensures Apply(c, Run(c, INITIAL, prefix + rest), Enqueue(i, m)).crashed
       <==> exists n ::
         |prefix| <= n < |prefix + rest| && (HitAt(c, prefix + rest, i, n) || ReleasedAt(c, prefix + rest, i, n))
  {
    var steps := prefix + rest;
    RegistryInvariant(c, prefix);
    RouteIsOpen(c, Run(c, INITIAL, prefix), agent);
    Continued(c, prefix, rest, i);
    ClosedExactly(c, prefix, i);
    ClosedExactly(c, steps, i);
    forall n | 0 <= n < |prefix| ensures !HitAt(c, steps, i, n) && !ReleasedAt(c, steps, i, n) {
      assert steps[..n] == prefix[..n] && steps[n] == prefix[n];
      assert !HitAt(c, prefix, i, n) && !ReleasedAt(c, prefix, i, n);
    }
  }

  lemma {:induction false} Continued(c: Config, prefix: seq<Step>, rest: seq<Step>, i: nat)
    requires i < |Run(c, INITIAL, prefix).sessions| && !Run(c, INITIAL, prefix + rest).crashed
    ensures !Run(c, INITIAL, prefix).crashed && i < |Run(c, INITIAL, prefix + rest).sessions|
  {
    if rest == [] {
      assert prefix + rest == prefix;
    } else {
      var all := prefix + rest;
      assert all[..|all| - 1] == prefix + rest[..|rest| - 1];
      Continued(c, prefix, rest[..|rest| - 1], i);
      AgentKept(c, Run(c, INITIAL, all[..|all| - 1]), all[|all| - 1], i);
    }
  }

  /** It does happen: the agent is disconnected between the lookup and the send of one Dispatch. */
  lemma {:induction false} SendAfterDisconnectPanics(c: Config, hello: Hello, m: Message)
    requires c.version == 1 && hello == Hello("a", 1, 1, true, 0)
    ensures var connected := [Acquire("a", "a", Some(hello), 0)];
            && Route(Run(c, INITIAL, connected), "a") == Some(0)
            && Run(c, INITIAL, connected + [Disconnect("a", 1), Enqueue(0, m)]).crashed
  {
    var steps := [Acquire("a", "a", Some(hello), 0), Disconnect("a", 1), Enqueue(0, m)];
    assert steps[..2] == [steps[0], steps[1]] && steps[..2][..1] == [steps[0]] && [steps[0]][..0] == [];
    assert Run(c, INITIAL, [steps[0]]) == Apply(c, Run(c, INITIAL, []), steps[0]);
    assert Run(c, INITIAL, steps[..2]) == Apply(c, Run(c, INITIAL, [steps[0]]), steps[1]);
    assert steps[..|steps| - 1] == steps[..2];
    assert [steps[0]] + [Disconnect("a", 1), Enqueue(0, m)] == steps;
  }
}
