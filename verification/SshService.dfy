/** The SSH calls of the fleet service (internal/server/ssh.go), each run without interruption on the
    real session table, relay and registry: what they change, and what they put back when they fail. */
module SshService {
  import opened Common
  import opened Protocol
  import S = SshSessions
  import T = TunnelRelay
  import R = AgentRegistry
  import B = SshBridge

  /** The table after a session was created and its preparation failed: one dead row more, or, when the
      context has ended, a PREPARING row whose token is gone. */
  function AfterFailure(c: S.Config, s: S.State, q: S.Request, now: int, draw: S.Draw, ended: bool): S.State
    requires S.Creates(c, s, q, now, draw)
  {
    var t := S.AfterCreate(c, s, q, now, draw);
    t.(rows := if ended then t.rows
                 else t.rows[draw.id := t.rows[draw.id].(state := S.Closed, port := None)],
       tokens := s.tokens - {draw.id})
  }

  /** The two halves of the Close that follows a failed dispatch. */
  function ClosingSteps(call: nat, id: string, ended: bool): seq<S.Step> {
    [S.CloseStart(call, id), S.Finish(S.CloseFinish(call), ended)]
  }

  lemma FailedIsARun(c: S.Config, s: S.State, q: S.Request, now: int, draw: S.Draw, call: nat, ended: bool)
    requires S.Creates(c, s, q, now, draw) && call !in s.pending
    ensures S.Run(c, S.AfterCreate(c, s, q, now, draw), ClosingSteps(call, draw.id, ended))
        == AfterFailure(c, s, q, now, draw, ended)
  {
    S.CloseWhole(c, S.AfterCreate(c, s, q, now, draw), call, draw.id, ended);
    assert s.tokens[draw.id := draw.token] - {draw.id} == s.tokens - {draw.id};
  }

  lemma BusyWith(rows: map<string, S.Row>, id: string, row: S.Row, port: S.uint32, at: int)
    requires id !in rows
    ensures S.Busy(rows[id := row], port, at) <==> S.Busy(rows, port, at) || S.Occupies(row, port, at)
  {
    var more := rows[id := row];
    assert S.Occupies(row, port, at) ==> id in more && S.Occupies(more[id], port, at);
    if x :| x in rows && S.Occupies(rows[x], port, at) {
      assert S.Occupies(more[x], port, at);
    }
  }

  /** One row more, on the port that was free, or dead. */
  lemma FailureKeepsTable(c: S.Config, s: S.State, q: S.Request, now: int, draw: S.Draw, ended: bool)
    requires S.Creates(c, s, q, now, draw) && S.PortsHeld(c, s.rows)
    ensures var t, own := AfterFailure(c, s, q, now, draw, ended), S.Scan(s.rows, c.min, c.max, S.Millis(now));
            && draw.id !in s.rows && draw.id in t.rows && t.rows == s.rows[draw.id := t.rows[draw.id]]
            && t.rows[draw.id].port == (if ended then own else None)
            && t.rows[draw.id].state == (if ended then S.Preparing else S.Closed)
            && t.rows[draw.id].expires == S.Millis(now + q.ttl)
            && S.PortsHeld(c, t.rows) && S.LiveIds(t.rows) == S.LiveIds(s.rows) + (if ended then {draw.id} else {})
  {
    var t := AfterFailure(c, s, q, now, draw, ended);
    assert t.rows == s.rows[draw.id := t.rows[draw.id]];
  }

  /** A failed preparation takes its token back. Its port is as busy as before exactly when the context is
      still alive; otherwise it stays busy until the session expires. */
  lemma {:induction false} FailureFreesExactly(c: S.Config, s: S.State, q: S.Request, now: int, draw: S.Draw,
      ended: bool, port: S.uint32, at: int)
    requires S.Creates(c, s, q, now, draw) && S.PortsHeld(c, s.rows)
    ensures var t, own := AfterFailure(c, s, q, now, draw, ended), S.Scan(s.rows, c.min, c.max, S.Millis(now));
            && S.PortsHeld(c, t.rows) && draw.id !in t.tokens
            && S.LiveIds(t.rows) == S.LiveIds(s.rows) + (if ended then {draw.id} else {})
            && (S.Busy(t.rows, port, at) <==>
                  S.Busy(s.rows, port, at) || (ended && own == Some(port) && at < S.Millis(now + q.ttl)))
            && (own == Some(port) ==> !S.Busy(s.rows, port, at))
  {
    FailureKeepsTable(c, s, q, now, draw, ended);
    BusyWith(s.rows, draw.id, AfterFailure(c, s, q, now, draw, ended).rows[draw.id], port, at);
  }

  lemma FailedFromRun(c: S.Config, prefix: seq<S.Step>, q: S.Request, now: int, draw: S.Draw, call: nat, ended: bool)
    requires S.Creates(c, S.Run(c, S.INITIAL, prefix), q, now, draw)
    requires call !in S.Run(c, S.INITIAL, prefix).pending
    ensures S.Run(c, S.INITIAL, prefix + [S.Create(q, now, draw)] + ClosingSteps(call, draw.id, ended))
         == AfterFailure(c, S.Run(c, S.INITIAL, prefix), q, now, draw, ended)
  {
    var created := prefix + [S.Create(q, now, draw)];
    assert created[..|created| - 1] == prefix;
    S.RunFrom(c, created, ClosingSteps(call, draw.id, ended));
    FailedIsARun(c, S.Run(c, S.INITIAL, prefix), q, now, draw, call, ended);
  }

  /** In every run, a session whose preparation failed on an ended context never becomes READY, and holds its
      port exactly until a Close of it, or a Reconcile at or after its expiry, is carried out. */
  lemma {:induction false} StrandedSession(c: S.Config, prefix: seq<S.Step>, q: S.Request, now: int, draw: S.Draw,
      call: nat, rest: seq<S.Step>)
    requires S.Creates(c, S.Run(c, S.INITIAL, prefix), q, now, draw)
    requires call !in S.Run(c, S.INITIAL, prefix).pending
    ensures var s := S.Run(c, S.INITIAL, prefix);
            var u := AfterFailure(c, s, q, now, draw, true);
            var t := S.Run(c, u, rest);
            && u == S.Run(c, S.INITIAL, prefix + [S.Create(q, now, draw)] + ClosingSteps(call, draw.id, true))
            && draw.id in t.rows && t.rows[draw.id].state != S.Ready && draw.id !in t.tokens
            && t.rows[draw.id].port ==
                 if S.NeverEnded(c, u, rest, draw.id) then S.Scan(s.rows, c.min, c.max, S.Millis(now)) else None
  {
    var s := S.Run(c, S.INITIAL, prefix);
    var u := AfterFailure(c, s, q, now, draw, true);
    var start := prefix + [S.Create(q, now, draw)] + ClosingSteps(call, draw.id, true);
    FailedFromRun(c, prefix, q, now, draw, call, true);
    S.Lifecycle(c, start, rest, draw.id);
    S.RunFrom(c, start, rest);
    S.LiveExactly(c, u, rest, draw.id);
    S.TableInvariant(c, start + rest);
  }

  /** The relay after a registration was cancelled: one unreachable record more. */
  lemma {:induction false} CancelUndoesRegister(s: T.State, session: string, token: seq<Byte>)
    requires T.Registers(s, session)
    ensures var t := T.Apply(T.Apply(s, T.Register(session, token)), T.Cancel(session));
            && t.pending == s.pending && t.records[..|s.records|] == s.records && t.serves == s.serves
                 && t.attaches == s.attaches
  {
    assert s.pending[session := |s.records|] - {session} == s.pending;
  }

  /** What a call that fails after its authorization leaves at the relay. */
  function Withdrawn(s: T.State, session: string, token: seq<Byte>): T.State {
    if T.Registers(s, session) then T.Apply(T.Apply(s, T.Register(session, token)), T.Cancel(session)) else s
  }

  lemma RegisterStartsNoCall(s: T.State, session: string, token: seq<Byte>)
    ensures T.Apply(s, T.Register(session, token)).serves == s.serves
        && T.Apply(s, T.Register(session, token)).attaches == s.attaches
  {}

  // ---- A whole call is a run of the bridge's steps ----

  lemma Extend(c: B.Config, s: B.System, steps: seq<B.Step>, x: B.Step) returns (more: seq<B.Step>)
    ensures more == steps + [x] && B.Run(c, s, more) == B.Apply(c, B.Run(c, s, steps), x)
  {
    more := steps + [x];
    assert more[..|more| - 1] == steps;
  }

  /** The call is authorized, registered and has its agent's session. */
  lemma BridgeRouted(c: B.Config, s: B.System, stream: T.Stream, session: string, actor: string, now: int,
      token: seq<Byte>) returns (steps: seq<B.Step>)
    requires B.Starts(s, stream, session, actor, now) && T.Registers(s.relay, session) && !s.registry.crashed
    requires R.Route(s.registry, s.ssh.rows[session].agent).Some?
    ensures var t, agent := B.Run(c, s, steps), s.ssh.rows[session].agent;
            && t.ssh == s.ssh && t.registry == s.registry && t.relay == T.Apply(s.relay, T.Register(session, token))
            && stream in t.grants && t.grants[stream] == B.Grant(session, actor, agent)
            && stream in t.phases
                 && t.phases[stream] == B.Routed(|s.relay.records|, token, R.Route(s.registry, agent).value)
  {
    steps := Extend(c, s, [], B.BridgeStart(stream, session, actor, now));
    steps := Extend(c, s, steps, B.BridgeRegister(stream, token));
    steps := Extend(c, s, steps, B.BridgeRoute(stream));
  }

  /** What Service.Bridge leaves behind is what the bridge's steps of one call leave behind. */
  lemma {:induction false} BridgeIsARun(c: B.Config, s: B.System, stream: T.Stream, session: string, actor: string,
      now: int, token: seq<Byte>) returns (steps: seq<B.Step>)
    requires B.Starts(s, stream, session, actor, now) && T.Registers(s.relay, session) && !s.registry.crashed
    requires var route := R.Route(s.registry, s.ssh.rows[session].agent);
        route.Some? && R.RoomIn(c.registry, s.registry, route.value)
    ensures var t := B.Run(c, s, steps);
            && t.ssh == s.ssh
            && t.relay
                 == T.Apply(T.Apply(T.Apply(s.relay, T.Register(session, token)), T.ServeGet(stream, session)),
                     T.ServeOffer(stream))
            && t.registry == R.Apply(c.registry, s.registry,
                 R.Enqueue(R.Route(s.registry, s.ssh.rows[session].agent).value, TunnelMessage(session, token)))
  {
    steps := BridgeRouted(c, s, stream, session, actor, now, token);
    steps := Extend(c, s, steps, B.BridgeSend(stream));
    R.EnqueueIs(c.registry, s.registry, R.Route(s.registry, s.ssh.rows[session].agent).value,
        TunnelMessage(session, token));
    steps := Extend(c, s, steps, B.BridgeServe(stream));
    steps := Extend(c, s, steps, B.ClientMoves(T.ServeOffer(stream)));
  }

  lemma BridgeRefused(c: B.Config, s: B.System, stream: T.Stream, session: string, actor: string, now: int,
      token: seq<Byte>)
    returns (steps: seq<B.Step>)
    requires B.Starts(s, stream, session, actor, now) && !T.Registers(s.relay, session) && !s.registry.crashed
    ensures var t := B.Run(c, s, steps); t.ssh == s.ssh && t.registry == s.registry && t.relay == s.relay
  {
    steps := Extend(c, s, [], B.BridgeStart(stream, session, actor, now));
    steps := Extend(c, s, steps, B.BridgeRegister(stream, token));
  }

  /** The call is registered, but its agent cannot be reached. */
  lemma BridgeUnroutable(c: B.Config, s: B.System, stream: T.Stream, session: string, actor: string, now: int,
      token: seq<Byte>)
    returns (steps: seq<B.Step>)
    requires B.Starts(s, stream, session, actor, now) && T.Registers(s.relay, session) && !s.registry.crashed
    requires R.Route(s.registry, s.ssh.rows[session].agent).None?
    ensures FailingAt(s, B.Run(c, s, steps), stream, session, token)
  {
    steps := Extend(c, s, [], B.BridgeStart(stream, session, actor, now));
    steps := Extend(c, s, steps, B.BridgeRegister(stream, token));
    steps := Extend(c, s, steps, B.BridgeRoute(stream));
  }

  ghost predicate FailingAt(s: B.System, t: B.System, stream: T.Stream, session: string, token: seq<Byte>) {
    && t.ssh == s.ssh && t.registry == s.registry && t.relay == T.Apply(s.relay, T.Register(session, token))
    && B.At(t, stream) && t.phases[stream] == B.Failing && t.grants[stream].session == session
  }

  lemma BridgeGivenUp(c: B.Config, s: B.System, stream: T.Stream, session: string, actor: string, now: int,
      token: seq<Byte>)
    returns (steps: seq<B.Step>)
    requires B.Starts(s, stream, session, actor, now) && T.Registers(s.relay, session) && !s.registry.crashed
    requires R.Route(s.registry, s.ssh.rows[session].agent).Some?
    ensures FailingAt(s, B.Run(c, s, steps), stream, session, token)
  {
    steps := BridgeRouted(c, s, stream, session, actor, now, token);
    steps := Extend(c, s, steps, B.BridgeGiveUp(stream));
  }

  /** The same for a call that fails after its authorization: the session is registered already, its agent
      cannot be reached, or the context ends first. */
  lemma {:induction false} FailedBridgeIsARun(c: B.Config, s: B.System, stream: T.Stream, session: string,
      actor: string,
      now: int, token: seq<Byte>, gaveUp: bool) returns (steps: seq<B.Step>)
    requires B.Starts(s, stream, session, actor, now) && !s.registry.crashed
    requires !(T.Registers(s.relay, session) && R.Route(s.registry, s.ssh.rows[session].agent).Some? && !gaveUp)
    ensures var t := B.Run(c, s, steps);
            t.ssh == s.ssh && t.registry == s.registry && t.relay == Withdrawn(s.relay, session, token)
  {
    if !T.Registers(s.relay, session) {
      steps := BridgeRefused(c, s, stream, session, actor, now, token);
    } else {
      if R.Route(s.registry, s.ssh.rows[session].agent).Some? {
        steps := BridgeGivenUp(c, s, stream, session, actor, now, token);
      } else {
        steps := BridgeUnroutable(c, s, stream, session, actor, now, token);
      }
      steps := Extend(c, s, steps, B.BridgeCancel(stream));
    }
  }

  /** Neither the relay nor the registry notices changes to the other. */
  twostate lemma RelayFramed(relay: T.Relay)
    requires old(relay.Valid()) && unchanged(relay) && forall p :: p in relay.records ==> unchanged(p)
    ensures relay.Valid()
  {
    forall i | 0 <= i < |relay.records| ensures relay.Matches(relay.records[i], relay.model.records[i]) {
      assert relay.records[i] in relay.records && old(relay.Matches(relay.records[i], relay.model.records[i]));
    }
  }

  twostate lemma RegistryFramed(registry: R.Registry)
    requires old(registry.Running()) && unchanged(registry) && forall x :: x in registry.sessions ==> unchanged(x)
    ensures registry.Running()
  {
    forall i | 0 <= i < |registry.sessions|
        ensures registry.SessionMatches(registry.sessions[i], registry.model.sessions[i]) {
      assert registry.sessions[i] in registry.sessions
          && old(registry.SessionMatches(registry.sessions[i], registry.model.sessions[i]));
    }
  }

  class Service {
    const manager: S.Manager
    const relay: T.Relay
    const registry: R.Registry

    ghost predicate Valid()
      reads this, relay, relay.records, registry, registry.sessions
    {
      relay.Valid() && registry.Running()
    }

    constructor (manager: S.Manager, relay: T.Relay, registry: R.Registry)
      requires relay.Valid() && registry.Running()
      ensures Valid() && this.manager == manager && this.relay == relay && this.registry == registry
    {
      this.manager, this.relay, this.registry := manager, relay, registry;
    }

    /** PrepareSsh: a session exists and the agent has been told its token; or the session is closed again;
        or the context has ended, and only the token is forgotten. */
    method Prepare(admin: bool, q: S.Request, now: int, draw: S.Draw, gaveUp: bool, ghost call: nat)
        returns (port: Option<S.uint32>)
      requires registry.Running() && call !in manager.pending
      requires R.CanEnqueue(registry.config, registry.model, q.agent, gaveUp)
      modifies manager, registry`model, registry.sessions
      ensures registry.Running() && registry.sessions == old(registry.sessions)
      ensures var c, s := manager.config, old(manager.Model());
              var created, route := admin && S.Creates(c, s, q, now, draw), R.Route(old(registry.model), q.agent);
              && (port.Some? <==> created && route.Some? && !gaveUp)
              && (!created ==> manager.Model() == s && registry.model == old(registry.model))
              && (created && port.None? ==>
                   && manager.Model() == AfterFailure(c, s, q, now, draw, gaveUp)
                   && registry.model == old(registry.model))
              && (port.Some? ==>
                   && manager.Model() == S.AfterCreate(c, s, q, now, draw)
                   && port == manager.rows[draw.id].port
                   && registry.model == R.Apply(registry.config, old(registry.model), R.Enqueue(route.value,
                        PrepareMessage(draw.id, q.key, manager.rows[draw.id].expires, port.value as int, draw.token))))
    {
      if !admin {
        return None;
      }
      port := manager.Create(q, now, draw);
      if port.None? {
        return None;
      }
      var message := PrepareMessage(draw.id, q.key, manager.rows[draw.id].expires, port.value as int, draw.token);
      label Created:
      var sent := registry.Dispatch(q.agent, message, gaveUp);
      assert unchanged@Created(manager);
      if !sent {
        FailedIsARun(manager.config, old(manager.Model()), q, now, draw, call, gaveUp);
        label Unsent:
        var found := manager.Close(call, draw.id, "dispatch failed", gaveUp);
        RegistryFramed@Unsent(registry);
        return None;
      }
    }

    /** CloseSsh: the session is closed whether or not the agent can be told. On a context that has ended it
        only loses its token, and the agent is not told. */
    method CloseSession(id: string, reason: string, ended: bool, gaveUp: bool, ghost call: nat)
        returns (found: bool)
      requires registry.Running() && call !in manager.pending
      requires id in manager.rows ==> R.CanEnqueue(registry.config, registry.model, manager.rows[id].agent, gaveUp)
      modifies manager, registry`model, registry.sessions
      ensures registry.Running() && registry.sessions == old(registry.sessions)
      ensures found <==> reason != "" && id in old(manager.rows) && !ended
      ensures manager.Model() == if reason == "" then old(manager.Model())
        else S.Run(manager.config, old(manager.Model()), ClosingSteps(call, id, ended))
      ensures found ==> id in manager.rows && !S.Live(manager.rows[id]) && id !in manager.tokens
      ensures !found ==> manager.rows == old(manager.rows)
      ensures forall x :: x in old(manager.rows) && x != id ==>
        x in manager.rows && manager.rows[x] == old(manager.rows)[x]
      ensures var route := if found then R.Route(old(registry.model), old(manager.rows)[id].agent) else None;
              registry.model == if route.Some? && !gaveUp
                                then R.Apply(registry.config, old(registry.model),
                                    R.Enqueue(route.value, CloseMessage(id)))
                                else old(registry.model)
    {
      if reason != "" {
        S.CloseWhole(manager.config, manager.Model(), call, id, ended);
      }
      found := manager.Close(call, id, reason, ended);
      if found {
        label Closed:
        var sent := registry.Dispatch(manager.rows[id].agent, CloseMessage(id), gaveUp);
        assert unchanged@Closed(manager);
      }
    }

    /** The request to open a tunnel: registered and sent, or not registered any more. */
    method RequestTunnel(session: string, agent: string, token: seq<Byte>, gaveUp: bool) returns (ok: bool)
      requires Valid() && R.CanEnqueue(registry.config, registry.model, agent, gaveUp)
      modifies relay, registry`model, registry.sessions
      ensures Valid() && registry.sessions == old(registry.sessions)
      ensures !ok ==> relay.pending.Keys == old(relay.pending.Keys)
      ensures ok ==>
        session in relay.pending && fresh(relay.pending[session])
            && relay.records == old(relay.records) + [relay.pending[session]]
      ensures ok ==> relay.pending[session].token == token && relay.pending[session].channel == None
      ensures var route := R.Route(old(registry.model), agent);
              && (ok <==> T.Registers(old(relay.model), session) && route.Some? && !gaveUp)
              && (!ok ==>
                   relay.model == Withdrawn(old(relay.model), session, token) && registry.model == old(registry.model))
              && (ok ==> relay.model == T.Apply(old(relay.model), T.Register(session, token)))
              && (ok ==> registry.model == R.Apply(registry.config, old(registry.model),
                                                   R.Enqueue(route.value, TunnelMessage(session, token))))
    {
      ok := relay.Register(session, token);
      RegistryFramed(registry);
      if !ok {
        return false;
      }
      label Before:
      ok := registry.Dispatch(agent, TunnelMessage(session, token), gaveUp);
      RelayFramed@Before(relay);
      if !ok {
        CancelUndoesRegister(old(relay.model), session, token);
        label Failed:
        relay.Cancel(session);
        RegistryFramed@Failed(registry);
      }
    }

    /** Relay.Serve up to its wait, for a registered session. */
    method Serve(stream: T.Stream, session: string) returns (ok: bool)
      requires Valid() && stream !in relay.model.serves && stream !in relay.model.attaches && session in relay.pending
      modifies relay, relay.pending[session]
      ensures Valid() && registry.sessions == old(registry.sessions) && registry.model == old(registry.model)
      ensures relay.model == T.Apply(T.Apply(old(relay.model), T.ServeGet(stream, session)), T.ServeOffer(stream))
      ensures ok <==> old(relay.pending[session].channel).None?
      ensures relay.pending == old(relay.pending) && (ok ==> relay.pending[session].channel == Some(stream))
    {
      ok := relay.Offer(stream, session);
      RegistryFramed(registry);
    }

    /** The client's stream waits in the channel of a new record whose token the agent has been sent. */
    method Connect(stream: T.Stream, session: string, agent: string, token: seq<Byte>, gaveUp: bool) returns (ok: bool)
      requires Valid() && stream !in relay.model.serves && stream !in relay.model.attaches
      requires R.CanEnqueue(registry.config, registry.model, agent, gaveUp)
      modifies relay, registry`model, registry.sessions
      ensures Valid() && registry.sessions == old(registry.sessions)
      ensures ok <==> T.Registers(old(relay.model), session) && R.Route(old(registry.model), agent).Some? && !gaveUp
      ensures !ok ==>
        relay.model == Withdrawn(old(relay.model), session, token) && registry.model == old(registry.model)
      ensures ok ==>
        relay.model
            == T.Apply(T.Apply(T.Apply(old(relay.model), T.Register(session, token)), T.ServeGet(stream, session)),
                T.ServeOffer(stream))
      ensures ok ==>
        registry.model
            == R.Apply(registry.config, old(registry.model),
                R.Enqueue(R.Route(old(registry.model), agent).value, TunnelMessage(session, token)))
      ensures ok ==>
        session in relay.pending && relay.pending[session].token == token
            && relay.pending[session].channel == Some(stream)
    {
      ok := RequestTunnel(session, agent, token, gaveUp);
      if !ok {
        return false;
      }
      RegisterStartsNoCall(old(relay.model), session, token);
      ok := Serve(stream, session);
    }

    /** BridgeSsh up to the point where it waits: authorized by the table, registered at the relay, its
        agent told the token, its stream in the channel. On failure nothing is left registered. */
    method Bridge(stream: T.Stream, session: string, actor: string, now: int, token: seq<Byte>, gaveUp: bool)
        returns (ok: bool)
      requires Valid() && stream !in relay.model.serves && stream !in relay.model.attaches
      requires session in manager.rows ==>
        R.CanEnqueue(registry.config, registry.model, manager.rows[session].agent, gaveUp)
      modifies relay, registry`model, registry.sessions
      ensures Valid() && registry.sessions == old(registry.sessions)
      ensures ok <==>
                && session != "" && S.Bridged(old(manager.Model()), session, actor, now)
                     && T.Registers(old(relay.model), session)
                && R.Route(old(registry.model), old(manager.rows)[session].agent).Some? && !gaveUp
      ensures !ok ==> registry.model == old(registry.model)
      ensures !ok ==> relay.model == if session != "" && S.Bridged(old(manager.Model()), session, actor, now)
                                     then Withdrawn(old(relay.model), session, token) else old(relay.model)
      ensures ok ==>
        relay.model
            == T.Apply(T.Apply(T.Apply(old(relay.model), T.Register(session, token)), T.ServeGet(stream, session)),
                T.ServeOffer(stream))
      ensures ok ==> registry.model == R.Apply(registry.config, old(registry.model),
                       R.Enqueue(R.Route(old(registry.model), old(manager.rows)[session].agent).value,
                           TunnelMessage(session, token)))
      ensures ok ==>
        session in relay.pending && relay.pending[session].token == token
            && relay.pending[session].channel == Some(stream)
    {
      var agent := manager.Bridge(session, actor, now);
      if agent.None? {
        return false;
      }
      ok := Connect(stream, session, agent.value, token, gaveUp);
    }
  }
}
