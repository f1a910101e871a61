/** Enrollment tokens and agent identities (internal/pki/pki.go, internal/pki/identity.go,
    internal/server/enrollment.go): a one-time token becomes an identity, renewal replaces its serial
    number, and revocation is final. Instants are nanoseconds; the tables store milliseconds. */
module Identity {
  import opened Common

  type Octet = x: int | 0 <= x < 256
  type Secret = s: seq<Octet> | |s| == 32 witness seq(32, _ => 0)

  const DAY: int := 86_400_000_000_000

  function Millis(now: int): int {
    now / 1_000_000
  }

  // ---- Token text ----

  function Digit(n: int): char
    requires 0 <= n < 16
  {
    "0123456789abcdef"[n]
  }

  function DigitValue(d: char): Option<int> {
    if '0' <= d <= '9' then Some(d as int - '0' as int)
    else if 'a' <= d <= 'f' then Some(d as int - 'a' as int + 10)
    else if 'A' <= d <= 'F' then Some(d as int - 'A' as int + 10)
    else None
  }

  function Encode(raw: seq<Octet>): string {
    if raw == [] then "" else [Digit(raw[0] / 16), Digit(raw[0] % 16)] + Encode(raw[1..])
  }

  function Decode(text: string): Option<seq<Octet>> {
    if text == "" then Some([])
    else if |text| == 1 then None
    else
      var high, low, rest := DigitValue(text[0]), DigitValue(text[1]), Decode(text[2..]);
      if high.Some? && low.Some? && rest.Some? && 0 <= 16 * high.value + low.value < 256
      then Some([16 * high.value + low.value] + rest.value) else None
  }

  lemma DigitRoundTrip(n: int)
    requires 0 <= n < 16
    ensures DigitValue(Digit(n)) == Some(n)
  {}

  lemma DecodeStep(raw: Octet, rest: string)
    ensures var text := [Digit(raw / 16), Digit(raw % 16)] + rest;
            Decode(text) == if Decode(rest).Some? then Some([raw] + Decode(rest).value) else None
  {
    var text := [Digit(raw / 16), Digit(raw % 16)] + rest;
    assert text[2..] == rest;
    DigitRoundTrip(raw / 16);
    DigitRoundTrip(raw % 16);
  }

  lemma {:induction false} DecodeUndoesEncode(raw: seq<Octet>)
    ensures Decode(Encode(raw)) == Some(raw)
  {
    if raw == [] {
    } else {
      DecodeUndoesEncode(raw[1..]);
      DecodeStep(raw[0], Encode(raw[1..]));
      assert raw == [raw[0]] + raw[1..];
    }
  }

  // ---- Tables ----

  datatype TokenRow = TokenRow(hash: string, expires: int, creator: Option<string>, consumed: Option<int>,
      revoked: Option<int>)

  datatype AgentRow = AgentRow(serial: string, expires: int, hostname: string, created: int, revoked: Option<int>)

  type Tokens = map<string, TokenRow>
  type Agents = map<string, AgentRow>

  /** The hash functions, the users a token may name as its creator, and the configured validity. */
  datatype Config = Config(users: set<string>, idOf: Secret -> string, hashOf: (string, Secret) -> string,
      validity: int)

  function Validity(c: Config): int {
    if c.validity <= 0 then DAY else c.validity
  }

  predicate TokenInsertable(c: Config, tokens: Tokens, creator: string, raw: Secret, ttl: int) {
    && ttl > 0
    && c.idOf(raw) !in tokens
    && (forall id :: id in tokens ==> tokens[id].hash != c.hashOf(Encode(raw), raw))
    && (creator == "" || creator in c.users)
  }

  function TokenInserted(c: Config, tokens: Tokens, creator: string, raw: Secret, now: int, ttl: int): Tokens {
    tokens[c.idOf(raw) :=
        TokenRow(c.hashOf(Encode(raw), raw), Millis(now + ttl), if creator == "" then None
            else Some(creator), None, None)]
  }

  /** The hash a presented token is looked up by; the text itself is hashed, salted with its own bytes. */
  function Presented(c: Config, token: string): Option<string> {
    var raw := Decode(token);
    if raw.None? || |raw.value| != 32 then None else Some(c.hashOf(token, raw.value))
  }

  predicate Active(t: TokenRow) {
    t.consumed.None? && t.revoked.None?
  }

  predicate Spendable(t: TokenRow, hash: string, nowMs: int) {
    t.hash == hash && Active(t) && t.expires >= nowMs
  }

  /** The rows the consuming update touches. */
  function Matching(tokens: Tokens, hash: string, nowMs: int): set<string> {
    set id | id in tokens && Spendable(tokens[id], hash, nowMs)
  }

  function Spent(tokens: Tokens, hash: string, nowMs: int): Tokens {
    map id | id in tokens :: if Spendable(tokens[id], hash, nowMs) then tokens[id].(consumed := Some(nowMs))
        else tokens[id]
  }

  function TokenRevoked(tokens: Tokens, id: string, nowMs: int): Tokens {
    if id in tokens && Active(tokens[id]) then tokens[id := tokens[id].(revoked := Some(nowMs))] else tokens
  }

  predicate Registrable(agents: Agents, id: string, serial: string) {
    id != "" && serial != "" && id !in agents && forall x :: x in agents ==> agents[x].serial != serial
  }

  predicate Renewable(agents: Agents, id: string, nowMs: int) {
    id in agents && agents[id].revoked.None? && agents[id].expires >= nowMs
  }

  predicate Updatable(agents: Agents, id: string, serial: string) {
    id in agents && agents[id].revoked.None? && forall x :: x in agents && x != id ==> agents[x].serial != serial
  }

  predicate Authorized(agents: Agents, id: string, serial: string, nowMs: int) {
    id in agents && agents[id].revoked.None? && agents[id].serial == serial && agents[id].expires >= nowMs
  }

  function AgentRevoked(agents: Agents, id: string, nowMs: int): Agents {
    if id in agents && agents[id].revoked.None? then agents[id := agents[id].(revoked := Some(nowMs))] else agents
  }

  // ---- The two stores ----

  class EnrollmentManager {
    const config: Config
    var tokens: Tokens

    constructor (config: Config)
      ensures this.config == config && tokens == map[]
    {
      this.config, tokens := config, map[];
    }

    method CreateToken(creator: string, raw: Secret, now: int, ttl: int) returns (token: Option<string>)
      modifies this
      ensures token.Some? <==> TokenInsertable(config, old(tokens), creator, raw, ttl)
      ensures token.Some? <==>
        && ttl > 0 && (creator in config.users || creator == "") && config.idOf(raw) !in old(tokens)
        && forall x :: x in old(tokens) ==> old(tokens)[x].hash != config.hashOf(Encode(raw), raw)
      ensures token.Some? ==> Presented(config, token.value) == Some(config.hashOf(token.value, raw))
      ensures tokens == if token.Some? then TokenInserted(config, old(tokens), creator, raw, now, ttl) else old(tokens)
    {
      if ttl <= 0 {
        return None;
      }
      var text := Encode(raw);
      var hash, id := config.hashOf(text, raw), config.idOf(raw);
      if id in tokens || (exists x :: x in tokens && tokens[x].hash == hash)
          || (creator != "" && creator !in config.users) {
        return None;
      }
      DecodeUndoesEncode(raw);
      tokens := tokens[id :=
          TokenRow(hash, Millis(now + ttl), if creator == "" then None else Some(creator), None, None)];
      return Some(text);
    }

    method ConsumeToken(token: string, now: int) returns (ok: bool)
      modifies this
      ensures var hash := Presented(config, token);
              && ok == (hash.Some? && |Matching(old(tokens), hash.value, Millis(now))| == 1)
              && tokens == if hash.Some? then Spent(old(tokens), hash.value, Millis(now)) else old(tokens)
      ensures tokens.Keys == old(tokens).Keys
      ensures forall id :: id in tokens && tokens[id] != old(tokens)[id] ==>
        && Presented(config, token) == Some(old(tokens)[id].hash)
        && old(tokens)[id].consumed == None && old(tokens)[id].revoked == None && Millis(now) <= old(tokens)[id].expires
        && tokens[id] == old(tokens)[id].(consumed := Some(Millis(now)))
    {
      var raw := Decode(token);
      if raw.None? || |raw.value| != 32 {
        return false;
      }
      var hash, nowMs := config.hashOf(token, raw.value), Millis(now);
      var touched := Matching(tokens, hash, nowMs);
      tokens := map id | id in tokens :: if id in touched then tokens[id].(consumed := Some(nowMs)) else tokens[id];
      return |touched| == 1;
    }

    method Revoke(id: string, now: int) returns (ok: bool)
      modifies this
      ensures ok <==> id in old(tokens) && Active(old(tokens)[id])
      ensures tokens == TokenRevoked(old(tokens), id, Millis(now))
    {
      if id !in tokens || tokens[id].consumed.Some? || tokens[id].revoked.Some? {
        return false;
      }
      tokens := tokens[id := tokens[id].(revoked := Some(Millis(now)))];
      return true;
    }
  }

  class IdentityRegistry {
    var agents: Agents

    constructor ()
      ensures agents == map[]
    {
      agents := map[];
    }

    method RegisterWithMetadata(id: string, serial: string, hostname: string, expires: int, created: int)
        returns (ok: bool)
      modifies this
      ensures ok <==> Registrable(old(agents), id, serial)
      ensures agents == if ok
          then old(agents)[id := AgentRow(serial, Millis(expires), hostname, Millis(created), None)] else old(agents)
    {
      if id == "" || serial == "" || id in agents || exists x :: x in agents && agents[x].serial == serial {
        return false;
      }
      agents := agents[id := AgentRow(serial, Millis(expires), hostname, Millis(created), None)];
      return true;
    }

    method AuthorizeRenewal(id: string, now: int) returns (ok: bool)
      ensures ok <==> Renewable(agents, id, Millis(now))
    {
      if id !in agents {
        return false;
      }
      var row := agents[id];
      if row.revoked.Some? {
        return false;
      }
      if row.expires < Millis(now) {
        return false;
      }
      return true;
    }

    method UpdateCertificate(id: string, serial: string, expires: int) returns (ok: bool)
      modifies this
      ensures ok <==> Updatable(old(agents), id, serial)
      ensures agents == if ok then old(agents)[id := old(agents)[id].(serial := serial, expires := Millis(expires))]
          else old(agents)
    {
      if id !in agents || agents[id].revoked.Some? || exists x :: x in agents && x != id && agents[x].serial == serial {
        return false;
      }
      agents := agents[id := agents[id].(serial := serial, expires := Millis(expires))];
      return true;
    }

    method Revoke(id: string, now: int) returns (ok: bool)
      modifies this
      ensures ok <==> id in old(agents) && old(agents)[id].revoked.None?
      ensures agents == AgentRevoked(old(agents), id, Millis(now))
    {
      if id !in agents || agents[id].revoked.Some? {
        return false;
      }
      agents := agents[id := agents[id].(revoked := Some(Millis(now)))];
      return true;
    }

    method AuthorizeConnection(id: string, serial: string, now: int) returns (ok: bool)
      ensures ok <==> Authorized(agents, id, serial, Millis(now))
    {
      if id !in agents {
        return false;
      }
      var row := agents[id];
      return !(row.revoked.Some? || row.serial != serial || row.expires < Millis(now));
    }
  }

  // ---- Calls in any interleaving ----

  /** What became of a consumed token. */
  datatype Use = InFlight(call: nat) | Registered(agent: string) | Lost

  /** Enroll calls hold the token they consumed, Renew calls the identity they were granted.
      uses, origin and serials are history, kept for the proofs. */
  datatype State = State(
    tokens: Tokens, agents: Agents, enrolls: map<nat, string>, renews: map<nat, string>,
    uses: map<string, Use>, origin: map<string, string>, serials: map<string, seq<string>>)

  const INITIAL: State := State(map[], map[], map[], map[], map[], map[], map[])

  /** `signed` is whether the certificate request could be signed; ids, serials and secrets are drawn. */
  datatype Step =
    | CreateToken(creator: string, raw: Secret, now: int, ttl: int)
    | RevokeToken(id: string, now: int)
    | EnrollStart(call: nat, validRequest: bool, token: string, now: int)
    | EnrollFinish(call: nat, signed: bool, id: string, serial: string, hostname: string, now: int, created: int)
    | RenewStart(call: nat, id: string, now: int)
    | RenewFinish(call: nat, signed: bool, serial: string, now: int)
    | RevokeAgent(id: string, now: int)
    | Restart

  ghost function Only(m: set<string>): string
    requires |m| == 1
    ensures Only(m) in m
  {
    var x :| x in m; x
  }

  function LoseFlights(uses: map<string, Use>): map<string, Use> {
    map t | t in uses :: if uses[t].InFlight? then Lost else uses[t]
  }

  ghost function AfterConsume(s: State, call: nat, hash: string, nowMs: int): State {
    var m := Matching(s.tokens, hash, nowMs);
    if |m| == 1 then
      s.(tokens := Spent(s.tokens, hash, nowMs), enrolls := s.enrolls[call := Only(m)],
          uses := s.uses[Only(m) := InFlight(call)])
    else s.(tokens := Spent(s.tokens, hash, nowMs))
  }

  function AfterRegister(s: State, call: nat, id: string, row: AgentRow): State
    requires call in s.enrolls
  {
    s.(agents := s.agents[id := row], enrolls := s.enrolls - {call}, uses := s.uses[s.enrolls[call] := Registered(id)],
       origin := s.origin[id := s.enrolls[call]], serials := s.serials[id := [row.serial]])
  }

  function AfterLoss(s: State, call: nat): State
    requires call in s.enrolls
  {
    s.(enrolls := s.enrolls - {call}, uses := s.uses[s.enrolls[call] := Lost])
  }

  function AfterRenew(s: State, call: nat, id: string, row: AgentRow): State {
    s.(agents := s.agents[id := row], renews := s.renews - {call},
       serials := s.serials[id := (if id in s.serials then s.serials[id] else []) + [row.serial]])
  }

  ghost function Apply(c: Config, s: State, step: Step): State {
    match step
    case CreateToken(creator, raw, now, ttl) =>
      if TokenInsertable(c, s.tokens, creator, raw, ttl)
          then s.(tokens := TokenInserted(c, s.tokens, creator, raw, now, ttl)) else s
    case RevokeToken(id, now) => s.(tokens := TokenRevoked(s.tokens, id, Millis(now)))
    case EnrollStart(call, valid, token, now) =>
      if call in s.enrolls || !valid || Presented(c, token).None? then s
      else AfterConsume(s, call, Presented(c, token).value, Millis(now))
    case EnrollFinish(call, signed, id, serial, hostname, now, created) =>
      if call !in s.enrolls then s
      else if signed && Registrable(s.agents, id, serial) then
        AfterRegister(s, call, id, AgentRow(serial, Millis(now + Validity(c)), hostname, Millis(created), None))
      else AfterLoss(s, call)
    case RenewStart(call, id, now) =>
      if call !in s.renews && id != ""
          && Renewable(s.agents, id, Millis(now)) then s.(renews := s.renews[call := id]) else s
    case RenewFinish(call, signed, serial, now) =>
      if call !in s.renews then s
      else if signed && Updatable(s.agents, s.renews[call], serial) then
        var id := s.renews[call];
        AfterRenew(s, call, id, s.agents[id].(serial := serial, expires := Millis(now + Validity(c))))
      else s.(renews := s.renews - {call})
    case RevokeAgent(id, now) => s.(agents := AgentRevoked(s.agents, id, Millis(now)))
    case Restart => s.(enrolls := map[], renews := map[], uses := LoseFlights(s.uses))
  }

  ghost function Run(c: Config, s: State, steps: seq<Step>): State {
    if steps == [] then s else Apply(c, Run(c, s, steps[..|steps| - 1]), steps[|steps| - 1])
  }

  // ---- Invariant ----

  ghost predicate UniqueHashes(tokens: Tokens) {
    forall a, b :: a in tokens && b in tokens && tokens[a].hash == tokens[b].hash ==> a == b
  }

  ghost predicate UniqueSerials(agents: Agents) {
    forall a, b :: a in agents && b in agents && agents[a].serial == agents[b].serial ==> a == b
  }

  function Consumed(tokens: Tokens): set<string> {
    set t | t in tokens && tokens[t].consumed.Some?
  }

  /** A token is never both consumed and revoked, and exactly the consumed ones have a use. */
  ghost predicate TokensOk(tokens: Tokens, uses: map<string, Use>) {
    && UniqueHashes(tokens) && uses.Keys == Consumed(tokens)
    && forall t :: t in tokens ==> tokens[t].consumed.None? || tokens[t].revoked.None?
  }

  ghost predicate FlightsOk(enrolls: map<nat, string>, uses: map<string, Use>) {
    && (forall call :: call in enrolls ==> enrolls[call] in uses && uses[enrolls[call]] == InFlight(call))
    && (forall t :: t in uses && uses[t].InFlight? ==> uses[t].call in enrolls && enrolls[uses[t].call] == t)
  }

  ghost predicate OwnersOk(origin: map<string, string>, uses: map<string, Use>) {
    && (forall a :: a in origin ==> origin[a] in uses && uses[origin[a]] == Registered(a))
    && (forall t :: t in uses && uses[t].Registered? ==> uses[t].agent in origin && origin[uses[t].agent] == t)
  }

  ghost predicate SerialsOk(agents: Agents, serials: map<string, seq<string>>) {
    && UniqueSerials(agents) && serials.Keys == agents.Keys
    && forall a :: a in agents ==> serials[a] != [] && serials[a][|serials[a]| - 1] == agents[a].serial
  }

  ghost predicate Inv(s: State) {
    && TokensOk(s.tokens, s.uses) && FlightsOk(s.enrolls, s.uses) && OwnersOk(s.origin, s.uses)
    && SerialsOk(s.agents, s.serials) && s.origin.Keys == s.agents.Keys
  }

  lemma AtMostOneMatches(tokens: Tokens, hash: string, nowMs: int)
    requires UniqueHashes(tokens)
    ensures |Matching(tokens, hash, nowMs)| <= 1
    ensures forall id :: id in tokens && Spendable(tokens[id], hash, nowMs) ==> Matching(tokens, hash, nowMs) == {id}
  {
    var m := Matching(tokens, hash, nowMs);
    if m != {} {
      var x :| x in m;
      assert m == {x};
    }
  }

  lemma SpendOne(tokens: Tokens, hash: string, nowMs: int, id: string)
    requires UniqueHashes(tokens) && id in tokens && Spendable(tokens[id], hash, nowMs)
    ensures Spent(tokens, hash, nowMs) == tokens[id := tokens[id].(consumed := Some(nowMs))]
  {}

  lemma SpendNone(tokens: Tokens, hash: string, nowMs: int)
    requires Matching(tokens, hash, nowMs) == {}
    ensures Spent(tokens, hash, nowMs) == tokens
  {
    forall id | id in tokens ensures !Spendable(tokens[id], hash, nowMs) {
      assert id !in Matching(tokens, hash, nowMs);
    }
  }

  lemma ConsumedKeepsTokens(tokens: Tokens, uses: map<string, Use>, id: string, nowMs: int, u: Use)
    requires TokensOk(tokens, uses) && id in tokens && Active(tokens[id])
    ensures TokensOk(tokens[id := tokens[id].(consumed := Some(nowMs))], uses[id := u]) && id !in uses
  {
    assert id !in Consumed(tokens);
    var after := tokens[id := tokens[id].(consumed := Some(nowMs))];
    assert Consumed(after) == Consumed(tokens) + {id};
  }

  /** An Enroll call takes a token that had no use. */
  lemma TakeOffKeepsUses(enrolls: map<nat, string>, origin: map<string, string>, uses: map<string, Use>, call: nat,
      t: string)
    requires FlightsOk(enrolls, uses) && OwnersOk(origin, uses) && call !in enrolls && t !in uses
    ensures FlightsOk(enrolls[call := t], uses[t := InFlight(call)]) && OwnersOk(origin, uses[t := InFlight(call)])
  {}

  lemma ConsumeKeepsInv(s: State, call: nat, hash: string, nowMs: int)
    requires Inv(s) && call !in s.enrolls
    ensures Inv(AfterConsume(s, call, hash, nowMs))
  {
    var m := Matching(s.tokens, hash, nowMs);
    AtMostOneMatches(s.tokens, hash, nowMs);
    if |m| == 1 {
      SpendOne(s.tokens, hash, nowMs, Only(m));
      ConsumedKeepsTokens(s.tokens, s.uses, Only(m), nowMs, InFlight(call));
      TakeOffKeepsUses(s.enrolls, s.origin, s.uses, call, Only(m));
    } else {
      assert m == {};
      SpendNone(s.tokens, hash, nowMs);
    }
  }

  lemma InsertKeepsTokens(c: Config, tokens: Tokens, uses: map<string, Use>, creator: string, raw: Secret, now: int,
      ttl: int)
    requires TokensOk(tokens, uses) && TokenInsertable(c, tokens, creator, raw, ttl)
    ensures TokensOk(TokenInserted(c, tokens, creator, raw, now, ttl), uses)
  {
    assert Consumed(TokenInserted(c, tokens, creator, raw, now, ttl)) == Consumed(tokens);
  }

  lemma RevokeKeepsTokens(tokens: Tokens, uses: map<string, Use>, id: string, nowMs: int)
    requires TokensOk(tokens, uses)
    ensures TokensOk(TokenRevoked(tokens, id, nowMs), uses)
  {
    assert Consumed(TokenRevoked(tokens, id, nowMs)) == Consumed(tokens);
  }

  /** An Enroll call ends: its token becomes the agent's, or is lost. */
  lemma LandingKeepsFlights(enrolls: map<nat, string>, uses: map<string, Use>, call: nat, u: Use)
    requires FlightsOk(enrolls, uses) && call in enrolls && !u.InFlight?
    ensures FlightsOk(enrolls - {call}, uses[enrolls[call] := u])
  {}

  lemma LosingKeepsOwners(origin: map<string, string>, uses: map<string, Use>, t: string)
    requires OwnersOk(origin, uses) && t in uses && !uses[t].Registered?
    ensures OwnersOk(origin, uses[t := Lost])
  {}

  lemma RegistrationKeepsSerials(agents: Agents, serials: map<string, seq<string>>, id: string, row: AgentRow)
    requires SerialsOk(agents, serials) && Registrable(agents, id, row.serial)
    ensures SerialsOk(agents[id := row], serials[id := [row.serial]])
  {}

  lemma RegisterKeepsInv(s: State, call: nat, id: string, row: AgentRow)
    requires Inv(s) && call in s.enrolls && Registrable(s.agents, id, row.serial)
    ensures Inv(AfterRegister(s, call, id, row))
  {
    var t := s.enrolls[call];
    LandingKeepsFlights(s.enrolls, s.uses, call, Registered(id));
    LandingKeepsOwners(s.origin, s.uses, t, id);
    RegistrationKeepsSerials(s.agents, s.serials, id, row);
    assert s.uses[t := Registered(id)].Keys == s.uses.Keys;
  }

  lemma LossKeepsInv(s: State, call: nat)
    requires Inv(s) && call in s.enrolls
    ensures Inv(AfterLoss(s, call))
  {
    var t := s.enrolls[call];
    LandingKeepsFlights(s.enrolls, s.uses, call, Lost);
    LosingKeepsOwners(s.origin, s.uses, t);
    assert s.uses[t := Lost].Keys == s.uses.Keys;
  }

  lemma LandingKeepsOwners(origin: map<string, string>, uses: map<string, Use>, t: string, id: string)
    requires OwnersOk(origin, uses) && t in uses && !uses[t].Registered? && id !in origin
    ensures OwnersOk(origin[id := t], uses[t := Registered(id)])
  {}

  lemma RenewalKeepsSerials(agents: Agents, serials: map<string, seq<string>>, id: string, row: AgentRow)
    requires SerialsOk(agents, serials) && Updatable(agents, id, row.serial)
    ensures SerialsOk(agents[id := row], serials[id := serials[id] + [row.serial]])
  {}

  lemma RenewKeepsInv(s: State, call: nat, id: string, row: AgentRow)
    requires Inv(s) && Updatable(s.agents, id, row.serial)
    ensures Inv(AfterRenew(s, call, id, row))
  {
    RenewalKeepsSerials(s.agents, s.serials, id, row);
    assert s.agents[id := row].Keys == s.agents.Keys;
  }

  lemma RestartKeepsInv(c: Config, s: State)
    requires Inv(s)
    ensures Inv(Apply(c, s, Restart))
  {
    assert LoseFlights(s.uses).Keys == s.uses.Keys;
  }

  lemma TokenStepKeepsInv(c: Config, s: State, step: Step)
    requires Inv(s) && (step.CreateToken? || step.RevokeToken?)
    ensures Inv(Apply(c, s, step))
  {
    match step
    case CreateToken(creator, raw, now, ttl) =>
      if TokenInsertable(c, s.tokens, creator, raw, ttl) {
        InsertKeepsTokens(c, s.tokens, s.uses, creator, raw, now, ttl);
      }
    case RevokeToken(id, now) => RevokeKeepsTokens(s.tokens, s.uses, id, Millis(now));
  }

  lemma RevocationKeepsSerials(agents: Agents, serials: map<string, seq<string>>, id: string, nowMs: int)
    requires SerialsOk(agents, serials)
    ensures SerialsOk(AgentRevoked(agents, id, nowMs), serials)
  {}

  lemma AgentsKeepInv(s: State, agents: Agents)
    requires Inv(s) && SerialsOk(agents, s.serials)
    ensures Inv(s.(agents := agents))
  {}

  lemma RevokeAgentKeepsInv(c: Config, s: State, id: string, now: int)
    requires Inv(s)
    ensures Inv(Apply(c, s, RevokeAgent(id, now)))
  {
    RevocationKeepsSerials(s.agents, s.serials, id, Millis(now));
    AgentsKeepInv(s, AgentRevoked(s.agents, id, Millis(now)));
  }

  lemma StartKeepsInv(c: Config, s: State, call: nat, valid: bool, token: string, now: int)
    requires Inv(s)
    ensures Inv(Apply(c, s, EnrollStart(call, valid, token, now)))
  {
    if call !in s.enrolls && valid && Presented(c, token).Some? {
      ConsumeKeepsInv(s, call, Presented(c, token).value, Millis(now));
    }
  }

  lemma FinishKeepsInv(c: Config, s: State, step: Step)
    requires Inv(s) && step.EnrollFinish?
    ensures Inv(Apply(c, s, step))
  {
    if step.call in s.enrolls {
      var row := AgentRow(step.serial, Millis(step.now + Validity(c)), step.hostname, Millis(step.created), None);
      FinishIs(c, s, step, row);
      if step.signed && Registrable(s.agents, step.id, step.serial) {
        RegisterKeepsInv(s, step.call, step.id, row);
      } else {
        LossKeepsInv(s, step.call);
      }
    }
  }

  lemma FinishIs(c: Config, s: State, step: Step, row: AgentRow)
    requires step.EnrollFinish? && step.call in s.enrolls
    requires row == AgentRow(step.serial, Millis(step.now + Validity(c)), step.hostname, Millis(step.created), None)
    ensures Apply(c, s, step) == if step.signed && Registrable(s.agents, step.id, step.serial)
                                 then AfterRegister(s, step.call, step.id, row) else AfterLoss(s, step.call)
  {}

  lemma RenewalsDoNotMatter(s: State, renews: map<nat, string>)
    requires Inv(s)
    ensures Inv(s.(renews := renews))
  {}

  lemma RenewIs(c: Config, s: State, step: Step, id: string)
    requires step.RenewFinish? && step.call in s.renews && id == s.renews[step.call]
    ensures Apply(c, s, step) == if step.signed && Updatable(s.agents, id, step.serial)
                                 then AfterRenew(s, step.call, id,
                                     s.agents[id].(serial := step.serial, expires := Millis(step.now + Validity(c))))
                                 else s.(renews := s.renews - {step.call})
  {}

  lemma RenewFinishKeepsInv(c: Config, s: State, step: Step)
    requires Inv(s) && step.RenewFinish?
    ensures Inv(Apply(c, s, step))
  {
    if step.call in s.renews {
      var id := s.renews[step.call];
      RenewIs(c, s, step, id);
      if step.signed && Updatable(s.agents, id, step.serial) {
        RenewKeepsInv(s, step.call, id,
            s.agents[id].(serial := step.serial, expires := Millis(step.now + Validity(c))));
      } else {
        RenewalsDoNotMatter(s, s.renews - {step.call});
      }
    }
  }

  lemma StepKeepsInv(c: Config, s: State, step: Step)
    requires Inv(s)
    ensures Inv(Apply(c, s, step))
  {
    match step
    case EnrollStart(call, valid, token, now) => StartKeepsInv(c, s, call, valid, token, now);
    case EnrollFinish(_, _, _, _, _, _, _) => FinishKeepsInv(c, s, step);
    case RenewStart(_, _, _) => RenewalsDoNotMatter(s, Apply(c, s, step).renews);
    case RenewFinish(_, _, _, _) => RenewFinishKeepsInv(c, s, step);
    case RevokeAgent(id, now) => RevokeAgentKeepsInv(c, s, id, now);
    case Restart => RestartKeepsInv(c, s);
    case _ => TokenStepKeepsInv(c, s, step);
  }

  lemma {:induction false} IdentityInvariant(c: Config, steps: seq<Step>)
    ensures Inv(Run(c, INITIAL, steps))
  {
    if steps == [] {
    } else {
      IdentityInvariant(c, steps[..|steps| - 1]);
      StepKeepsInv(c, Run(c, INITIAL, steps[..|steps| - 1]), steps[|steps| - 1]);
    }
  }

  // ---- Conservation ----

  function LostTokens(uses: map<string, Use>): set<string> {
    set t | t in uses && uses[t].Lost?
  }

  /** Every agent was paid for with a consumed token of its own, and no token was both consumed and revoked. */
  lemma {:induction false} EachAgentSpentItsOwnToken(c: Config, steps: seq<Step>)
    ensures var s := Run(c, INITIAL, steps);
            && (forall a :: a in s.agents ==> a in s.origin && s.origin[a] in Consumed(s.tokens))
            && (forall a, b :: a in s.agents && b in s.agents && s.origin[a] == s.origin[b] ==> a == b)
            && (forall t :: t in s.tokens ==> s.tokens[t].consumed.None? || s.tokens[t].revoked.None?)
  {
    IdentityInvariant(c, steps);
  }

  lemma {:induction false} InjectiveSize<K, V>(m: map<K, V>)
    requires forall a, b :: a in m && b in m && m[a] == m[b] ==> a == b
    ensures |m.Values| == |m|
    decreases |m|
  {
    if m == map[] {
      assert m.Values == {};
    } else {
      var k :| k in m;
      var rest := m - {k};
      InjectiveSize(rest);
      assert m.Values == rest.Values + {m[k]} by {
        forall v | v in m.Values ensures v in rest.Values + {m[k]} {
          var a :| a in m && m[a] == v;
          assert a == k || (a in rest && rest[a] == v);
        }
      }
      assert |m.Keys| == |rest.Keys| + 1 by {
        assert m.Keys == rest.Keys + {k};
      }
    }
  }

  /** No token is minted or vanishes: the consumed ones are the agents', those of Enroll calls in flight,
      and those lost by calls that failed after consuming. */
  lemma {:induction false} TokensAreConserved(c: Config, steps: seq<Step>)
    ensures var s := Run(c, INITIAL, steps);
            |Consumed(s.tokens)| == |s.agents| + |s.enrolls| + |LostTokens(s.uses)|
  {
    var s := Run(c, INITIAL, steps);
    IdentityInvariant(c, steps);
    Partition(s.enrolls, s.origin, s.uses);
    InjectiveSize(s.origin);
    InjectiveSize(s.enrolls);
    assert |s.origin| == |s.origin.Keys| && |s.agents| == |s.agents.Keys|;
  }

  lemma Partition(enrolls: map<nat, string>, origin: map<string, string>, uses: map<string, Use>)
    requires FlightsOk(enrolls, uses) && OwnersOk(origin, uses)
    ensures uses.Keys == origin.Values + enrolls.Values + LostTokens(uses)
    ensures origin.Values !! enrolls.Values !! LostTokens(uses)
  {
    forall t | t in uses ensures t in origin.Values + enrolls.Values + LostTokens(uses) {
      match uses[t]
      case InFlight(call) => assert enrolls[call] == t;
      case Registered(a) => assert origin[a] == t;
      case Lost =>
    }
  }

  // ---- Tokens are single use ----

  lemma SettledTokenKept(c: Config, s: State, step: Step, t: string)
    requires t in s.tokens && !Active(s.tokens[t])
    ensures t in Apply(c, s, step).tokens && Apply(c, s, step).tokens[t] == s.tokens[t]
  {
    match step
    case EnrollStart(call, valid, token, now) =>
      if call !in s.enrolls && valid && Presented(c, token).Some? {
        assert Spent(s.tokens, Presented(c, token).value, Millis(now))[t] == s.tokens[t];
      }
    case _ =>
  }

  /** A consumed or revoked token never changes again. */
  lemma {:induction false} SettledTokenStays(c: Config, s: State, steps: seq<Step>, t: string)
    requires t in s.tokens && !Active(s.tokens[t])
    ensures t in Run(c, s, steps).tokens && Run(c, s, steps).tokens[t] == s.tokens[t]
  {
    if steps == [] {
    } else {
      SettledTokenStays(c, s, steps[..|steps| - 1], t);
      SettledTokenKept(c, Run(c, s, steps[..|steps| - 1]), steps[|steps| - 1], t);
    }
  }

  /** The consuming update settles the one token that matches, or nothing. */
  lemma ConsumesExactly(s: State, call: nat, hash: string, nowMs: int)
    requires UniqueHashes(s.tokens) && call !in s.enrolls
    ensures var t := AfterConsume(s, call, hash, nowMs);
            && (call in t.enrolls <==> exists id :: id in s.tokens && Spendable(s.tokens[id], hash, nowMs))
            && (call in t.enrolls ==> (
                 && t.enrolls[call] in s.tokens && Spendable(s.tokens[t.enrolls[call]], hash, nowMs)
                 && t.tokens == s.tokens[t.enrolls[call] := s.tokens[t.enrolls[call]].(consumed := Some(nowMs))]))
            && (call !in t.enrolls ==> t.tokens == s.tokens)
  {
    var m := Matching(s.tokens, hash, nowMs);
    AtMostOneMatches(s.tokens, hash, nowMs);
    if |m| == 1 {
      assert Only(m) in s.tokens && Spendable(s.tokens[Only(m)], hash, nowMs);
      SpendOne(s.tokens, hash, nowMs, Only(m));
    } else {
      assert m == {};
      SpendNone(s.tokens, hash, nowMs);
      forall id | id in s.tokens ensures !Spendable(s.tokens[id], hash, nowMs) {
        assert id !in m;
      }
    }
  }

  /** Consuming succeeds exactly with a well-formed token whose hash is stored, neither consumed nor revoked
      nor expired; it then settles that one token and leaves every other alone. */
  lemma {:induction false} ConsumeSucceedsExactly(c: Config, steps: seq<Step>, call: nat, token: string, now: int)
    requires call !in Run(c, INITIAL, steps).enrolls
    ensures var s := Run(c, INITIAL, steps);
            var t := Apply(c, s, EnrollStart(call, true, token, now));
            && (call in t.enrolls <==> exists id :: id in s.tokens && Usable(c, s.tokens[id], token, now))
            && (call in t.enrolls ==> (
                 && t.enrolls[call] in s.tokens && Usable(c, s.tokens[t.enrolls[call]], token, now)
                 && t.tokens == s.tokens[t.enrolls[call] := s.tokens[t.enrolls[call]].(consumed := Some(Millis(now)))]))
            && (call !in t.enrolls ==> t.tokens == s.tokens)
  {
    IdentityInvariant(c, steps);
    var s := Run(c, INITIAL, steps);
    if Presented(c, token).Some? {
      var hash := Presented(c, token).value;
      ConsumesExactly(s, call, hash, Millis(now));
      forall id | id in s.tokens ensures Usable(c, s.tokens[id], token, now)
                                    <==> Spendable(s.tokens[id], hash, Millis(now)) {}
    }
  }

  /** What a token's row must be for the token to be accepted, field by field. */
  ghost predicate Usable(c: Config, t: TokenRow, token: string, now: int) {
    && Decode(token).Some? && |Decode(token).value| == 32 && t.hash == c.hashOf(token, Decode(token).value)
    && t.consumed == None && t.revoked == None && Millis(now) <= t.expires
  }

  // ---- Expired tokens ----

  ghost predicate SpentInTime(tokens: Tokens) {
    forall t :: t in tokens && tokens[t].consumed.Some? ==> tokens[t].consumed.value <= tokens[t].expires
  }

  lemma StepSpendsInTime(c: Config, s: State, step: Step)
    requires SpentInTime(s.tokens)
    ensures SpentInTime(Apply(c, s, step).tokens)
  {
    match step
    case EnrollStart(call, valid, token, now) =>
      if call !in s.enrolls && valid && Presented(c, token).Some? {
        assert Apply(c, s, step).tokens == Spent(s.tokens, Presented(c, token).value, Millis(now));
      }
    case _ =>
  }

  lemma {:induction false} SpentInTimeInvariant(c: Config, steps: seq<Step>)
    ensures SpentInTime(Run(c, INITIAL, steps).tokens)
  {
    if steps == [] {
    } else {
      SpentInTimeInvariant(c, steps[..|steps| - 1]);
      StepSpendsInTime(c, Run(c, INITIAL, steps[..|steps| - 1]), steps[|steps| - 1]);
    }
  }

  /** In every run no token was consumed after it had expired, and every agent's own token was consumed in
      time. */
  lemma {:induction false} ExpiredTokensEnrollNobody(c: Config, steps: seq<Step>)
    ensures var s := Run(c, INITIAL, steps);
            && (forall t :: t in s.tokens && s.tokens[t].consumed.Some? ==>
                 s.tokens[t].consumed.value <= s.tokens[t].expires)
            && (forall a :: a in s.agents ==>
                 && a in s.origin && s.origin[a] in s.tokens && s.tokens[s.origin[a]].consumed.Some?
                 && s.tokens[s.origin[a]].consumed.value <= s.tokens[s.origin[a]].expires)
  {
    SpentInTimeInvariant(c, steps);
    EachAgentSpentItsOwnToken(c, steps);
  }

  // ---- A token from its creation on ----

  /** The row keeps what it was created with; only `consumed` and `revoked` are ever set. */
  lemma TokenKept(c: Config, s: State, step: Step, t: string)
    requires t in s.tokens
    ensures t in Apply(c, s, step).tokens
    ensures var before, after := s.tokens[t], Apply(c, s, step).tokens[t];
      after == before.(consumed := after.consumed, revoked := after.revoked)
  {
    match step
    case EnrollStart(call, valid, token, now) =>
      if call !in s.enrolls && valid && Presented(c, token).Some? {
        ConsumeKeepsToken(s, call, Presented(c, token).value, Millis(now), t);
      }
    case _ =>
  }

  lemma ConsumeKeepsToken(s: State, call: nat, hash: string, nowMs: int, t: string)
    requires t in s.tokens
    ensures var after := AfterConsume(s, call, hash, nowMs).tokens;
      t in after && (after[t] == s.tokens[t] || after[t] == s.tokens[t].(consumed := Some(nowMs)))
  {}

  lemma {:induction false} TokenStays(c: Config, s: State, steps: seq<Step>, t: string)
    requires t in s.tokens
    ensures t in Run(c, s, steps).tokens
    ensures var before, after := s.tokens[t], Run(c, s, steps).tokens[t];
      after == before.(consumed := after.consumed, revoked := after.revoked)
  {
    if steps == [] {
    } else {
      TokenStays(c, s, steps[..|steps| - 1], t);
      TokenKept(c, Run(c, s, steps[..|steps| - 1]), steps[|steps| - 1], t);
    }
  }

  /** The text of a created token, presented after any continuation, is accepted exactly while its row is
      neither consumed nor revoked and its lifetime has not passed; accepting it consumes that row. */
  lemma {:induction false} CreatedTokenIsAcceptedExactly(c: Config, prefix: seq<Step>, creator: string, raw: Secret,
      now: int, ttl: int, rest: seq<Step>, call: nat, later: int)
    requires TokenInsertable(c, Run(c, INITIAL, prefix).tokens, creator, raw, ttl)
    requires call !in Run(c, INITIAL, prefix + [CreateToken(creator, raw, now, ttl)] + rest).enrolls
    ensures var s := Run(c, INITIAL, prefix + [CreateToken(creator, raw, now, ttl)] + rest);
            var t := Apply(c, s, EnrollStart(call, true, Encode(raw), later));
            && c.idOf(raw) in s.tokens
            && var row := s.tokens[c.idOf(raw)];
            && row.creator == (if creator == "" then None else Some(creator)) && row.expires == Millis(now + ttl)
            && (call in t.enrolls <==> row.consumed.None? && row.revoked.None? && Millis(later) <= Millis(now + ttl))
            && (call in t.enrolls ==>
                 t.enrolls[call] == c.idOf(raw)
                     && t.tokens == s.tokens[c.idOf(raw) := row.(consumed := Some(Millis(later)))])
  {
    var start := prefix + [CreateToken(creator, raw, now, ttl)];
    assert start[..|start| - 1] == prefix;
    RunTail(c, INITIAL, start, rest);
    var created := Run(c, INITIAL, start);
    TokenStays(c, created, rest, c.idOf(raw));
    DecodeUndoesEncode(raw);
    ConsumeSucceedsExactly(c, start + rest, call, Encode(raw), later);
    IdentityInvariant(c, start + rest);
    var s := Run(c, INITIAL, start + rest);
    assert s.tokens[c.idOf(raw)].hash == c.hashOf(Encode(raw), raw);
    assert s.tokens[c.idOf(raw)].expires == Millis(now + ttl);
  }

  /** A settled token is refused at every later point of every run. */
  lemma {:induction false} SettledTokenIsRefused(c: Config, prefix: seq<Step>, rest: seq<Step>, t: string,
      token: string, call: nat, now: int)
    requires var s := Run(c, INITIAL, prefix);
             t in s.tokens && !Active(s.tokens[t]) && Presented(c, token) == Some(s.tokens[t].hash)
    requires call !in Run(c, INITIAL, prefix + rest).enrolls
    ensures call !in Apply(c, Run(c, INITIAL, prefix + rest), EnrollStart(call, true, token, now)).enrolls
  {
    var s := Run(c, INITIAL, prefix + rest);
    RunTail(c, INITIAL, prefix, rest);
    SettledTokenStays(c, Run(c, INITIAL, prefix), rest, t);
    IdentityInvariant(c, prefix + rest);
    ConsumesExactly(s, call, s.tokens[t].hash, Millis(now));
  }

  /** Revoking a token settles it, unless it is settled already: from then on it is refused. */
  lemma {:induction false} RevokedTokenIsRefused(c: Config, prefix: seq<Step>, t: string, when: int,
      rest: seq<Step>, token: string, call: nat, now: int)
    requires t in Run(c, INITIAL, prefix).tokens
    requires Presented(c, token) == Some(Run(c, INITIAL, prefix).tokens[t].hash)
    requires call !in Run(c, INITIAL, prefix + [RevokeToken(t, when)] + rest).enrolls
    ensures var s := Run(c, INITIAL, prefix);
            Apply(c, s, RevokeToken(t, when)).tokens == if s.tokens[t].consumed.None? && s.tokens[t].revoked.None?
              then s.tokens[t := s.tokens[t].(revoked := Some(Millis(when)))] else s.tokens
    ensures var u := Run(c, INITIAL, prefix + [RevokeToken(t, when)] + rest);
            call !in Apply(c, u, EnrollStart(call, true, token, now)).enrolls
  {
    var start := prefix + [RevokeToken(t, when)];
    assert start[..|start| - 1] == prefix;
    SettledTokenIsRefused(c, start, rest, t, token, call, now);
  }

  lemma {:induction false} RunTail(c: Config, s: State, prefix: seq<Step>, rest: seq<Step>)
    ensures Run(c, s, prefix + rest) == Run(c, Run(c, s, prefix), rest)
  {
    if rest == [] {
      assert prefix + rest == prefix;
    } else {
      var all := prefix + rest;
      assert all[..|all| - 1] == prefix + rest[..|rest| - 1] && all[|all| - 1] == rest[|rest| - 1];
      RunTail(c, s, prefix, rest[..|rest| - 1]);
    }
  }

  // ---- Revocation ----

  lemma RevokedKept(c: Config, s: State, step: Step, a: string)
    requires a in s.agents && s.agents[a].revoked.Some?
    ensures a in Apply(c, s, step).agents && Apply(c, s, step).agents[a] == s.agents[a]
  {
    match step
    case EnrollStart(_, _, _, _) =>
    case _ =>
  }

  /** A revoked identity's row never changes again, whatever renewals are in flight. */
  lemma {:induction false} RevokedStays(c: Config, s: State, steps: seq<Step>, a: string)
    requires a in s.agents && s.agents[a].revoked.Some?
    ensures a in Run(c, s, steps).agents && Run(c, s, steps).agents[a] == s.agents[a]
  {
    if steps == [] {
    } else {
      RevokedStays(c, s, steps[..|steps| - 1], a);
      RevokedKept(c, Run(c, s, steps[..|steps| - 1]), steps[|steps| - 1], a);
    }
  }

  /** From the revocation on, no serial is authorized, no renewal starts, and one in flight fails. */
  lemma {:induction false} RevocationIsFinal(c: Config, s: State, a: string, when: int, steps: seq<Step>,
      serial: string, now: int, call: nat, signed: bool)
    requires a in s.agents
    ensures var t := Run(c, Apply(c, s, RevokeAgent(a, when)), steps);
            && !Authorized(t.agents, a, serial, Millis(now))
            && !Renewable(t.agents, a, Millis(now))
            && (call in t.renews && t.renews[call] == a ==>
                 Apply(c, t, RenewFinish(call, signed, serial, now)).agents == t.agents)
  {
    RevokedStays(c, Apply(c, s, RevokeAgent(a, when)), steps, a);
  }

  // ---- Authorization ----

  /** A connection is authorized exactly with the serial stored last for an agent that is neither revoked
      nor expired. */
  lemma {:induction false} AuthorizedExactly(c: Config, steps: seq<Step>, a: string, serial: string, now: int)
    ensures var s := Run(c, INITIAL, steps);
            Authorized(s.agents, a, serial, Millis(now)) <==>
            && a in s.agents && s.agents[a].revoked.None? && s.agents[a].expires >= Millis(now)
            && a in s.serials && s.serials[a] != [] && s.serials[a][|s.serials[a]| - 1] == serial
  {
    IdentityInvariant(c, steps);
  }

  /** A serial authorizes one agent only. */
  lemma {:induction false} SerialIdentifiesTheAgent(c: Config, steps: seq<Step>, a: string, b: string, serial: string,
      now: int, later: int)
    requires Authorized(Run(c, INITIAL, steps).agents, a, serial, Millis(now))
    requires Authorized(Run(c, INITIAL, steps).agents, b, serial, Millis(later))
    ensures a == b
  {
    IdentityInvariant(c, steps);
  }

  /** Serials are only ever added, and only by a registration or a granted renewal. */
  lemma {:induction false} SerialsChangeExactly(c: Config, s: State, step: Step, a: string)
    requires a in s.agents && a in s.serials
    ensures a in Apply(c, s, step).agents && a in Apply(c, s, step).serials
    ensures Apply(c, s, step).serials[a] != s.serials[a] <==>
              step.RenewFinish? && step.signed && step.call in s.renews && s.renews[step.call] == a
                  && Updatable(s.agents, a, step.serial)
    ensures Apply(c, s, step).agents[a].serial != s.agents[a].serial ==>
      Apply(c, s, step).serials[a] == s.serials[a] + [Apply(c, s, step).agents[a].serial]
  {
    if step.RenewFinish? {
      assert s.serials[a] + [step.serial] != s.serials[a];
    }
  }

  /** Expiry is checked when a renewal starts, not when it finishes: an identity that has expired since
      is authorized again by a renewal still in flight. */
  lemma {:induction false} LateRenewalRevives(c: Config, s: State, call: nat, serial: string, now: int)
    requires call in s.renews && s.renews[call] in s.agents
    requires s.agents[s.renews[call]].expires < Millis(now)
    ensures var t := Apply(c, s, RenewFinish(call, true, serial, now));
            && (forall x :: !Authorized(s.agents, s.renews[call], x, Millis(now)))
            && (Updatable(s.agents, s.renews[call], serial) <==>
                 Authorized(t.agents, s.renews[call], serial, Millis(now)))
  {}

  // ---- What a registration and a renewal store ----

  /** How long an identity is valid: as configured, or a day. */
  ghost predicate ValidUntil(c: Config, from: int, later: int) {
    Millis(later) <= Millis(from + if c.validity > 0 then c.validity else 86_400_000_000_000)
  }

  /** An Enroll call that holds a token registers exactly with a signed request and an id and a serial that are
      set and new. The agent is then authorized exactly with that serial, for the configured time; its token
      is the one the call consumed. Otherwise no agent changes. */
  lemma {:induction false} EnrollFinishExactly(c: Config, s: State, call: nat, signed: bool, id: string,
      serial: string, hostname: string, now: int, created: int, other: string, later: int)
    requires call in s.enrolls
    ensures var t := Apply(c, s, EnrollFinish(call, signed, id, serial, hostname, now, created));
            var isNew := id != "" && id !in s.agents && serial != "" && serial !in AllSerials(s.agents);
            if signed && isNew then
              && t.agents.Keys == s.agents.Keys + {id} && (forall x :: x in s.agents ==> t.agents[x] == s.agents[x])
              && t.agents[id].hostname == hostname && t.agents[id].created == Millis(created)
              && id in t.origin && t.origin[id] == s.enrolls[call]
              && (Authorized(t.agents, id, other, Millis(later)) <==> other == serial && ValidUntil(c, now, later))
            else t.agents == s.agents
  {}

  function AllSerials(agents: Agents): set<string> {
    set x | x in agents :: agents[x].serial
  }

  lemma SerialOfOthers(agents: Agents, id: string, serial: string)
    ensures serial !in AllSerials(agents - {id})
       <==> forall x :: x in agents && x != id ==> agents[x].serial != serial
  {
    forall x | x in agents && x != id ensures agents[x].serial in AllSerials(agents - {id}) {
      assert x in agents - {id} && (agents - {id})[x] == agents[x];
    }
  }

  /** A renewal starts exactly for a named agent that is neither revoked nor expired. */
  lemma {:induction false} RenewStartsExactly(c: Config, s: State, call: nat, id: string, now: int)
    requires call !in s.renews
    ensures var t := Apply(c, s, RenewStart(call, id, now));
            && t.agents == s.agents && t.tokens == s.tokens
            && (call in t.renews <==>
                  id != "" && id in s.agents && s.agents[id].revoked == None && Millis(now) <= s.agents[id].expires)
            && (call in t.renews ==> t.renews[call] == id)
  {}

  /** A renewal in flight is stored exactly when it is signed, its agent is not revoked and no other agent has
      the serial: then the agent is authorized exactly with the new serial, for the configured time. */
  lemma {:induction false} RenewFinishExactly(c: Config, s: State, call: nat, signed: bool, serial: string, now: int,
      other: string, later: int)
    requires call in s.renews
    ensures var id, t := s.renews[call], Apply(c, s, RenewFinish(call, signed, serial, now));
            if signed && id in s.agents && s.agents[id].revoked == None && serial !in AllSerials(s.agents - {id}) then
              && t.agents.Keys == s.agents.Keys && (forall x :: x in s.agents && x != id ==> t.agents[x] == s.agents[x])
              && t.agents[id].hostname == s.agents[id].hostname && t.agents[id].created == s.agents[id].created
              && (Authorized(t.agents, id, other, Millis(later)) <==> other == serial && ValidUntil(c, now, later))
            else t.agents == s.agents
  {
    SerialOfOthers(s.agents, s.renews[call], serial);
  }

  /** A revocation marks an agent once, with its time, and changes no other. */
  lemma {:induction false} RevokesOnce(c: Config, s: State, a: string, when: int)
    requires a in s.agents
    ensures Apply(c, s, RevokeAgent(a, when)).agents ==
      if s.agents[a].revoked == None then s.agents[a := s.agents[a].(revoked := Some(Millis(when)))] else s.agents
  {}

  // ---- The service ----

  lemma RunTwo(c: Config, s: State, x: Step, y: Step)
    ensures Run(c, s, [x, y]) == Apply(c, Apply(c, s, x), y)
  {
    assert [x, y][..1] == [x];
    assert Run(c, s, [x]) == Apply(c, s, x);
  }

  /** The tables after an Enroll call whose request is valid and whose token is well formed. */
  lemma EnrollRuns(c: Config, s: State, call: nat, token: string, now: int, signed: bool, id: string, serial: string,
      hostname: string, registered: int, created: int)
    requires call !in s.enrolls && Presented(c, token).Some?
    ensures var hash := Presented(c, token).value;
            var t := Run(c, s,
                [EnrollStart(call, true, token, now),
                    EnrollFinish(call, signed, id, serial, hostname, registered, created)]);
            && t.tokens == Spent(s.tokens, hash, Millis(now))
            && t.agents == if |Matching(s.tokens, hash, Millis(now))| == 1 && signed
                 && Registrable(s.agents, id, serial)
                           then s.agents[id :=
                               AgentRow(serial, Millis(registered + Validity(c)), hostname, Millis(created), None)]
                           else s.agents
  {
    RunTwo(c, s, EnrollStart(call, true, token, now),
        EnrollFinish(call, signed, id, serial, hostname, registered, created));
    assert Apply(c, s, EnrollStart(call, true, token, now))
        == AfterConsume(s, call, Presented(c, token).value, Millis(now));
  }

  /** The agents after a Renew call. */
  lemma RenewRuns(c: Config, s: State, call: nat, id: string, now: int, signed: bool, serial: string, updated: int)
    requires call !in s.renews
    ensures var t := Run(c, s, [RenewStart(call, id, now), RenewFinish(call, signed, serial, updated)]);
            && t.tokens == s.tokens
            && t.agents == if id != "" && Renewable(s.agents, id, Millis(now)) && signed
                 && Updatable(s.agents, id, serial)
                           then s.agents[id :=
                               s.agents[id].(serial := serial, expires := Millis(updated + Validity(c)))]
                           else s.agents
  {
    RunTwo(c, s, RenewStart(call, id, now), RenewFinish(call, signed, serial, updated));
    var granted := id != "" && Renewable(s.agents, id, Millis(now));
    var t := Apply(c, s, RenewStart(call, id, now));
    assert t == if granted then s.(renews := s.renews[call := id]) else s;
    if granted {
      RenewIs(c, t, RenewFinish(call, signed, serial, updated), id);
    } else {
      RenewUnknown(c, s, call, signed, serial, updated);
    }
  }

  lemma RenewUnknown(c: Config, s: State, call: nat, signed: bool, serial: string, now: int)
    requires call !in s.renews
    ensures Apply(c, s, RenewFinish(call, signed, serial, now)) == s
  {}

  class Enrollment {
    const config: Config
    const tokens: EnrollmentManager
    const identities: IdentityRegistry

    /** This service holds the tables of the state. */
    ghost predicate Is(s: State)
      reads this, tokens, identities
    {
      s.tokens == tokens.tokens && s.agents == identities.agents && tokens.config == config
    }

    constructor (tokens: EnrollmentManager, identities: IdentityRegistry)
      ensures config == tokens.config && this.tokens == tokens && this.identities == identities
    {
      this.config, this.tokens, this.identities := tokens.config, tokens, identities;
    }

    /** `id` and `serial` are the values drawn; `now` is read twice more after the token is consumed. */
    method Enroll(ghost call: nat, validRequest: bool, token: string, now: int, signed: bool, id: string,
        serial: string,
        hostname: string, registered: int, created: int, ghost s: State) returns (agent: Option<string>)
      requires Is(s) && call !in s.enrolls
      modifies tokens, identities
      ensures Is(Run(config, s,
          [EnrollStart(call, validRequest, token, now),
              EnrollFinish(call, signed, id, serial, hostname, registered, created)]))
      ensures agent.Some? <==>
                && validRequest && Presented(config, token).Some?
                     && |Matching(s.tokens, Presented(config, token).value, Millis(now))| == 1
                && signed && id != "" && id !in s.agents && serial != "" && serial !in AllSerials(s.agents)
      ensures agent.Some? ==> exists t :: t in s.tokens && Usable(config, s.tokens[t], token, now)
      ensures agent.Some? ==> agent == Some(id) && id in identities.agents && identities.agents[id].serial == serial
    {
      if validRequest && Presented(config, token).Some? {
        EnrollRuns(config, s, call, token, now, signed, id, serial, hostname, registered, created);
      } else {
        RunTwo(config, s, EnrollStart(call, validRequest, token, now),
            EnrollFinish(call, signed, id, serial, hostname, registered, created));
      }
      if !validRequest {
        return None;
      }
      var consumed := tokens.ConsumeToken(token, now);
      if !consumed {
        return None;
      }
      var validity := config.validity;
      if validity <= 0 {
        validity := DAY;
      }
      if !signed {
        return None;
      }
      var ok := identities.RegisterWithMetadata(id, serial, hostname, registered + validity, created);
      return if ok then Some(id) else None;
    }

    method Renew(ghost call: nat, id: string, now: int, signed: bool, serial: string, updated: int, ghost s: State)
        returns (ok: bool)
      requires Is(s) && call !in s.renews
      modifies identities
      ensures Is(Run(config, s, [RenewStart(call, id, now), RenewFinish(call, signed, serial, updated)]))
      ensures ok <==>
        && id != "" && id in s.agents && s.agents[id].revoked == None && Millis(now) <= s.agents[id].expires
        && signed && serial !in AllSerials(s.agents - {id})
      ensures ok ==> id in identities.agents && identities.agents[id].serial == serial
    {
      RenewRuns(config, s, call, id, now, signed, serial, updated);
      SerialOfOthers(s.agents, id, serial);
      if id == "" {
        return false;
      }
      ok := identities.AuthorizeRenewal(id, now);
      if !ok {
        return false;
      }
      var validity := config.validity;
      if validity <= 0 {
        validity := DAY;
      }
      if !signed {
        return false;
      }
      ok := identities.UpdateCertificate(id, serial, updated + validity);
    }
  }
}
