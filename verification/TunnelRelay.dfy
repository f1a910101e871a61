/** Rendezvous of a client stream and an agent stream on a tunnel session (internal/tunnel/relay.go).
    The relay is modelled step by step: every map access under the lock and every channel operation is
    one step, in any interleaving of calls. Only a wait that is given up is joined with the removal that
    follows it, because nobody else can see it end. */
module TunnelRelay {
  import opened Common
  import opened Protocol

  type Stream = nat  // each stream makes one Serve or one Attach call

  /** A pending record. `offered` and `closes` (how often `done` was closed) are kept for the proofs. */
  datatype Record = Record(session: string, token: seq<Byte>, channel: Option<Stream>, offered: seq<Stream>,
      closes: nat)

  datatype ServePhase = Got(record: nat) | Waiting(record: nat) | Left
  datatype AttachPhase = Bound(record: nat, token: seq<Byte>) | Spliced(splice: nat) | Ending(session: string) | Gone

  datatype Splice = Splice(record: nat, client: Stream, agent: Stream, token: seq<Byte>, finished: bool)

  /** Where a client stream is, once handed over. */
  datatype Place = InChannel(record: nat) | InSplice(splice: nat)

  datatype State = State(
    pending: map<string, nat>, records: seq<Record>,
    serves: map<Stream, ServePhase>, attaches: map<Stream, AttachPhase>,
    splices: seq<Splice>, places: map<Stream, Place>, joined: map<Stream, nat>)

  const INITIAL: State := State(map[], [], map[], map[], [], map[], map[])

  datatype Step =
    | Register(session: string, token: seq<Byte>)
    | Cancel(session: string)
    | ServeGet(stream: Stream, session: string)
    | ServeOffer(stream: Stream)
    | ServeDone(stream: Stream)
    | ServeAbandon(stream: Stream)
    | AttachGet(stream: Stream, session: string, token: seq<Byte>)
    | AttachTake(stream: Stream)
    | AttachAbandon(stream: Stream)
    | AttachClose(stream: Stream)
    | AttachRemove(stream: Stream)

  function Remove(s: State, session: string): State {
    s.(pending := s.pending - {session})
  }

  predicate Registers(s: State, session: string) {
    session != "" && session !in s.pending
  }

  /** The agent presented a non-empty token equal to the record's. */
  predicate Binds(s: State, session: string, token: seq<Byte>) {
    && session in s.pending && s.pending[session] < |s.records|
    && token != [] && s.records[s.pending[session]].token == token
  }

  predicate ServesAt(s: State, stream: Stream) {
    stream in s.serves && !s.serves[stream].Left? && s.serves[stream].record < |s.records|
  }

  predicate BoundAt(s: State, stream: Stream) {
    stream in s.attaches && s.attaches[stream].Bound? && s.attaches[stream].record < |s.records|
  }

  predicate SplicedAt(s: State, stream: Stream) {
    && stream in s.attaches && s.attaches[stream].Spliced? && s.attaches[stream].splice < |s.splices|
    && s.splices[s.attaches[stream].splice].record < |s.records|
  }

  /** The call has closed `done` and not yet dropped the registration. */
  predicate EndingAt(s: State, stream: Stream) {
    stream in s.attaches && s.attaches[stream].Ending?
  }

  function Apply(s: State, step: Step): State {
    match step
    case Register(session, token) =>
      if Registers(s, session) then
        s.(pending := s.pending[session := |s.records|], records := s.records + [Record(session, token, None, [], 0)])
      else s
    case Cancel(session) => Remove(s, session)
    case ServeGet(stream, session) =>
      if stream in s.serves || stream in s.attaches then s
      else s.(serves := s.serves[stream := if session in s.pending then Got(s.pending[session]) else Left])
    case ServeOffer(stream) =>
      if ServesAt(s, stream) && s.serves[stream].Got? then
        var p := s.serves[stream].record;
        if s.records[p].channel.None? then
          s.(records :=
              s.records[p := s.records[p].(channel := Some(stream), offered := s.records[p].offered + [stream])],
             serves := s.serves[stream := Waiting(p)], places := s.places[stream := InChannel(p)])
        else s.(serves := s.serves[stream := Left])
      else s
    case ServeDone(stream) =>
      if ServeSucceeds(s, stream) then s.(serves := s.serves[stream := Left]) else s
    case ServeAbandon(stream) =>
      if ServesAt(s, stream) && s.serves[stream].Waiting? then
        Remove(s, s.records[s.serves[stream].record].session).(serves := s.serves[stream := Left])
      else s
    case AttachGet(stream, session, token) =>
      if stream in s.serves || stream in s.attaches then s
      else s.(attaches :=
          s.attaches[stream := if Binds(s, session, token) then Bound(s.pending[session], token) else Gone])
    case AttachTake(stream) =>
      if BoundAt(s, stream) && s.records[s.attaches[stream].record].channel.Some? then
        var p := s.attaches[stream].record;
        var client := s.records[p].channel.value;
        s.(records := s.records[p := s.records[p].(channel := None)],
           attaches := s.attaches[stream := Spliced(|s.splices|)],
           splices := s.splices + [Splice(p, client, stream, s.attaches[stream].token, false)],
           places := s.places[client := InSplice(|s.splices|)], joined := s.joined[stream := |s.splices|])
      else s
    case AttachAbandon(stream) =>
      if BoundAt(s, stream) then
        Remove(s, s.records[s.attaches[stream].record].session).(attaches := s.attaches[stream := Gone])
      else s
    case AttachClose(stream) =>
      if SplicedAt(s, stream) then
        var k := s.attaches[stream].splice;
        var p := s.splices[k].record;
        s.(records := s.records[p := s.records[p].(closes := s.records[p].closes + 1)],
           splices := s.splices[k := s.splices[k].(finished := true)],
           attaches := s.attaches[stream := Ending(s.records[p].session)])
      else s
    case AttachRemove(stream) =>
      if EndingAt(s, stream) then
        Remove(s, s.attaches[stream].session).(attaches := s.attaches[stream := Gone])
      else s
  }

  /** Serve returns without error: `done` of the record it offered to is closed. */
  predicate ServeSucceeds(s: State, stream: Stream) {
    ServesAt(s, stream) && s.serves[stream].Waiting? && s.records[s.serves[stream].record].closes > 0
  }

  function Run(s: State, steps: seq<Step>): State {
    if steps == [] then s else Apply(Run(s, steps[..|steps| - 1]), steps[|steps| - 1])
  }

  // ---- The relay itself ----

  class Pending {
    const session: string
    const token: seq<Byte>
    var channel: Option<Stream>  // a channel with room for one stream
    var closes: nat

    constructor (session: string, token: seq<Byte>)
      ensures this.session == session && this.token == token && channel == None && closes == 0
    {
      this.session, this.token, channel, closes := session, token, None, 0;
    }
  }

  class Relay {
    var pending: map<string, Pending>
    ghost var records: seq<Pending>
    ghost var model: State

    ghost predicate Matches(p: Pending, r: Record)
      reads p
    {
      p.session == r.session && p.token == r.token && p.channel == r.channel && p.closes == r.closes
    }

    ghost predicate Valid()
      reads this, records
    {
      && |records| == |model.records|
      && (forall i :: 0 <= i < |records| ==> Matches(records[i], model.records[i]))
      && (forall i, j :: 0 <= i < j < |records| ==> records[i] != records[j])
      && pending.Keys == model.pending.Keys
      && (forall id :: id in pending ==> model.pending[id] < |records| && records[model.pending[id]] == pending[id])
    }

    constructor ()
      ensures Valid() && model == INITIAL
    {
      pending, records, model := map[], [], INITIAL;
    }

    method Register(session: string, token: seq<Byte>) returns (ok: bool)
      requires Valid()
      modifies this
      ensures Valid() && model == Apply(old(model), Step.Register(session, token))
      ensures ok <==> session != "" && session !in old(pending)
      ensures !ok ==> records == old(records)
      ensures ok ==> session in pending && fresh(pending[session]) && records == old(records) + [pending[session]]
      ensures ok ==> pending[session].token == token && pending[session].channel == None
    {
      if session == "" || session in pending {
        return false;
      }
      var p := new Pending(session, token);
      pending := pending[session := p];
      records := records + [p];
      model := Apply(model, Step.Register(session, token));
      return true;
    }

    method Cancel(session: string)
      requires Valid()
      modifies this
      ensures Valid() && model == Apply(old(model), Step.Cancel(session)) && records == old(records)
      ensures pending == old(pending) - {session}
    {
      pending := pending - {session};
      model := Apply(model, Step.Cancel(session));
    }

    /** First step of Serve: the lookup under the lock. */
    method ServeGet(stream: Stream, session: string) returns (p: Option<Pending>)
      requires Valid() && stream !in model.serves && stream !in model.attaches
      modifies this
      ensures Valid() && model == Apply(old(model), Step.ServeGet(stream, session)) && records == old(records)
          && pending == old(pending)
      ensures p.Some? <==> session in old(pending)
      ensures p.Some? ==> ServesAt(model, stream) && model.serves[stream] == Got(model.pending[session])
                          && p.value == records[model.serves[stream].record]
    {
      p := if session in pending then Some(pending[session]) else None;
      model := Apply(model, Step.ServeGet(stream, session));
    }

    /** Second step of Serve: the non-blocking send. */
    method ServeOffer(stream: Stream, p: Pending) returns (ok: bool)
      requires Valid() && ServesAt(model, stream) && model.serves[stream].Got?
      requires p == records[model.serves[stream].record]
      modifies this, p
      ensures Valid() && model == Apply(old(model), Step.ServeOffer(stream)) && records == old(records)
          && pending == old(pending)
      ensures ok <==> old(p.channel).None?
      ensures ok ==> p.channel == Some(stream)
      ensures model.serves[stream] == if ok then Waiting(old(model.serves[stream].record)) else Left
    {
      ok := p.channel.None?;
      if ok {
        p.channel := Some(stream);
      }
      model := Apply(model, Step.ServeOffer(stream));
    }

    /** Serve up to its wait, run without interruption, for a registered session. */
    method Offer(stream: Stream, session: string) returns (ok: bool)
      requires Valid() && stream !in model.serves && stream !in model.attaches && session in pending
      modifies this, pending[session]
      ensures Valid() && records == old(records) && pending == old(pending)
      ensures ok <==> old(pending[session].channel).None?
      ensures model == Apply(Apply(old(model), Step.ServeGet(stream, session)), Step.ServeOffer(stream))
      ensures ok ==> pending[session].channel == Some(stream)
    {
      var p := ServeGet(stream, session);
      ok := ServeOffer(stream, p.value);
    }

    /** Serve returns: its record's `done` is closed. */
    method ServeDone(stream: Stream, p: Pending)
      requires Valid() && ServesAt(model, stream) && model.serves[stream].Waiting?
      requires p == records[model.serves[stream].record] && p.closes > 0
      modifies this
      ensures Valid() && model == Apply(old(model), Step.ServeDone(stream)) && model.serves[stream] == Left
    {
      model := Apply(model, Step.ServeDone(stream));
    }

    method ServeAbandon(stream: Stream, p: Pending)
      requires Valid() && ServesAt(model, stream) && model.serves[stream].Waiting?
      requires p == records[model.serves[stream].record]
      modifies this
      ensures Valid() && model == Apply(old(model), Step.ServeAbandon(stream))
      ensures pending == old(pending) - {p.session} && model.serves[stream] == Left
    {
      pending := pending - {p.session};
      model := Apply(model, Step.ServeAbandon(stream));
    }

    /** First step of Attach: lookup and token check. */
    method AttachGet(stream: Stream, session: string, token: seq<Byte>) returns (p: Option<Pending>)
      requires Valid() && stream !in model.serves && stream !in model.attaches
      modifies this
      ensures Valid() && model == Apply(old(model), Step.AttachGet(stream, session, token)) && records == old(records)
      ensures p.Some? <==> session in old(pending) && |token| > 0 && old(pending)[session].token == token
      ensures p.Some? ==> BoundAt(model, stream) && p.value == records[model.attaches[stream].record]
    {
      p := None;
      if session in pending && |token| != 0 && pending[session].token == token {
        p := Some(pending[session]);
      }
      model := Apply(model, Step.AttachGet(stream, session, token));
    }

    /** Second step of Attach: the receive, enabled when a client waits in the channel. */
    method AttachTake(stream: Stream, p: Pending) returns (client: Stream)
      requires Valid() && BoundAt(model, stream) && p == records[model.attaches[stream].record] && p.channel.Some?
      modifies this, p
      ensures Valid() && model == Apply(old(model), Step.AttachTake(stream))
      ensures SplicedAt(model, stream) && model.splices[model.attaches[stream].splice].client == client
    {
      client := p.channel.value;
      p.channel := None;
      model := Apply(model, Step.AttachTake(stream));
    }

    method AttachAbandon(stream: Stream, p: Pending)
      requires Valid() && BoundAt(model, stream) && p == records[model.attaches[stream].record]
      modifies this
      ensures Valid() && model == Apply(old(model), Step.AttachAbandon(stream))
      ensures pending == old(pending) - {p.session} && model.attaches[stream] == Gone
    {
      pending := pending - {p.session};
      model := Apply(model, Step.AttachAbandon(stream));
    }

    /** The deferred end of Attach, first the close of `done`. A second close panics, which ends the
        process; the model counts it and goes on. */
    method AttachClose(stream: Stream, p: Pending) returns (panics: bool)
      requires Valid() && SplicedAt(model, stream)
      requires p == records[model.splices[model.attaches[stream].splice].record]
      modifies this`model, p
      ensures Valid() && model == Apply(old(model), Step.AttachClose(stream)) && records == old(records)
      ensures panics <==> old(p.closes) > 0
      ensures model.attaches[stream] == Ending(p.session)
    {
      panics := p.closes > 0;
      p.closes := p.closes + 1;
      model := Apply(model, Step.AttachClose(stream));
    }

    /** Then, under the lock, the registration is dropped, whichever it is by now. */
    method AttachRemove(stream: Stream, session: string)
      requires Valid() && EndingAt(model, stream) && model.attaches[stream] == Ending(session)
      modifies this
      ensures Valid() && model == Apply(old(model), Step.AttachRemove(stream)) && records == old(records)
      ensures pending == old(pending) - {session} && model.attaches[stream] == Gone
    {
      pending := pending - {session};
      model := Apply(model, Step.AttachRemove(stream));
    }
  }

  // ---- Pairing ----

  function Splices(splices: seq<Splice>, p: nat): nat {
    if splices == [] then 0
    else Splices(splices[..|splices| - 1], p) + if splices[|splices| - 1].record == p then 1 else 0
  }

  function Finished(splices: seq<Splice>, p: nat): nat {
    if splices == [] then 0
    else
      var last := splices[|splices| - 1];
      Finished(splices[..|splices| - 1], p) + if last.record == p && last.finished then 1 else 0
  }

  lemma {:induction false} FinishedAtMost(splices: seq<Splice>, p: nat)
    ensures Finished(splices, p) <= Splices(splices, p)
  {
    if splices == [] {
    } else {
      FinishedAtMost(splices[..|splices| - 1], p);
    }
  }

  lemma {:induction false} FinishOne(splices: seq<Splice>, k: nat, p: nat)
    requires k < |splices| && !splices[k].finished
    ensures var after := splices[k := splices[k].(finished := true)];
            && Splices(after, p) == Splices(splices, p)
            && Finished(after, p) == Finished(splices, p) + if splices[k].record == p then 1 else 0
  {
    var after, last := splices[k := splices[k].(finished := true)], |splices| - 1;
    if k < last {
      FinishOne(splices[..last], k, p);
      assert after[..last] == splices[..last][k := splices[k].(finished := true)];
    } else {
      assert after[..last] == splices[..last];
    }
  }

  lemma AddOne(splices: seq<Splice>, x: Splice, p: nat)
    ensures Splices(splices + [x], p) == Splices(splices, p) + if x.record == p then 1 else 0
    ensures Finished(splices + [x], p) == Finished(splices, p) + if x.record == p && x.finished then 1 else 0
  {
    assert (splices + [x])[..|splices|] == splices;
  }

  ghost predicate Indexed(s: State) {
    && (forall id :: id in s.pending ==> s.pending[id] < |s.records| && s.records[s.pending[id]].session == id)
    && (forall c :: c in s.serves && !s.serves[c].Left? ==> s.serves[c].record < |s.records|)
    && (forall a :: a in s.attaches && s.attaches[a].Bound? ==>
         && s.attaches[a].record < |s.records| && s.attaches[a].token == s.records[s.attaches[a].record].token
         && s.attaches[a].token != []
         && a !in s.joined)
    && (forall a :: a in s.attaches && s.attaches[a].Spliced? ==>
         s.attaches[a].splice < |s.splices| && s.splices[s.attaches[a].splice].agent == a
         && !s.splices[s.attaches[a].splice].finished)
    && s.serves.Keys !! s.attaches.Keys
    && s.places.Keys <= s.serves.Keys && s.joined.Keys <= s.attaches.Keys
    && (forall c :: c in s.serves && s.serves[c].Got? ==> c !in s.places)
  }

  /** Channels and splices hold each client in the one place recorded for it, and each agent likewise. */
  ghost predicate Placed(s: State) {
    && (forall p :: 0 <= p < |s.records| && s.records[p].channel.Some? ==>
         s.records[p].channel.value in s.places && s.places[s.records[p].channel.value] == InChannel(p))
    && (forall k :: 0 <= k < |s.splices| ==>
         && s.splices[k].client in s.places && s.places[s.splices[k].client] == InSplice(k)
         && s.splices[k].agent in s.joined && s.joined[s.splices[k].agent] == k)
  }

  ghost predicate Matched(s: State) {
    && (forall k :: 0 <= k < |s.splices| ==>
         && s.splices[k].record < |s.records|
         && s.splices[k].token == s.records[s.splices[k].record].token && s.splices[k].token != []
         && s.splices[k].client in s.records[s.splices[k].record].offered)
    && (forall p :: 0 <= p < |s.records| && s.records[p].channel.Some? ==>
         s.records[p].channel.value in s.records[p].offered)
    && (forall c :: c in s.serves && s.serves[c].Waiting? ==>
         s.serves[c].record < |s.records| && c in s.records[s.serves[c].record].offered)
  }

  ghost predicate Counted(s: State) {
    forall p :: 0 <= p < |s.records| ==>
      && |s.records[p].offered| == Splices(s.splices, p) + (if s.records[p].channel.Some? then 1 else 0)
      && s.records[p].closes == Finished(s.splices, p)
  }

  lemma RegistryKeepsIndexed(s: State, step: Step)
    requires Indexed(s) && Placed(s) && Matched(s)
    requires step.Register? || step.Cancel?
    ensures Indexed(Apply(s, step))
  {}

  lemma ServeKeepsIndexed(s: State, step: Step)
    requires Indexed(s) && Placed(s) && Matched(s)
    requires step.ServeGet? || step.ServeDone? || step.ServeAbandon?
    ensures Indexed(Apply(s, step))
  {}

  lemma AcceptedOfferKeepsIndexed(s: State, stream: Stream)
    requires Indexed(s) && Placed(s) && Matched(s) && ServesAt(s, stream) && s.serves[stream].Got?
    requires s.records[s.serves[stream].record].channel.None?
    ensures Indexed(Apply(s, ServeOffer(stream)))
  {
    var p, t := s.serves[stream].record, Apply(s, ServeOffer(stream));
    assert forall q :: 0 <= q < |s.records| && q != p ==> t.records[q] == s.records[q];
    assert t.records[p].session == s.records[p].session && t.records[p].token == s.records[p].token;
  }

  lemma RefusedOfferKeepsIndexed(s: State, stream: Stream)
    requires Indexed(s) && Placed(s) && Matched(s) && ServesAt(s, stream) && s.serves[stream].Got?
    requires s.records[s.serves[stream].record].channel.Some?
    ensures Indexed(Apply(s, ServeOffer(stream)))
  {}

  lemma OfferKeepsIndexed(s: State, step: Step)
    requires Indexed(s) && Placed(s) && Matched(s) && step.ServeOffer?
    ensures Indexed(Apply(s, step))
  {
    if ServesAt(s, step.stream) && s.serves[step.stream].Got? {
      if s.records[s.serves[step.stream].record].channel.None? {
        AcceptedOfferKeepsIndexed(s, step.stream);
      } else {
        RefusedOfferKeepsIndexed(s, step.stream);
      }
    }
  }

  lemma BindKeepsIndexed(s: State, step: Step)
    requires Indexed(s) && Placed(s) && Matched(s)
    requires step.AttachGet? || step.AttachAbandon? || step.AttachRemove?
    ensures Indexed(Apply(s, step))
  {}

  lemma TakeKeepsIndexed(s: State, step: Step)
    requires Indexed(s) && Placed(s) && Matched(s)
    requires step.AttachTake?
    ensures Indexed(Apply(s, step))
  {}

  lemma CloseKeepsIndexed(s: State, step: Step)
    requires Indexed(s) && Placed(s) && Matched(s)
    requires step.AttachClose?
    ensures Indexed(Apply(s, step))
  {}

  lemma StepIndexed(s: State, step: Step)
    requires Indexed(s) && Placed(s) && Matched(s)
    ensures Indexed(Apply(s, step))
  {
    match step
    case Register(_, _) => RegistryKeepsIndexed(s, step);
    case Cancel(_) => RegistryKeepsIndexed(s, step);
    case ServeGet(_, _) => ServeKeepsIndexed(s, step);
    case ServeOffer(_) => OfferKeepsIndexed(s, step);
    case ServeDone(_) => ServeKeepsIndexed(s, step);
    case ServeAbandon(_) => ServeKeepsIndexed(s, step);
    case AttachGet(_, _, _) => BindKeepsIndexed(s, step);
    case AttachAbandon(_) => BindKeepsIndexed(s, step);
    case AttachTake(_) => TakeKeepsIndexed(s, step);
    case AttachClose(_) => CloseKeepsIndexed(s, step);
    case AttachRemove(_) => BindKeepsIndexed(s, step);
  }

  lemma OtherKeepsPlaced(s: State, step: Step)
    requires Indexed(s) && Placed(s)
    requires step.Register? || step.Cancel? || step.ServeGet? || step.ServeDone? || step.ServeAbandon?
        || step.AttachGet? || step.AttachAbandon? || step.AttachRemove?
    ensures Placed(Apply(s, step))
  {}

  lemma OfferKeepsPlaced(s: State, step: Step)
    requires Indexed(s) && Placed(s) && step.ServeOffer?
    ensures Placed(Apply(s, step))
  {}

  lemma TakeKeepsPlaced(s: State, step: Step)
    requires Indexed(s) && Placed(s) && step.AttachTake?
    ensures Placed(Apply(s, step))
  {}

  lemma CloseKeepsPlaced(s: State, step: Step)
    requires Indexed(s) && Placed(s) && step.AttachClose?
    ensures Placed(Apply(s, step))
  {}

  lemma StepPlaced(s: State, step: Step)
    requires Indexed(s) && Placed(s)
    ensures Placed(Apply(s, step))
  {
    match step
    case Register(_, _) => OtherKeepsPlaced(s, step);
    case Cancel(_) => OtherKeepsPlaced(s, step);
    case ServeGet(_, _) => OtherKeepsPlaced(s, step);
    case ServeDone(_) => OtherKeepsPlaced(s, step);
    case ServeAbandon(_) => OtherKeepsPlaced(s, step);
    case AttachGet(_, _, _) => OtherKeepsPlaced(s, step);
    case AttachAbandon(_) => OtherKeepsPlaced(s, step);
    case AttachRemove(_) => OtherKeepsPlaced(s, step);
    case ServeOffer(_) => OfferKeepsPlaced(s, step);
    case AttachTake(_) => TakeKeepsPlaced(s, step);
    case AttachClose(_) => CloseKeepsPlaced(s, step);
  }

  lemma RegistryKeepsMatched(s: State, step: Step)
    requires Indexed(s) && Matched(s)
    requires step.Register? || step.Cancel?
    ensures Matched(Apply(s, step))
  {}

  lemma ServeKeepsMatched(s: State, step: Step)
    requires Indexed(s) && Matched(s)
    requires step.ServeGet? || step.ServeDone? || step.ServeAbandon?
    ensures Matched(Apply(s, step))
  {}

  lemma AcceptedOfferKeepsMatched(s: State, stream: Stream)
    requires Indexed(s) && Matched(s) && ServesAt(s, stream) && s.serves[stream].Got?
    requires s.records[s.serves[stream].record].channel.None?
    ensures Matched(Apply(s, ServeOffer(stream)))
  {
    var p, t := s.serves[stream].record, Apply(s, ServeOffer(stream));
    assert forall q :: 0 <= q < |s.records| && q != p ==> t.records[q] == s.records[q];
    assert t.records[p].session == s.records[p].session && t.records[p].token == s.records[p].token;
  }

  lemma RefusedOfferKeepsMatched(s: State, stream: Stream)
    requires Indexed(s) && Matched(s) && ServesAt(s, stream) && s.serves[stream].Got?
    requires s.records[s.serves[stream].record].channel.Some?
    ensures Matched(Apply(s, ServeOffer(stream)))
  {}

  lemma OfferKeepsMatched(s: State, step: Step)
    requires Indexed(s) && Matched(s) && step.ServeOffer?
    ensures Matched(Apply(s, step))
  {
    if ServesAt(s, step.stream) && s.serves[step.stream].Got? {
      if s.records[s.serves[step.stream].record].channel.None? {
        AcceptedOfferKeepsMatched(s, step.stream);
      } else {
        RefusedOfferKeepsMatched(s, step.stream);
      }
    }
  }

  lemma BindKeepsMatched(s: State, step: Step)
    requires Indexed(s) && Matched(s)
    requires step.AttachGet? || step.AttachAbandon? || step.AttachRemove?
    ensures Matched(Apply(s, step))
  {}

  lemma TakeKeepsMatched(s: State, step: Step)
    requires Indexed(s) && Matched(s)
    requires step.AttachTake?
    ensures Matched(Apply(s, step))
  {}

  lemma CloseKeepsMatched(s: State, step: Step)
    requires Indexed(s) && Matched(s)
    requires step.AttachClose?
    ensures Matched(Apply(s, step))
  {}

  lemma StepMatched(s: State, step: Step)
    requires Indexed(s) && Matched(s)
    ensures Matched(Apply(s, step))
  {
    match step
    case Register(_, _) => RegistryKeepsMatched(s, step);
    case Cancel(_) => RegistryKeepsMatched(s, step);
    case ServeGet(_, _) => ServeKeepsMatched(s, step);
    case ServeOffer(_) => OfferKeepsMatched(s, step);
    case ServeDone(_) => ServeKeepsMatched(s, step);
    case ServeAbandon(_) => ServeKeepsMatched(s, step);
    case AttachGet(_, _, _) => BindKeepsMatched(s, step);
    case AttachAbandon(_) => BindKeepsMatched(s, step);
    case AttachTake(_) => TakeKeepsMatched(s, step);
    case AttachClose(_) => CloseKeepsMatched(s, step);
    case AttachRemove(_) => BindKeepsMatched(s, step);
  }

  lemma RegisterKeepsCounted(s: State, step: Step)
    requires Indexed(s) && Matched(s) && Counted(s) && step.Register?
    ensures Counted(Apply(s, step))
  {
    NoSplicesBeyond(s.splices, |s.records|);
  }

  lemma OfferKeepsCounted(s: State, step: Step)
    requires Counted(s) && step.ServeOffer?
    ensures Counted(Apply(s, step))
  {}

  lemma QuietKeepsCounted(s: State, step: Step)
    requires Counted(s)
    requires !step.AttachTake? && !step.AttachClose? && !step.Register? && !step.ServeOffer?
    ensures Counted(Apply(s, step))
  {
    var t := Apply(s, step);
    assert t.records == s.records && t.splices == s.splices;
  }

  lemma TakeKeepsCounted(s: State, step: Step)
    requires Indexed(s) && Matched(s) && Counted(s) && step.AttachTake?
    ensures Counted(Apply(s, step))
  {
    var t := Apply(s, step);
    if t.splices != s.splices {
      forall p | 0 <= p < |s.records|
          ensures Splices(t.splices, p) == Splices(s.splices, p) + (if t.splices[|s.splices|].record == p then 1 else 0)
        ensures Finished(t.splices, p) == Finished(s.splices, p) {
        AddOne(s.splices, t.splices[|s.splices|], p);
      }
    }
  }

  lemma CloseKeepsCounted(s: State, step: Step)
    requires Indexed(s) && Matched(s) && Counted(s) && step.AttachClose?
    ensures Counted(Apply(s, step))
  {
    var t := Apply(s, step);
    if SplicedAt(s, step.stream) {
      var k := s.attaches[step.stream].splice;
      forall p | 0 <= p < |s.records| ensures Splices(t.splices, p) == Splices(s.splices, p)
        ensures Finished(t.splices, p) == Finished(s.splices, p) + (if s.splices[k].record == p then 1 else 0) {
        FinishOne(s.splices, k, p);
      }
    }
  }

  lemma StepCounted(s: State, step: Step)
    requires Indexed(s) && Matched(s) && Counted(s)
    ensures Counted(Apply(s, step))
  {
    if step.AttachTake? {
      TakeKeepsCounted(s, step);
    } else if step.AttachClose? {
      CloseKeepsCounted(s, step);
    } else if step.Register? {
      RegisterKeepsCounted(s, step);
    } else if step.ServeOffer? {
      OfferKeepsCounted(s, step);
    } else {
      QuietKeepsCounted(s, step);
    }
  }

  lemma {:induction false} NoSplicesBeyond(splices: seq<Splice>, p: nat)
    requires forall k :: 0 <= k < |splices| ==> splices[k].record != p
    ensures Splices(splices, p) == Finished(splices, p) == 0
  {
    if splices == [] {
    } else {
      NoSplicesBeyond(splices[..|splices| - 1], p);
    }
  }

  lemma {:induction false} Invariant(steps: seq<Step>)
    ensures var s := Run(INITIAL, steps); Indexed(s) && Placed(s) && Matched(s) && Counted(s)
  {
    if steps == [] {
    } else {
      Invariant(steps[..|steps| - 1]);
      var s, step := Run(INITIAL, steps[..|steps| - 1]), steps[|steps| - 1];
      StepIndexed(s, step);
      StepPlaced(s, step);
      StepMatched(s, step);
      StepCounted(s, step);
    }
  }

  /** In every interleaving each splice joins a client handed to, and an agent bound to, one and the
      same record, the agent presented that record's token, which is not empty, and no stream is in two
      splices. */
  lemma {:induction false} Pairing(steps: seq<Step>)
    ensures var s := Run(INITIAL, steps);
            && (forall k :: 0 <= k < |s.splices| ==>
                 && s.splices[k].record < |s.records|
                 && s.splices[k].token == s.records[s.splices[k].record].token && s.splices[k].token != []
                 && s.splices[k].client in s.records[s.splices[k].record].offered
                 && s.splices[k].client in s.serves && s.splices[k].agent in s.attaches)
            && (forall j, k :: 0 <= j < k < |s.splices| ==>
                 s.splices[j].client != s.splices[k].client && s.splices[j].agent != s.splices[k].agent)
            && (forall j, k :: 0 <= j < |s.splices| && 0 <= k < |s.splices| ==>
                 s.splices[j].client != s.splices[k].agent)
  {
    Invariant(steps);
  }

  // ---- Registrations ----

  predicate Registering(s: State, step: Step, session: string) {
    step.Register? && step.session == session && session != "" && session !in s.pending
  }

  /** The step drops the session's registration, whichever record that is: its cancellation, a waiting Serve or
      a bound Attach given up, or the end of a splice of the session. */
  predicate Drops(s: State, step: Step, session: string) {
    match step
    case Cancel(x) => x == session
    case ServeAbandon(c) =>
      && c in s.serves && s.serves[c].Waiting? && s.serves[c].record < |s.records|
      && s.records[s.serves[c].record].session == session
    case AttachAbandon(a) =>
      && a in s.attaches && s.attaches[a].Bound? && s.attaches[a].record < |s.records|
      && s.records[s.attaches[a].record].session == session
    case AttachRemove(a) => a in s.attaches && s.attaches[a] == Ending(session)
    case _ => false
  }

  /** A session is registered exactly since a registration that no later step has dropped; a registration makes
      a new, empty record with its token. */
  lemma {:induction false} RegistrationsChangeExactly(s: State, step: Step, session: string)
    ensures var t := Apply(s, step);
            && (session in t.pending <==>
                  Registering(s, step, session) || (session in s.pending && !Drops(s, step, session)))
            && (session in s.pending && session in t.pending ==> t.pending[session] == s.pending[session])
            && (Registering(s, step, session) ==>
                 t.pending[session] == |s.records|
                     && t.records == s.records + [Record(session, step.token, None, [], 0)])
            && (!step.Register? ==> |t.records| == |s.records|)
  {}

  lemma HandsOver(s: State, session: string, client: Stream)
    requires session in s.pending && s.pending[session] < |s.records| && s.records[s.pending[session]].channel == None
    requires client !in s.serves && client !in s.attaches
    ensures var p := s.pending[session];
            Apply(Apply(s, ServeGet(client, session)), ServeOffer(client)) ==
            s.(records := s.records[p := s.records[p].(channel := Some(client),
                                                       offered := s.records[p].offered + [client])],
               serves := s.serves[client := Waiting(p)], places := s.places[client := InChannel(p)])
  {
    assert s.serves[client := Got(s.pending[session])][client := Waiting(s.pending[session])]
        == s.serves[client := Waiting(s.pending[session])];
  }

  lemma TakesOver(s: State, session: string, client: Stream, agent: Stream)
    requires session in s.pending && s.pending[session] < |s.records|
    requires var r := s.records[s.pending[session]]; r.channel == Some(client) && r.token != []
    requires agent !in s.serves && agent !in s.attaches
    ensures var p := s.pending[session];
            var t := Apply(Apply(s, AttachGet(agent, session, s.records[p].token)), AttachTake(agent));
            && t.splices == s.splices + [Splice(p, client, agent, s.records[p].token, false)]
            && t.pending == s.pending && t.serves == s.serves
            && t.attaches == s.attaches[agent := Spliced(|s.splices|)]
            && t.records == s.records[p := s.records[p].(channel := None)]
  {
    var p := s.pending[session];
    assert s.attaches[agent := Bound(p, s.records[p].token)][agent := Spliced(|s.splices|)]
        == s.attaches[agent := Spliced(|s.splices|)];
  }

  /** Client and agent meet: with a registered session whose record has an empty channel, a new client stream
      and a new agent stream that presents the record's token, nothing in the way, are spliced. */
  lemma {:induction false} ClientAndAgentMeet(s: State, session: string, client: Stream, agent: Stream)
    requires session in s.pending && s.pending[session] < |s.records|
    requires var r := s.records[s.pending[session]]; r.channel == None && r.token != []
    requires client != agent && client !in s.serves && client !in s.attaches && agent !in s.serves
        && agent !in s.attaches
    ensures var p := s.pending[session];
            var t := Apply(Apply(Apply(Apply(s, ServeGet(client, session)), ServeOffer(client)),
                       AttachGet(agent, session, s.records[p].token)), AttachTake(agent));
            && t.splices == s.splices + [Splice(p, client, agent, s.records[p].token, false)]
            && t.pending == s.pending && t.serves == s.serves[client := Waiting(p)]
            && t.attaches == s.attaches[agent := Spliced(|s.splices|)]
            && t.records == s.records[p := s.records[p].(offered := s.records[p].offered + [client])]
  {
    HandsOver(s, session, client);
    TakesOver(Apply(Apply(s, ServeGet(client, session)), ServeOffer(client)), session, client, agent);
  }

  /** When a splice ends, `done` is closed, the registration of its session is dropped, and the client's call,
      if it still waits, returns without error. */
  lemma {:induction false} SpliceEnds(s: State, client: Stream, agent: Stream)
    requires SplicedAt(s, agent)
    requires var p := s.splices[s.attaches[agent].splice].record; ServesAt(s, client) && s.serves[client] == Waiting(p)
    ensures var k := s.attaches[agent].splice;
            var p := s.splices[k].record;
            var closed := Apply(s, AttachClose(agent));
            var t := Apply(Apply(closed, AttachRemove(agent)), ServeDone(client));
            && closed.pending == s.pending && closed.records[p].closes == s.records[p].closes + 1
            && t.splices == s.splices[k := s.splices[k].(finished := true)]
            && t.serves == s.serves[client := Left] && t.attaches == s.attaches[agent := Gone]
            && t.pending == s.pending - {s.records[p].session}
  {}

  /** A record never has more splices than hand-offs, nor is `done` closed more often than that; with
      one hand-off there is at most one splice and `done` is closed at most once. */
  lemma {:induction false} HandOffsBoundSplices(steps: seq<Step>, p: nat)
    requires p < |Run(INITIAL, steps).records|
    ensures var s := Run(INITIAL, steps);
            s.records[p].closes <= Splices(s.splices, p) <= |s.records[p].offered|
  {
    Invariant(steps);
    FinishedAtMost(Run(INITIAL, steps).splices, p);
  }

  /** With one hand-off, Serve returns without error only when its own stream was spliced and the splice
      has ended. */
  lemma {:induction false} ServeSuccessIsOwn(steps: seq<Step>, stream: Stream)
    requires var s := Run(INITIAL, steps);
             ServeSucceeds(s, stream) && |s.records[s.serves[stream].record].offered| <= 1
    ensures var s := Run(INITIAL, steps);
            exists k :: 0 <= k < |s.splices| && s.splices[k].client == stream && s.splices[k].finished
  {
    Invariant(steps);
    var s := Run(INITIAL, steps);
    var p := s.serves[stream].record;
    var k := SomeFinished(s.splices, p);
    var offered := s.records[p].offered;
    assert offered == [offered[0]];
    assert s.splices[k].client == offered[0] == stream;
  }

  lemma {:induction false} SomeFinished(splices: seq<Splice>, p: nat) returns (k: nat)
    requires Finished(splices, p) > 0
    ensures k < |splices| && splices[k].record == p && splices[k].finished
  {
    var last := |splices| - 1;
    if splices[last].record == p && splices[last].finished {
      k := last;
    } else {
      k := SomeFinished(splices[..last], p);
    }
  }

  lemma {:induction false} FinishedCounts(splices: seq<Splice>, p: nat, j: nat)
    requires j < |splices| && splices[j].record == p && splices[j].finished
    ensures Finished(splices, p) > 0
  {
    var last := |splices| - 1;
    if j < last {
      FinishedCounts(splices[..last], p, j);
    }
  }

  /** Splice j is another one of record p, and has ended. */
  ghost predicate OtherFinished(s: State, p: nat, k: nat, j: nat) {
    j != k && j < |s.splices| && s.splices[j].record == p && s.splices[j].finished
  }

  /** In every run the end of a splice closes a closed `done`, which panics, exactly when another splice
      of the same record has already ended. */
  lemma {:induction false} DonePanicsExactly(steps: seq<Step>, stream: Stream)
    requires SplicedAt(Run(INITIAL, steps), stream)
    ensures var s := Run(INITIAL, steps);
            var k := s.attaches[stream].splice;
            var p := s.splices[k].record;
            Apply(s, AttachClose(stream)).records[p].closes > 1 <==> exists j: nat :: OtherFinished(s, p, k, j)
  {
    Invariant(steps);
    var s := Run(INITIAL, steps);
    var k := s.attaches[stream].splice;
    var p := s.splices[k].record;
    if Finished(s.splices, p) > 0 {
      var j := SomeFinished(s.splices, p);
      assert OtherFinished(s, p, k, j);
    }
    if j: nat :| OtherFinished(s, p, k, j) {
      FinishedCounts(s.splices, p, j);
    }
  }

  /** Client 1 registered, but an agent bound to that record gave up and dropped it. */
  lemma FirstRegistrationDropped() returns (steps: seq<Step>)
    ensures var s := Run(INITIAL, steps);
            && s.pending == map[] && s.records == [Record("s", [1], None, [], 0)]
            && s.serves == map[] && s.attaches == map[10 := Gone] && s.splices == []
  {
    var s1 := Apply(INITIAL, Register("s", [1]));
    var s2 := Apply(s1, AttachGet(10, "s", [1]));
    steps := Extend([], Register("s", [1]), INITIAL, s1);
    steps := Extend(steps, AttachGet(10, "s", [1]), s1, s2);
    steps := Extend(steps, AttachAbandon(10), s2, Apply(s2, AttachAbandon(10)));
  }

  /** Client 2 then registered again, and both clients looked the session up. */
  lemma BothClientsFindTheSecond() returns (steps: seq<Step>)
    ensures var s := Run(INITIAL, steps);
            && s.pending == map["s" := 1] && |s.records| == 2 && s.records[1] == Record("s", [2], None, [], 0)
            && s.serves == map[1 := Got(1), 2 := Got(1)] && s.attaches == map[10 := Gone] && s.splices == []
  {
    steps := FirstRegistrationDropped();
    var s3 := Run(INITIAL, steps);
    var s4 := Apply(s3, Register("s", [2]));
    steps := Extend(steps, Register("s", [2]), s3, s4);
    var s5 := Apply(s4, ServeGet(1, "s"));
    steps := Extend(steps, ServeGet(1, "s"), s4, s5);
    steps := Extend(steps, ServeGet(2, "s"), s5, Apply(s5, ServeGet(2, "s")));
  }

  /** One hand-off and its splice. */
  lemma SpliceOnce(steps: seq<Step>, client: Stream, agent: Stream) returns (more: seq<Step>)
    requires var s := Run(INITIAL, steps);
             && "s" in s.pending && s.pending["s"] == 1 && |s.records| == 2
             && s.records[1].token == [2] && s.records[1].channel.None?
             && client in s.serves && s.serves[client] == Got(1) && agent !in s.serves && agent !in s.attaches
    ensures var s, t := Run(INITIAL, steps), Run(INITIAL, more);
            && t.pending == s.pending && |t.records| == 2
            && t.records[1] == s.records[1].(offered := s.records[1].offered + [client])
            && t.serves == s.serves[client := Waiting(1)]
            && t.attaches == s.attaches[agent := Spliced(|s.splices|)]
            && |t.splices| == |s.splices| + 1 && t.splices[..|s.splices|] == s.splices
                 && t.splices[|s.splices|].record == 1
  {
    var s := Run(INITIAL, steps);
    var s1 := Apply(s, AttachGet(agent, "s", [2]));
    var s2 := Apply(s1, ServeOffer(client));
    more := Extend(steps, AttachGet(agent, "s", [2]), s, s1);
    more := Extend(more, ServeOffer(client), s1, s2);
    more := Extend(more, AttachTake(agent), s2, Apply(s2, AttachTake(agent)));
  }

  /** So two hand-offs to one record are possible, and then `done` is closed twice. */
  lemma {:induction false} DoneClosedTwice() returns (steps: seq<Step>)
    ensures var s := Run(INITIAL, steps); |s.records| == 2 && |s.records[1].offered| == 2 && s.records[1].closes == 2
  {
    steps := BothClientsFindTheSecond();
    steps := SpliceOnce(steps, 1, 11);
    steps := SpliceOnce(steps, 2, 12);
    var s := Run(INITIAL, steps);
    assert s.attaches[11] == Spliced(0) && s.attaches[12] == Spliced(1);
    var s1 := Apply(s, AttachClose(11));
    steps := Extend(steps, AttachClose(11), s, s1);
    steps := Extend(steps, AttachClose(12), s1, Apply(s1, AttachClose(12)));
  }

  lemma Extend(steps: seq<Step>, step: Step, before: State, after: State) returns (more: seq<Step>)
    requires Run(INITIAL, steps) == before && after == Apply(before, step)
    ensures more == steps + [step] && Run(INITIAL, more) == after
  {
    more := steps + [step];
    assert more[..|more| - 1] == steps;
  }
}
