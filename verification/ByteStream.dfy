/** The byte stream of a tunnel, one direction: an endpoint that frames what it reads
    (internal/clientapi/client.go, internal/agent/ssh.go), the relay's pump (internal/tunnel/relay.go)
    and an endpoint that writes what it receives. First the three loops on their own, then all of them
    interleaved. */
module ByteStream {
  import opened Common
  import opened Protocol

  type Bytes = seq<Byte>

  const BUFFER: nat := 32 * 1024

  datatype Frame = Frame(data: Bytes, close: bool)

  const CLOSE: Frame := Frame([], true)

  /** One Read on a connection: at most a buffer of data, and whether it ended the stream. */
  datatype Read = Read(data: Bytes, end: bool)

  /** One Recv on a frame stream. */
  datatype Recv = Got(frame: Frame) | Eof | Broken

  /** The first n frames, as many as succeed before a send fails. */
  function Sent(all: seq<Frame>, n: nat): seq<Frame> {
    if n < |all| then all[..n] else all
  }

  lemma SentAll(s: seq<Frame>, all: seq<Frame>, n: nat)
    requires s <= all && |s| <= n && (|s| < n ==> all == s)
    ensures Sent(all, n) == s
  {}

  // ---- The reading endpoint ----

  /** The frames for a sequence of reads, up to the one that ends the stream. */
  function Framed(input: seq<Read>): seq<Frame> {
    if input == [] then []
    else
      (if input[0].data != [] then [Frame(input[0].data, false)] else [])
      + (if input[0].end then [CLOSE] else Framed(input[1..]))
  }

  function FrameAfter(sent: seq<Frame>, r: Read): seq<Frame> {
    if r.data != [] then sent + [Frame(r.data, false)] else sent
  }

  /** The same frames appended one by one to those already sent. */
  function FrameOn(sent: seq<Frame>, input: seq<Read>): (all: seq<Frame>)
    ensures sent <= all
    decreases |input|
  {
    if input == [] then sent
    else
      var more := FrameAfter(sent, input[0]);
      if input[0].end then more + [CLOSE] else FrameOn(more, input[1..])
  }

  lemma {:induction false} FrameOnIsFramed(sent: seq<Frame>, input: seq<Read>)
    ensures FrameOn(sent, input) == sent + Framed(input)
    decreases |input|
  {
    if input == [] {
    } else {
      var r := input[0];
      var head := if r.data != [] then [Frame(r.data, false)] else [];
      var rest := if r.end then [CLOSE] else Framed(input[1..]);
      assert FrameAfter(sent, r) == sent + head;
      FrameOnIsFramed(FrameAfter(sent, r), input[1..]);
      ConcatAssoc(sent, head, rest);
    }
  }

  lemma FrameOnStep(sent: seq<Frame>, input: seq<Read>, i: nat)
    requires i < |input|
    ensures var more := FrameAfter(sent, input[i]);
      FrameOn(sent, input[i..]) == if input[i].end then more + [CLOSE] else FrameOn(more, input[i + 1..])
    ensures FrameAfter(sent, input[i]) <= FrameOn(sent, input[i..])
  {
    assert input[i..][0] == input[i] && input[i..][1..] == input[i + 1..];
  }

  /** Reads into one buffer, over and over; `sends` is how many sends succeed before one fails. */
  method CopyIn(input: seq<Read>, sends: nat) returns (sent: seq<Frame>)
    requires forall i :: 0 <= i < |input| ==> |input[i].data| <= BUFFER
    ensures sent == Sent(Framed(input), sends)
  {
    ghost var all := FrameOn([], input);
    FrameOnIsFramed([], input);
    assert all == Framed(input) && input[0..] == input;
    var buffer := new Byte[BUFFER];
    sent := [];
    var i := 0;
    while i < |input|
      invariant 0 <= i <= |input|
      invariant |sent| <= sends
      invariant all == FrameOn(sent, input[i..])
    {
      FrameOnStep(sent, input, i);
      var n := |input[i].data|;
      Fill(buffer, input[i].data);
      if n > 0 {
        if |sent| == sends {
          SentAll(sent, all, sends);
          return;
        }
        sent := sent + [Frame(buffer[..n], false)];
      }
      if input[i].end {
        if |sent| < sends {
          sent := sent + [CLOSE];
        }
        SentAll(sent, all, sends);
        return;
      }
      i := i + 1;
    }
    SentAll(sent, all, sends);
  }

  /** What Read does to the buffer. */
  method Fill(buffer: array<Byte>, data: Bytes)
    requires |data| <= buffer.Length
    modifies buffer
    ensures buffer[..|data|] == data && buffer[|data|..] == old(buffer[|data|..])
  {
    for j := 0 to |data|
      invariant buffer[..j] == data[..j] && buffer[|data|..] == old(buffer[|data|..])
    {
      buffer[j] := data[j];
    }
    assert data[..|data|] == data;
  }

  // ---- The relay's pump ----

  function Forwarded(src: seq<Recv>): seq<Frame> {
    if src == [] then []
    else match src[0]
      case Eof => [CLOSE]
      case Broken => []
      case Got(f) =>
        (if f.data != [] then [Frame(f.data, false)] else []) + (if f.close then [CLOSE] else Forwarded(src[1..]))
  }

  function ForwardAfter(sent: seq<Frame>, f: Frame): seq<Frame> {
    if f.data != [] then sent + [Frame(f.data, false)] else sent
  }

  function ForwardOn(sent: seq<Frame>, src: seq<Recv>): (all: seq<Frame>)
    ensures sent <= all
    decreases |src|
  {
    if src == [] || src[0].Broken? then sent
    else if src[0].Eof? then sent + [CLOSE]
    else
      var more := ForwardAfter(sent, src[0].frame);
      if src[0].frame.close then more + [CLOSE] else ForwardOn(more, src[1..])
  }

  lemma {:induction false} ForwardOnIsForwarded(sent: seq<Frame>, src: seq<Recv>)
    ensures ForwardOn(sent, src) == sent + Forwarded(src)
    decreases |src|
  {
    if src != [] && src[0].Got? {
      var f := src[0].frame;
      var head := if f.data != [] then [Frame(f.data, false)] else [];
      var rest := if f.close then [CLOSE] else Forwarded(src[1..]);
      assert ForwardAfter(sent, f) == sent + head;
      ForwardOnIsForwarded(ForwardAfter(sent, f), src[1..]);
      ConcatAssoc(sent, head, rest);
    }
  }

  method Pump(src: seq<Recv>, sends: nat) returns (sent: seq<Frame>)
    ensures sent == Sent(Forwarded(src), sends)
  {
    ghost var all := ForwardOn([], src);
    ForwardOnIsForwarded([], src);
    sent := [];
    var i := 0;
    while i < |src|
      invariant 0 <= i <= |src|
      invariant |sent| <= sends
      invariant all == ForwardOn(sent, src[i..])
    {
      assert src[i..][0] == src[i] && src[i..][1..] == src[i + 1..];
      if src[i].Eof? {
        if |sent| < sends {
          sent := sent + [CLOSE];
        }
        SentAll(sent, all, sends);
        return;
      }
      if src[i].Broken? {
        SentAll(sent, all, sends);
        return;
      }
      var frame := src[i].frame;
      assert all == if frame.close then ForwardAfter(sent, frame) + [CLOSE]
          else ForwardOn(ForwardAfter(sent, frame), src[i + 1..]);
      if |frame.data| > 0 {
        if |sent| == sends {
          SentAll(sent, all, sends);
          return;
        }
        sent := sent + [Frame(frame.data, false)];
      }
      if frame.close {
        if |sent| < sends {
          sent := sent + [CLOSE];
        }
        SentAll(sent, all, sends);
        return;
      }
      i := i + 1;
    }
    SentAll(sent, all, sends);
  }

  // ---- The writing endpoint ----

  function Delivered(src: seq<Recv>): Bytes {
    if src == [] || !src[0].Got? then []
    else src[0].frame.data + if src[0].frame.close then [] else Delivered(src[1..])
  }

  function DeliverOn(written: Bytes, src: seq<Recv>): (all: Bytes)
    ensures written <= all
    decreases |src|
  {
    if src == [] || !src[0].Got? then written
    else
      var more := written + src[0].frame.data;
      if src[0].frame.close then more else DeliverOn(more, src[1..])
  }

  lemma {:induction false} DeliverOnIsDelivered(written: Bytes, src: seq<Recv>)
    ensures DeliverOn(written, src) == written + Delivered(src)
    decreases |src|
  {
    if src != [] && src[0].Got? {
      var f := src[0].frame;
      DeliverOnIsDelivered(written + f.data, src[1..]);
      ConcatAssoc(written, f.data, if f.close then [] else Delivered(src[1..]));
    }
  }

  /** `room` is how many bytes the connection takes before a write fails. */
  method CopyOut(src: seq<Recv>, room: nat) returns (written: Bytes)
    ensures written == if room < |Delivered(src)| then Delivered(src)[..room] else Delivered(src)
  {
    ghost var all := DeliverOn([], src);
    DeliverOnIsDelivered([], src);
    written := [];
    var i := 0;
    while i < |src|
      invariant 0 <= i <= |src|
      invariant |written| <= room
      invariant all == DeliverOn(written, src[i..])
    {
      assert src[i..][0] == src[i] && src[i..][1..] == src[i + 1..];
      if !src[i].Got? {
        return;
      }
      var frame := src[i].frame;
      assert written + [] == written;
      if |frame.data| > 0 {
        if |written| + |frame.data| > room {
          var fits := room - |written|;
          assert written + frame.data <= all;
          assert (written + frame.data)[..room] == written + frame.data[..fits];
          return written + frame.data[..fits];
        }
        written := written + frame.data;
      }
      if frame.close {
        return;
      }
      i := i + 1;
    }
  }

  // ---- The three loops in a row ----

  function Wire(frames: seq<Frame>): seq<Recv> {
    seq(|frames|, i requires 0 <= i < |frames| => Got(frames[i]))
  }

  /** The bytes of a sequence of reads, up to the one that ends the stream. */
  function Content(input: seq<Read>): Bytes {
    if input == [] then [] else input[0].data + if input[0].end then [] else Content(input[1..])
  }

  lemma WireCons(frames: seq<Frame>)
    requires frames != []
    ensures Wire(frames)[0] == Got(frames[0]) && Wire(frames)[1..] == Wire(frames[1..])
  {}

  lemma {:induction false} PumpKeepsContent(frames: seq<Frame>)
    ensures Delivered(Wire(Forwarded(Wire(frames)))) == Delivered(Wire(frames))
  {
    if frames == [] {
    } else {
      WireCons(frames);
      PumpKeepsContent(frames[1..]);
      var f := frames[0];
      var rest := if f.close then [CLOSE] else Forwarded(Wire(frames[1..]));
      if f.close {
        WireCons([CLOSE]);
      }
      if f.data != [] {
        assert Forwarded(Wire(frames)) == [Frame(f.data, false)] + rest;
        WireCons([Frame(f.data, false)] + rest);
        assert ([Frame(f.data, false)] + rest)[1..] == rest;
      } else {
        assert Forwarded(Wire(frames)) == rest;
      }
    }
  }

  lemma {:induction false} FramingKeepsContent(input: seq<Read>)
    ensures Delivered(Wire(Framed(input))) == Content(input)
  {
    if input == [] {
    } else {
      FramingKeepsContent(input[1..]);
      var r := input[0];
      var rest := if r.end then [CLOSE] else Framed(input[1..]);
      if r.end {
        WireCons([CLOSE]);
      }
      if r.data != [] {
        assert Framed(input) == [Frame(r.data, false)] + rest;
        WireCons([Frame(r.data, false)] + rest);
        assert ([Frame(r.data, false)] + rest)[1..] == rest;
      } else {
        assert Framed(input) == rest;
      }
    }
  }

  /** However the bytes are chunked by the reads, framing, pumping and writing give the same bytes. */
  lemma {:induction false} ThreeLoopsAreTransparent(input: seq<Read>)
    ensures Delivered(Wire(Forwarded(Wire(Framed(input))))) == Content(input)
  {
    FramingKeepsContent(input);
    PumpKeepsContent(Framed(input));
  }

  // ---- The loops interleaved, with failures at any point ----

  datatype Phase = Open | Done | Broke
  datatype SinkPhase = Writing | Closed | Ended | WriteFailed  // Ended: the stream ended without a Close frame

  /** `read` and `lost` are kept for the proofs: bytes read so far, and those of a send that failed. */
  datatype Direction = Direction(
    read: Bytes, lost: Bytes, source: Phase,
    up: seq<Frame>, held: Option<Frame>, relay: Phase,
    down: seq<Frame>, sink: SinkPhase, written: Bytes)

  const FRESH: Direction := Direction([], [], Open, [], None, Open, [], Writing, [])

  datatype Step =
    | SourceSend(data: Bytes)
    | SourceSendFails(data: Bytes)
    | SourceClose(delivered: bool)
    | PumpReceive
    | PumpForward
    | PumpEof
    | PumpFails
    | SinkWrite
    | SinkWriteFails(n: nat)
    | SinkEof

  function Apply(d: Direction, step: Step): Direction {
    match step
    case SourceSend(data) =>
      if d.source == Open && data != [] then d.(read := d.read + data, up := d.up + [Frame(data, false)]) else d
    case SourceSendFails(data) =>
      if d.source == Open then d.(read := d.read + data, lost := data, source := Broke) else d
    case SourceClose(delivered) =>
      if d.source == Open then d.(up := if delivered then d.up + [CLOSE] else d.up, source := Done) else d
    case PumpReceive =>
      if d.relay == Open && d.held.None? && d.up != [] then d.(held := Some(d.up[0]), up := d.up[1..]) else d
    case PumpForward =>
      if d.relay == Open && d.held.Some? then
        var f := d.held.value;
        if f.data != [] then d.(down := d.down + [Frame(f.data, false)], held := Some(f.(data := [])))
        else if f.close then d.(down := d.down + [CLOSE], held := None, relay := Done)
        else d.(held := None)
      else d
    case PumpEof =>
      if d.relay == Open && d.held.None? && d.up == [] && d.source == Done
      then d.(down := d.down + [CLOSE], relay := Done) else d
    case PumpFails => if d.relay == Open then d.(relay := Broke) else d
    case SinkWrite =>
      if d.sink == Writing && d.down != [] then
        d.(written := d.written + d.down[0].data, down := d.down[1..],
           sink := if d.down[0].close then Closed else Writing)
      else d
    case SinkWriteFails(n) =>
      if d.sink == Writing && d.down != [] && n < |d.down[0].data| then
        d.(written := d.written + d.down[0].data[..n],
           down := [d.down[0].(data := d.down[0].data[n..])] + d.down[1..], sink := WriteFailed)
      else d
    case SinkEof =>
      if d.sink == Writing && d.down == [] && d.relay != Open then d.(sink := Ended) else d
  }

  function Run(d: Direction, steps: seq<Step>): Direction {
    if steps == [] then d else Apply(Run(d, steps[..|steps| - 1]), steps[|steps| - 1])
  }

  function Payload(frames: seq<Frame>): Bytes {
    if frames == [] then [] else frames[0].data + Payload(frames[1..])
  }

  lemma {:induction false} PayloadConcat(a: seq<Frame>, b: seq<Frame>)
    ensures Payload(a + b) == Payload(a) + Payload(b)
  {
    if a == [] {
      assert a + b == b;
    } else {
      PayloadConcat(a[1..], b);
      assert (a + b)[0] == a[0] && (a + b)[1..] == a[1..] + b;
      ConcatAssoc(a[0].data, Payload(a[1..]), Payload(b));
    }
  }

  lemma PayloadSnoc(a: seq<Frame>, f: Frame)
    ensures Payload(a + [f]) == Payload(a) + f.data
  {
    PayloadConcat(a, [f]);
  }

  function HeldData(d: Direction): Bytes {
    if d.held.Some? then d.held.value.data else []
  }

  /** Every byte read is written, on the way in order, or lost at the source. */
  ghost predicate Conserved(d: Direction) {
    d.read == d.written + (Payload(d.down) + (HeldData(d) + (Payload(d.up) + d.lost)))
  }

  /** A Close frame carries no data and comes last; nothing follows it anywhere upstream. */
  ghost predicate ClosesLast(d: Direction) {
    && (forall i :: 0 <= i < |d.up| && d.up[i].close ==> i == |d.up| - 1 && d.up[i].data == [] && d.source == Done)
    && (d.held.Some? && d.held.value.close ==> d.up == [] && d.held.value.data == [] && d.source == Done)
    && (forall i :: 0 <= i < |d.down| && d.down[i].close ==>
         i == |d.down| - 1 && d.down[i].data == [] && d.relay == Done)
    && (d.relay == Done ==> d.up == [] && d.held.None? && d.source == Done)
    && (d.sink == Closed ==> d.down == [] && d.relay == Done)
    && (d.lost != [] ==> d.source == Broke)
  }

  lemma SendKeepsConserved(d: Direction, step: Step)
    requires Conserved(d) && ClosesLast(d) && (step.SourceSend? || step.SourceSendFails?)
    ensures Conserved(Apply(d, step))
  {
    if d.source == Open {
      var x := step.data;
      if step.SourceSend? {
        PayloadSnoc(d.up, Frame(x, false));
      }
      var up := Payload(d.up);
      assert d.lost == [] && up + d.lost == up;
      ConcatAssoc(HeldData(d), up, x);
      ConcatAssoc(Payload(d.down), HeldData(d) + up, x);
      ConcatAssoc(d.written, Payload(d.down) + (HeldData(d) + up), x);
      assert (up + x) + [] == up + x;
    }
  }

  lemma CloseKeepsConserved(d: Direction, step: Step)
    requires Conserved(d) && step.SourceClose?
    ensures Conserved(Apply(d, step))
  {
    PayloadSnoc(d.up, CLOSE);
    assert Payload(d.up + [CLOSE]) == Payload(d.up);
  }

  lemma ReceiveKeepsConserved(d: Direction)
    requires Conserved(d)
    ensures Conserved(Apply(d, PumpReceive))
  {
    if d.relay == Open && d.held.None? && d.up != [] {
      ConcatAssoc(d.up[0].data, Payload(d.up[1..]), d.lost);
      assert [] + (Payload(d.up) + d.lost) == Payload(d.up) + d.lost;
    }
  }

  lemma ForwardKeepsConserved(d: Direction)
    requires Conserved(d)
    ensures Conserved(Apply(d, PumpForward))
  {
    if d.relay == Open && d.held.Some? {
      var f, rest := d.held.value, Payload(d.up) + d.lost;
      PayloadSnoc(d.down, Frame(f.data, false));
      PayloadSnoc(d.down, CLOSE);
      assert Payload(d.down + [CLOSE]) == Payload(d.down);
      ConcatAssoc(Payload(d.down), f.data, rest);
      assert [] + rest == rest;
    }
  }

  lemma EofKeepsConserved(d: Direction)
    requires Conserved(d)
    ensures Conserved(Apply(d, PumpEof))
  {
    PayloadSnoc(d.down, CLOSE);
    assert Payload(d.down + [CLOSE]) == Payload(d.down);
  }

  lemma WriteKeepsConserved(d: Direction)
    requires Conserved(d)
    ensures Conserved(Apply(d, SinkWrite))
  {
    if d.down != [] {
      var rest := HeldData(d) + (Payload(d.up) + d.lost);
      ConcatAssoc(d.down[0].data, Payload(d.down[1..]), rest);
      ConcatAssoc(d.written, d.down[0].data, Payload(d.down[1..]) + rest);
    }
  }

  lemma FailedWriteKeepsConserved(d: Direction, step: Step)
    requires Conserved(d) && step.SinkWriteFails?
    ensures Conserved(Apply(d, step))
  {
    if d.sink == Writing && d.down != [] && step.n < |d.down[0].data| {
      var f, n := d.down[0], step.n;
      var rest := HeldData(d) + (Payload(d.up) + d.lost);
      var after := [f.(data := f.data[n..])] + d.down[1..];
      assert after[1..] == d.down[1..];
      assert f.data == f.data[..n] + f.data[n..];
      ConcatAssoc(f.data[..n], f.data[n..], Payload(d.down[1..]));
      ConcatAssoc(f.data[..n], Payload(after), rest);
      ConcatAssoc(d.written, f.data[..n], Payload(after) + rest);
    }
  }

  lemma StepKeepsCloses(d: Direction, step: Step)
    requires ClosesLast(d)
    ensures ClosesLast(Apply(d, step))
  {}

  lemma {:induction false} DirectionInvariant(steps: seq<Step>)
    ensures Conserved(Run(FRESH, steps)) && ClosesLast(Run(FRESH, steps))
  {
    if steps == [] {
    } else {
      DirectionInvariant(steps[..|steps| - 1]);
      var d, step := Run(FRESH, steps[..|steps| - 1]), steps[|steps| - 1];
      StepKeepsCloses(d, step);
      match step
      case SourceSend(_) => SendKeepsConserved(d, step);
      case SourceSendFails(_) => SendKeepsConserved(d, step);
      case SourceClose(_) => CloseKeepsConserved(d, step);
      case PumpReceive => ReceiveKeepsConserved(d);
      case PumpForward => ForwardKeepsConserved(d);
      case PumpEof => EofKeepsConserved(d);
      case PumpFails =>
      case SinkWrite => WriteKeepsConserved(d);
      case SinkWriteFails(_) => FailedWriteKeepsConserved(d, step);
      case SinkEof =>
    }
  }

  // ---- The interleaved steps are the steps of the three loops ----

  /** What the loops did so far: the reads, the frames sent up, what the pump received and sent down, and
      what the writing endpoint received. */
  datatype History = History(inputs: seq<Read>, up: seq<Frame>, got: seq<Recv>, down: seq<Frame>, taken: seq<Recv>)

  function Noted(h: History, d: Direction, step: Step): History {
    match step
    case SourceSend(data) =>
      if d.source == Open
          && data != [] then h.(inputs := h.inputs + [Read(data, false)], up := h.up + [Frame(data, false)]) else h
    case SourceSendFails(data) => if d.source == Open then h.(inputs := h.inputs + [Read(data, false)]) else h
    case SourceClose(delivered) =>
      if d.source == Open
          then h.(inputs := h.inputs + [Read([], true)], up := if delivered then h.up + [CLOSE] else h.up) else h
    case PumpReceive => if d.relay == Open && d.held.None? && d.up != [] then h.(got := h.got + [Got(d.up[0])]) else h
    case PumpForward =>
      if d.relay == Open && d.held.Some? then
        if d.held.value.data != [] then h.(down := h.down + [Frame(d.held.value.data, false)])
        else if d.held.value.close then h.(down := h.down + [CLOSE])
        else h
      else h
    case PumpEof =>
      if d.relay == Open && d.held.None? && d.up == [] && d.source == Done
      then h.(got := h.got + [Eof], down := h.down + [CLOSE]) else h
    case PumpFails => h
    case SinkWrite => if d.sink == Writing && d.down != [] then h.(taken := h.taken + [Got(d.down[0])]) else h
    case SinkWriteFails(n) =>
      if d.sink == Writing && d.down != [] && n < |d.down[0].data| then h.(taken := h.taken + [Got(d.down[0])]) else h
    case SinkEof => if d.sink == Writing && d.down == [] && d.relay != Open then h.(taken := h.taken + [Eof]) else h
  }

  function HistoryOf(steps: seq<Step>): History {
    if steps == [] then History([], [], [], [], [])
    else Noted(HistoryOf(steps[..|steps| - 1]), Run(FRESH, steps[..|steps| - 1]), steps[|steps| - 1])
  }

  /** The frames among what a Recv loop got. */
  function Frames(src: seq<Recv>): seq<Frame> {
    if src == [] then [] else (if src[0].Got? then [src[0].frame] else []) + Frames(src[1..])
  }

  /** Nothing so far ends a Recv loop. */
  predicate Going(src: seq<Recv>) {
    forall i :: 0 <= i < |src| ==> src[i].Got? && !src[i].frame.close
  }

  predicate NoEnd(input: seq<Read>) {
    forall i :: 0 <= i < |input| ==> !input[i].end
  }

  lemma {:induction false} FramesSnoc(src: seq<Recv>, x: Recv)
    ensures Frames(src + [x]) == Frames(src) + (if x.Got? then [x.frame] else [])
  {
    if src == [] {
      assert src + [x] == [x];
    } else {
      FramesSnoc(src[1..], x);
      assert (src + [x])[0] == src[0] && (src + [x])[1..] == src[1..] + [x];
    }
  }

  lemma {:induction false} FramedSnoc(input: seq<Read>, r: Read)
    requires NoEnd(input)
    ensures Framed(input + [r]) == Framed(input) + Framed([r])
    ensures Content(input + [r]) == Content(input) + r.data
  {
    if input == [] {
      assert input + [r] == [r];
      assert r.data + [] == r.data && Content([r]) == r.data;
    } else {
      FramedSnoc(input[1..], r);
      assert (input + [r])[0] == input[0] && (input + [r])[1..] == input[1..] + [r];
      var head := if input[0].data != [] then [Frame(input[0].data, false)] else [];
      ConcatAssoc(head, Framed(input[1..]), Framed([r]));
      ConcatAssoc(input[0].data, Content(input[1..]), r.data);
    }
  }

  /** What the pump sends for one Recv. */
  function Out(x: Recv): seq<Frame> {
    match x
    case Eof => [CLOSE]
    case Broken => []
    case Got(f) => (if f.data != [] then [Frame(f.data, false)] else []) + (if f.close then [CLOSE] else [])
  }

  lemma {:induction false} ForwardedSnoc(src: seq<Recv>, x: Recv)
    requires Going(src)
    ensures Forwarded(src + [x]) == Forwarded(src) + Out(x)
  {
    if src == [] {
      assert src + [x] == [x] && [x][1..] == [];
      assert Forwarded([x]) == Out(x);
    } else {
      ForwardedSnoc(src[1..], x);
      assert (src + [x])[0] == src[0] && (src + [x])[1..] == src[1..] + [x];
      var head := if src[0].frame.data != [] then [Frame(src[0].frame.data, false)] else [];
      ConcatAssoc(head, Forwarded(src[1..]), Out(x));
    }
  }

  lemma {:induction false} DeliveredSnoc(src: seq<Recv>, x: Recv)
    requires Going(src)
    ensures Delivered(src + [x]) == Delivered(src) + (if x.Got? then x.frame.data else [])
  {
    if src == [] {
      assert src + [x] == [x];
    } else {
      DeliveredSnoc(src[1..], x);
      assert (src + [x])[0] == src[0] && (src + [x])[1..] == src[1..] + [x];
      ConcatAssoc(src[0].frame.data, Delivered(src[1..]), if x.Got? then x.frame.data else []);
    }
  }

  ghost predicate SourceFollows(d: Direction, h: History) {
    && d.read == Content(h.inputs) && h.up <= Framed(h.inputs)
    && (d.source == Open ==> h.up == Framed(h.inputs) && NoEnd(h.inputs))
  }

  function Pending(d: Direction): seq<Frame> {
    if d.held.Some? then Out(Got(d.held.value)) else []
  }

  ghost predicate PumpFollows(d: Direction, h: History) {
    && h.up == Frames(h.got) + d.up && h.down <= Forwarded(h.got)
    && (d.relay == Open ==>
         && h.down + Pending(d) == Forwarded(h.got)
         && (d.held.None? ==> Going(h.got))
         && (d.held.Some? ==> |h.got| > 0 && Going(h.got[..|h.got| - 1]) && h.got[|h.got| - 1].Got?
                              && h.got[|h.got| - 1].frame.close == d.held.value.close))
  }

  ghost predicate SinkFollows(d: Direction, h: History) {
    && d.written <= Delivered(h.taken) && Frames(h.taken) <= h.down
    && (d.sink == Writing ==> d.written == Delivered(h.taken) && Going(h.taken) && h.down == Frames(h.taken) + d.down)
  }

  lemma SourceStep(d: Direction, h: History, step: Step)
    requires SourceFollows(d, h)
    ensures SourceFollows(Apply(d, step), Noted(h, d, step))
  {
    if d.source == Open {
      match step
      case SourceSend(data) => FramedSnoc(h.inputs, Read(data, false));
      case SourceSendFails(data) => FramedSnoc(h.inputs, Read(data, false));
      case SourceClose(_) => FramedSnoc(h.inputs, Read([], true));
      case _ =>
    }
  }

  lemma ReceiveStep(d: Direction, h: History)
    requires PumpFollows(d, h) && d.relay == Open && d.held.None? && d.up != []
    ensures PumpFollows(Apply(d, PumpReceive), Noted(h, d, PumpReceive))
  {
    var x := Got(d.up[0]);
    ForwardedSnoc(h.got, x);
    FramesSnoc(h.got, x);
    ConcatAssoc(Frames(h.got), [d.up[0]], d.up[1..]);
    assert [d.up[0]] + d.up[1..] == d.up;
    assert (h.got + [x])[..|h.got|] == h.got;
    assert Pending(d) == [] && h.down + [] == h.down;
  }

  lemma ForwardStep(d: Direction, h: History)
    requires PumpFollows(d, h) && d.relay == Open && d.held.Some?
    ensures PumpFollows(Apply(d, PumpForward), Noted(h, d, PumpForward))
  {
    var f := d.held.value;
    if f.data != [] {
      assert Out(Got(f)) == [Frame(f.data, false)] + Out(Got(f.(data := [])));
      ConcatAssoc(h.down, [Frame(f.data, false)], Out(Got(f.(data := []))));
    } else if !f.close {
      assert Pending(d) == [];
    } else {
      assert Pending(d) == [CLOSE];
    }
  }

  lemma PumpEofStep(d: Direction, h: History)
    requires PumpFollows(d, h) && d.relay == Open && d.held.None? && d.up == [] && d.source == Done
    ensures PumpFollows(Apply(d, PumpEof), Noted(h, d, PumpEof))
  {
    ForwardedSnoc(h.got, Eof);
    FramesSnoc(h.got, Eof);
    assert Pending(d) == [] && h.down + [] == h.down;
  }

  /** The source sends one frame more, or none. */
  lemma UpGrows(d: Direction, e: Direction, h: History, g: History, more: seq<Frame>)
    requires PumpFollows(d, h) && e.up == d.up + more && g.up == h.up + more
    requires e.held == d.held && e.relay == d.relay && g.got == h.got && g.down == h.down
    ensures PumpFollows(e, g)
  {
    ConcatAssoc(Frames(h.got), d.up, more);
  }

  lemma SourceKeepsPump(d: Direction, h: History, step: Step)
    requires PumpFollows(d, h) && (step.SourceSend? || step.SourceSendFails? || step.SourceClose?)
    ensures PumpFollows(Apply(d, step), Noted(h, d, step))
  {
    var e, g := Apply(d, step), Noted(h, d, step);
    assert d.up + [] == d.up && h.up + [] == h.up;
    UpGrows(d, e, h, g, e.up[|d.up|..]);
  }

  lemma SinkKeepsPump(d: Direction, h: History, step: Step)
    requires PumpFollows(d, h) && (step.SinkWrite? || step.SinkWriteFails? || step.SinkEof? || step.PumpFails?)
    ensures PumpFollows(Apply(d, step), Noted(h, d, step))
  {}

  lemma PumpStep(d: Direction, h: History, step: Step)
    requires PumpFollows(d, h)
    ensures PumpFollows(Apply(d, step), Noted(h, d, step))
  {
    match step
    case PumpReceive => if d.relay == Open && d.held.None? && d.up != [] { ReceiveStep(d, h); }
    case PumpForward => if d.relay == Open && d.held.Some? { ForwardStep(d, h); }
    case PumpEof => if d.relay == Open && d.held.None? && d.up == [] && d.source == Done { PumpEofStep(d, h); }
    case SourceSend(_) => SourceKeepsPump(d, h, step);
    case SourceSendFails(_) => SourceKeepsPump(d, h, step);
    case SourceClose(_) => SourceKeepsPump(d, h, step);
    case _ => SinkKeepsPump(d, h, step);
  }

  lemma WriteStep(d: Direction, h: History, step: Step)
    requires SinkFollows(d, h) && (step.SinkWrite? || step.SinkWriteFails? || step.SinkEof?)
    ensures SinkFollows(Apply(d, step), Noted(h, d, step))
  {
    if d.sink == Writing {
      if step.SinkEof? {
        DeliveredSnoc(h.taken, Eof);
        FramesSnoc(h.taken, Eof);
      } else if d.down != [] {
        DeliveredSnoc(h.taken, Got(d.down[0]));
        FramesSnoc(h.taken, Got(d.down[0]));
        ConcatAssoc(Frames(h.taken), [d.down[0]], d.down[1..]);
      }
    }
  }

  /** A step of the pump adds at most one frame to what is on its way down. */
  lemma SentStep(d: Direction, h: History, step: Step)
    requires SinkFollows(d, h) && !step.SinkWrite? && !step.SinkWriteFails? && !step.SinkEof?
    ensures SinkFollows(Apply(d, step), Noted(h, d, step))
  {
    var e, g := Apply(d, step), Noted(h, d, step);
    if g.down != h.down {
      var f := g.down[|h.down|];
      assert g.down == h.down + [f] && e.down == d.down + [f];
      ConcatAssoc(Frames(h.taken), d.down, [f]);
    }
  }

  /** In every interleaving, whatever fails: the frames sent up are a prefix of those CopyIn sends for the
      reads, the pump gets them in order and sends down a prefix of what Pump forwards for what it got, and
      the bytes written are a prefix of what CopyOut writes for what it got. */
  lemma {:induction false} LoopsInterleaved(steps: seq<Step>)
    ensures var d, h := Run(FRESH, steps), HistoryOf(steps);
            && d.read == Content(h.inputs) && h.up <= Framed(h.inputs)
            && Frames(h.got) <= h.up && h.down <= Forwarded(h.got)
            && Frames(h.taken) <= h.down && d.written <= Delivered(h.taken)
    ensures SourceFollows(Run(FRESH, steps), HistoryOf(steps)) && PumpFollows(Run(FRESH, steps), HistoryOf(steps))
    ensures SinkFollows(Run(FRESH, steps), HistoryOf(steps))
  {
    if steps == [] {
    } else {
      var d, h, step := Run(FRESH, steps[..|steps| - 1]), HistoryOf(steps[..|steps| - 1]), steps[|steps| - 1];
      LoopsInterleaved(steps[..|steps| - 1]);
      SourceStep(d, h, step);
      PumpStep(d, h, step);
      if step.SinkWrite? || step.SinkWriteFails? || step.SinkEof? {
        WriteStep(d, h, step);
      } else {
        SentStep(d, h, step);
      }
    }
  }

  // ---- Both directions ----

  datatype Tunnel = Tunnel(toAgent: Direction, toClient: Direction)
  datatype TunnelStep = ToAgent(step: Step) | ToClient(step: Step)

  /** The two directions interleave; when one ends, the relay may abort the other (PumpFails). */
  function RunTunnel(steps: seq<TunnelStep>): Tunnel {
    if steps == [] then Tunnel(FRESH, FRESH)
    else
      var t := RunTunnel(steps[..|steps| - 1]);
      match steps[|steps| - 1]
      case ToAgent(step) => t.(toAgent := Apply(t.toAgent, step))
      case ToClient(step) => t.(toClient := Apply(t.toClient, step))
  }

  lemma {:induction false} Project(steps: seq<TunnelStep>) returns (a: seq<Step>, b: seq<Step>)
    ensures RunTunnel(steps) == Tunnel(Run(FRESH, a), Run(FRESH, b))
  {
    a, b := [], [];
    if steps != [] {
      a, b := Project(steps[..|steps| - 1]);
      match steps[|steps| - 1]
      case ToAgent(step) =>
        assert (a + [step])[..|a|] == a;
        a := a + [step];
      case ToClient(step) =>
        assert (b + [step])[..|b|] == b;
        b := b + [step];
    }
  }

  /** Written bytes are a prefix of those read; a direction that ended with its Close frame delivered
      every byte its source read, and its source had closed. */
  ghost predicate Faithful(d: Direction) {
    && d.written <= d.read
    && (d.sink == Closed ==> d.written == d.read && d.source == Done && d.up == [] && d.down == [])
  }

  lemma ConservedIsFaithful(d: Direction)
    requires Conserved(d) && ClosesLast(d)
    ensures Faithful(d)
  {}

  /** For every chunking and interleaving, in both directions, whatever fails. */
  lemma {:induction false} TunnelIsFaithful(steps: seq<TunnelStep>)
    ensures Faithful(RunTunnel(steps).toAgent) && Faithful(RunTunnel(steps).toClient)
  {
    var a, b := Project(steps);
    DirectionInvariant(a);
    DirectionInvariant(b);
    ConservedIsFaithful(Run(FRESH, a));
    ConservedIsFaithful(Run(FRESH, b));
  }

  // ---- Nothing gets stuck ----

  function Work(d: Direction): nat {
    6 * |d.up| + |d.down| + (if d.held.None? then 0 else if d.held.value.data != [] then 4 else 2)
    + (if d.relay == Open then 2 else 0)
  }

  /** The next step of a direction whose source has closed and where nothing has failed. */
  function NextStep(d: Direction): Step {
    if d.down != [] then SinkWrite
    else if d.held.Some? then PumpForward
    else if d.up != [] then PumpReceive
    else PumpEof
  }

  /** The source has closed, nothing failed, and the Close frame has not reached the sink. */
  predicate Draining(d: Direction) {
    && d.source == Done && d.relay != Broke && d.sink == Writing
    && (d.relay == Done ==> d.down != [] && d.down[|d.down| - 1].close)
  }

  lemma NextStepWorks(d: Direction)
    requires ClosesLast(d) && Draining(d)
    ensures var e := Apply(d, NextStep(d));
            e.read == d.read && (e.sink == Closed || (Draining(e) && Work(e) < Work(d)))
  {
    if d.down != [] && !d.down[0].close {
      assert |d.down| > 1 ==> d.down[1..][|d.down| - 2] == d.down[|d.down| - 1];
    }
  }

  /** Once the source has closed, and unless something fails, the direction can always run to its Close
      frame: Recv, Send and Write steps alone bring every byte across. */
  lemma {:induction false} Drains(prefix: seq<Step>) returns (rest: seq<Step>)
    requires Draining(Run(FRESH, prefix))
    ensures var d := Run(FRESH, prefix + rest);
            d.sink == Closed && d.written == Run(FRESH, prefix).read
    decreases Work(Run(FRESH, prefix))
  {
    var d := Run(FRESH, prefix);
    DirectionInvariant(prefix);
    NextStepWorks(d);
    var next := prefix + [NextStep(d)];
    assert next[..|prefix|] == prefix;
    if Apply(d, NextStep(d)).sink == Closed {
      DirectionInvariant(next);
      ConservedIsFaithful(Run(FRESH, next));
      rest := [NextStep(d)];
    } else {
      var more := Drains(next);
      rest := [NextStep(d)] + more;
      assert prefix + rest == next + more;
    }
  }
}
