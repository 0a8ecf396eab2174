/**
 What the forwarder does over whole runs, in every interleaving of the producers
 that keeps each producer's own order.
 */
module PortForwardRuns {
  import opened Common
  import opened PortForward

  // ------------------------------------------------- parts of a message list

  /** The payloads received from the pod on one channel. */
  function Payloads(ms: seq<Message>, ch: byte): seq<Bytes> {
    if ms == [] then []
    else
      var m := ms[|ms| - 1];
      Payloads(ms[..|ms| - 1], ch) + (if m.FromPod? && m.ch == ch then [m.bytes] else [])
  }

  /** The messages received before the channel was closed locally. */
  function BeforeClose(ms: seq<Message>, ch: byte): seq<Message> {
    if ms == [] then []
    else
      var before := BeforeClose(ms[..|ms| - 1], ch);
      if ToPodClose(ch) in ms then before else ms
  }

  function Flatten(chunks: seq<Bytes>): Bytes {
    if chunks == [] then [] else Flatten(chunks[..|chunks| - 1]) + chunks[|chunks| - 1]
  }

  function AfterInit(payloads: seq<Bytes>): seq<Bytes> {
    if payloads == [] then [] else payloads[1..]
  }

  /** What one reader loop put into the message list. */
  function Outgoing(ms: seq<Message>, ch: byte): seq<Message> {
    if ms == [] then []
    else
      var m := ms[|ms| - 1];
      Outgoing(ms[..|ms| - 1], ch) + (if (m.ToPod? || m.ToPodClose?) && m.ch == ch then [m] else [])
  }

  /** What the WebSocket reader put into the message list. */
  function Incoming(ms: seq<Message>): seq<Message> {
    if ms == [] then []
    else
      var m := ms[|ms| - 1];
      Incoming(ms[..|ms| - 1]) + (if m.FromPod? || m.FromPodClose? then [m] else [])
  }

  /** The data frames sent for one channel, without the channel prefix. */
  function FramesOn(sent: seq<Frame>, ch: byte): seq<Bytes> {
    if sent == [] then []
    else
      var f := sent[|sent| - 1];
      FramesOn(sent[..|sent| - 1], ch) + (if f.Data? && f.payload != [] && f.payload[0] == ch then [f.payload[1..]] else [])
  }

  function Chunks(out: seq<Message>): seq<Bytes> {
    if out == [] then []
    else
      var m := out[|out| - 1];
      Chunks(out[..|out| - 1]) + (if m.ToPod? then [m.bytes] else [])
  }

  predicate FromReaders(ports: seq<Port>, m: Message) {
    m.ToPod? || m.ToPodClose? ==> exists i | 0 <= i < |ports| :: m.ch == DataChannel(i)
  }

  /** Every producer's messages arrive in its own order; the producers interleave freely. */
  ghost predicate Fifo(ports: seq<Port>, chunks: seq<seq<Bytes>>, frames: seq<Received>, ms: seq<Message>) {
    && |chunks| == |ports|
    && (forall i | 0 <= i < |ports| :: Outgoing(ms, DataChannel(i)) <= ToPodMessages(DataChannel(i), NonEmpty(chunks[i])))
    && (forall m <- ms :: FromReaders(ports, m))
    && Incoming(ms) <= FromPodMessages(frames)
  }

  lemma FifoPrefix(ports: seq<Port>, chunks: seq<seq<Bytes>>, frames: seq<Received>, ms: seq<Message>)
    requires Fifo(ports, chunks, frames, ms) && ms != []
    ensures Fifo(ports, chunks, frames, ms[..|ms| - 1])
  {
    var before := ms[..|ms| - 1];
    forall i | 0 <= i < |ports|
      ensures Outgoing(before, DataChannel(i)) <= ToPodMessages(DataChannel(i), NonEmpty(chunks[i]))
    {
      assert Outgoing(before, DataChannel(i)) <= Outgoing(ms, DataChannel(i));
    }
    assert Incoming(before) <= Incoming(ms);
  }

  // --------------------------------------------------- delivery to the port

  /** The part of the loop's state that concerns one port. */
  datatype PortView = PortView(
    data: ChannelState,
    error: ChannelState,
    local: Local,
    sender: bool,
    errors: seq<Bytes>)

  function View(s: State, i: nat): PortView
    requires i < |s.locals| == |s.senders| == |s.errors| && |s.channels| == 2 * |s.locals|
  {
    PortView(s.channels[2 * i], s.channels[2 * i + 1], s.locals[i], s.senders[i], s.errors[i])
  }

  /** How one message that is handled without error moves a port on. */
  function Moved(v: PortView, i: nat, m: Message): PortView {
    match m
    case ToPod(_, _) => v
    case FromPodClose => v.(local := v.local.(closed := true))
    case ToPodClose(ch) =>
      var closed := v.(local := v.local.(closed := true));
      if ch as int == 2 * i && !v.data.shutdown then closed.(data := v.data.(shutdown := true))
      else if ch as int == 2 * i + 1 && !v.error.shutdown then closed.(error := v.error.(shutdown := true))
      else v
    case FromPod(ch, bytes) =>
      if ch as int == 2 * i then
        if !v.data.initialized then v.(data := v.data.(initialized := true))
        else if v.data.shutdown then v
        else v.(local := v.local.(written := v.local.written + bytes))
      else if ch as int == 2 * i + 1 then
        if !v.error.initialized then v.(error := v.error.(initialized := true))
        else if v.sender then v.(sender := false, errors := v.errors + [bytes])
        else v
      else v
  }

  lemma FromPodMoves(ports: seq<Port>, s: State, ch: byte, bytes: Bytes, ok: bool, i: nat)
    requires i < |ports| && Shaped(ports, s) && HandleFromPod(ports, s, ch as nat, bytes, ok).Ok?
    ensures Shaped(ports, HandleFromPod(ports, s, ch as nat, bytes, ok).value)
    ensures View(HandleFromPod(ports, s, ch as nat, bytes, ok).value, i) == Moved(View(s, i), i, FromPod(ch, bytes))
  {
  }

  lemma ToPodCloseMoves(ports: seq<Port>, s: State, ch: byte, ok: bool, i: nat)
    requires i < |ports| && Shaped(ports, s) && HandleToPodClose(ports, s, ch as nat, ok).Ok?
    ensures Shaped(ports, HandleToPodClose(ports, s, ch as nat, ok).value)
    ensures View(HandleToPodClose(ports, s, ch as nat, ok).value, i) == Moved(View(s, i), i, ToPodClose(ch))
  {
  }

  lemma HandleMoves(ports: seq<Port>, s: State, m: Message, io: Io, i: nat)
    requires i < |ports| && Shaped(ports, s) && Handle(ports, s, m, io).Ok?
    ensures Shaped(ports, Handle(ports, s, m, io).value)
    ensures View(Handle(ports, s, m, io).value, i) == Moved(View(s, i), i, m)
  {
    match m
    case FromPod(ch, bytes) => FromPodMoves(ports, s, ch, bytes, io.handled, i);
    case ToPodClose(ch) => ToPodCloseMoves(ports, s, ch, io.handled, i);
    case _ =>
  }

  /** The payloads of a channel after its init frame and before its close, put together. */
  function Delivered(ms: seq<Message>, ch: byte): Bytes {
    Flatten(AfterInit(Payloads(BeforeClose(ms, ch), ch)))
  }

  lemma {:induction false} PayloadsBeforeClose(ms: seq<Message>, ch: byte)
    ensures BeforeClose(ms, ch) <= ms
    ensures Payloads(BeforeClose(ms, ch), ch) <= Payloads(ms, ch)
    ensures ToPodClose(ch) !in ms ==> BeforeClose(ms, ch) == ms
  {
    if ms != [] && ToPodClose(ch) in ms {
      PayloadsBeforeClose(ms[..|ms| - 1], ch);
    }
  }

  lemma PayloadsStep(ms: seq<Message>, m: Message, ch: byte)
    ensures Payloads(ms + [m], ch) == Payloads(ms, ch) + (if m.FromPod? && m.ch == ch then [m.bytes] else [])
    ensures BeforeClose(ms + [m], ch) ==
            if ToPodClose(ch) in ms || m == ToPodClose(ch) then BeforeClose(ms, ch) else ms + [m]
  {
    assert (ms + [m])[..|ms|] == ms;
  }

  lemma FlattenAfterInit(had: seq<Bytes>, b: Bytes)
    ensures Flatten(AfterInit(had + [b])) == Flatten(AfterInit(had)) + (if had == [] then [] else b)
  {
    if had != [] {
      assert AfterInit(had + [b]) == AfterInit(had) + [b];
      assert (AfterInit(had) + [b])[..|AfterInit(had)|] == AfterInit(had);
    }
  }

  /** The payloads before the close of a channel that has not been closed so far. */
  lemma OpenPayloads(ms: seq<Message>, m: Message, ch: byte)
    requires ToPodClose(ch) !in ms
    ensures Payloads(BeforeClose(ms, ch), ch) == Payloads(ms, ch)
    ensures Payloads(BeforeClose(ms + [m], ch), ch) ==
            Payloads(ms, ch) + (if m.FromPod? && m.ch == ch then [m.bytes] else [])
  {
    PayloadsStep(ms, m, ch);
    PayloadsBeforeClose(ms, ch);
  }

  lemma DeliveredStep(ms: seq<Message>, m: Message, ch: byte)
    ensures Delivered(ms + [m], ch) ==
            Delivered(ms, ch) +
            (if m.FromPod? && m.ch == ch && ToPodClose(ch) !in ms && Payloads(ms, ch) != [] then m.bytes else [])
  {
    if ToPodClose(ch) in ms {
      PayloadsStep(ms, m, ch);
    } else {
      OpenPayloads(ms, m, ch);
      var had := Payloads(ms, ch);
      if m.FromPod? && m.ch == ch {
        FlattenAfterInit(had, m.bytes);
      } else {
        assert had + [] == had;
      }
    }
  }

  /** The six things a port's view depends on. */
  datatype Facts = Facts(seenData: bool, reported: seq<Bytes>, delivered: Bytes, shutData: bool, shutError: bool, podClosed: bool)
  {
    function View(): PortView {
      PortView(
        ChannelState(seenData, shutData),
        ChannelState(reported != [], shutError),
        Local(delivered, shutData || shutError || podClosed),
        |reported| <= 1,
        if |reported| <= 1 then [] else [reported[1]])
    }

    function After(data: byte, error: byte, m: Message): Facts {
      var onData, onError := m.FromPod? && m.ch == data, m.FromPod? && m.ch == error;
      Facts(
        seenData || onData,
        if onError then reported + [m.bytes] else reported,
        if onData && !shutData && seenData then delivered + m.bytes else delivered,
        shutData || (m.ToPodClose? && m.ch == data),
        shutError || (m.ToPodClose? && m.ch == error),
        podClosed || m.FromPodClose?)
    }
  }

  lemma FactsMove(f: Facts, g: Facts, i: nat, m: Message)
    requires i < 128 && g == f.After((2 * i) as byte, (2 * i + 1) as byte, m)
    ensures g.View() == Moved(f.View(), i, m)
  {
  }

  /** The facts about a port, read off the received messages on its two channels alone. */
  function FactsAt(ms: seq<Message>, data: byte, error: byte): Facts {
    Facts(Payloads(ms, data) != [], Payloads(ms, error), Delivered(ms, data),
          ToPodClose(data) in ms, ToPodClose(error) in ms, FromPodClose in ms)
  }

  function FactsOf(ms: seq<Message>, i: nat): Facts
    requires i < 128
  {
    FactsAt(ms, (2 * i) as byte, (2 * i + 1) as byte)
  }

  /** What a port's view must be, in terms of the received messages alone. */
  function Expected(ms: seq<Message>, i: nat): PortView
    requires i < 128
  {
    FactsOf(ms, i).View()
  }

  lemma PayloadsAfter(ms: seq<Message>, m: Message, ch: byte)
    ensures Payloads(ms + [m], ch) == if m.FromPod? && m.ch == ch then Payloads(ms, ch) + [m.bytes] else Payloads(ms, ch)
    ensures ToPodClose(ch) in ms + [m] <==> ToPodClose(ch) in ms || (m.ToPodClose? && m.ch == ch)
  {
    PayloadsStep(ms, m, ch);
    assert Payloads(ms, ch) + [] == Payloads(ms, ch);
  }

  lemma DeliveredAfter(ms: seq<Message>, m: Message, ch: byte)
    ensures Delivered(ms + [m], ch) ==
            if m.FromPod? && m.ch == ch && ToPodClose(ch) !in ms && Payloads(ms, ch) != [] then Delivered(ms, ch) + m.bytes
            else Delivered(ms, ch)
  {
    DeliveredStep(ms, m, ch);
    assert Delivered(ms, ch) + [] == Delivered(ms, ch);
  }

  lemma FactsStep(ms: seq<Message>, m: Message, data: byte, error: byte)
    ensures FactsAt(ms + [m], data, error) == FactsAt(ms, data, error).After(data, error, m)
  {
    PayloadsAfter(ms, m, data);
    PayloadsAfter(ms, m, error);
    DeliveredAfter(ms, m, data);
  }

  lemma ExpectedAt(ms: seq<Message>, i: nat, data: byte, error: byte)
    requires i < 128 && data == (2 * i) as byte && error == (2 * i + 1) as byte
    ensures Expected(ms, i) == FactsAt(ms, data, error).View()
  {
    assert FactsOf(ms, i) == FactsAt(ms, data, error);
  }

  lemma ExpectedStep(ms: seq<Message>, m: Message, i: nat)
    requires i < 128
    ensures Expected(ms + [m], i) == Moved(Expected(ms, i), i, m)
  {
    var data, error := (2 * i) as byte, (2 * i + 1) as byte;
    ExpectedAt(ms, i, data, error);
    ExpectedAt(ms + [m], i, data, error);
    FactsStep(ms, m, data, error);
    ViewFollows(Expected(ms, i), Expected(ms + [m], i), FactsAt(ms, data, error), FactsAt(ms + [m], data, error), i, m);
  }

  lemma ViewFollows(v: PortView, w: PortView, f: Facts, g: Facts, i: nat, m: Message)
    requires i < 128 && v == f.View() && w == g.View()
    requires g == f.After((2 * i) as byte, (2 * i + 1) as byte, m)
    ensures w == Moved(v, i, m)
  {
    FactsMove(f, g, i, m);
  }

  lemma PortStart(ports: seq<Port>, i: nat)
    requires |ports| <= 128 && i < |ports|
    ensures View(Init(|ports|), i) == Expected([], i)
  {
  }

  lemma PortStep(ports: seq<Port>, ms: seq<Message>, s: State, m: Message, io: Io, i: nat)
    requires |ports| <= 128 && i < |ports| && Shaped(ports, s) && Handle(ports, s, m, io).Ok?
    requires View(s, i) == Expected(ms, i)
    ensures Shaped(ports, Handle(ports, s, m, io).value)
    ensures View(Handle(ports, s, m, io).value, i) == Expected(ms + [m], i)
  {
    HandleMoves(ports, s, m, io, i);
    ExpectedStep(ms, m, i);
  }

  lemma LastApart(ms: seq<Message>)
    requires ms != []
    ensures ms[..|ms| - 1] + [ms[|ms| - 1]] == ms
  {
  }

  /**
   Main result: each port's stream has received exactly the in-order concatenation of its data
   channel's payloads after the init frame and before its close, and at most one error message,
   the first payload after the init frame of its error channel.
   */
  lemma {:induction false} PortReceives(ports: seq<Port>, ms: seq<Message>, ios: seq<Io>, i: nat)
    requires |ms| == |ios| && |ports| <= 128 && i < |ports|
    requires Forward(ports, ms, ios).Ok?
    ensures View(Forward(ports, ms, ios).value, i) == Expected(ms, i)
  {
    if ms == [] {
      PortStart(ports, i);
    } else {
      var n := |ms| - 1;
      LastApart(ms);
      PortReceives(ports, ms[..n], ios[..n], i);
      PortStep(ports, ms[..n], Forward(ports, ms[..n], ios[..n]).value, ms[n], ios[n], i);
    }
  }

  // ---------------------------------------------------- from frames to ports

  /** The payloads of a channel's frames up to the first close frame; frames without a payload are skipped. */
  function FramePayloads(frames: seq<Received>, ch: byte): seq<Bytes> {
    if frames == [] || frames[0].Close? then []
    else
      (if frames[0].Binary? && |frames[0].data| > 1 && frames[0].data[0] == ch then [frames[0].data[1..]] else [])
      + FramePayloads(frames[1..], ch)
  }

  lemma {:induction false} PayloadsConcat(a: seq<Message>, b: seq<Message>, ch: byte)
    ensures Payloads(a + b, ch) == Payloads(a, ch) + Payloads(b, ch)
  {
    if b == [] {
      assert a + b == a;
    } else {
      PayloadsConcat(a, b[..|b| - 1], ch);
      assert (a + b)[..|a + b| - 1] == a + b[..|b| - 1];
    }
  }

  lemma PayloadsOne(m: Message, ch: byte)
    ensures Payloads([m], ch) == if m.FromPod? && m.ch == ch then [m.bytes] else []
  {
  }

  /** What the WebSocket reader passes on for a channel is what the frames carry for it. */
  lemma {:induction false} ReaderPayloads(frames: seq<Received>, ch: byte)
    ensures Payloads(FromPodMessages(frames), ch) == FramePayloads(frames, ch)
  {
    if frames != [] {
      match frames[0]
      case Binary(data) =>
        ReaderPayloads(frames[1..], ch);
        if |data| > 1 {
          PayloadsConcat([FromPod(data[0], data[1..])], FromPodMessages(frames[1..]), ch);
          PayloadsOne(FromPod(data[0], data[1..]), ch);
        } else {
          assert [] + FromPodMessages(frames[1..]) == FromPodMessages(frames[1..]);
        }
      case Close => PayloadsOne(FromPodClose, ch);
      case Other => ReaderPayloads(frames[1..], ch);
    }
  }

  lemma {:induction false} IncomingPayloads(ms: seq<Message>, ch: byte)
    ensures Payloads(Incoming(ms), ch) == Payloads(ms, ch)
  {
    if ms != [] {
      var n := |ms| - 1;
      IncomingPayloads(ms[..n], ch);
      var passed := if ms[n].FromPod? || ms[n].FromPodClose? then [ms[n]] else [];
      PayloadsConcat(Incoming(ms[..n]), passed, ch);
      PayloadsOne(ms[n], ch);
    }
  }

  lemma PrefixPayloads(a: seq<Message>, b: seq<Message>, ch: byte)
    requires a <= b
    ensures Payloads(a, ch) <= Payloads(b, ch)
  {
    PayloadsConcat(a, b[|a|..], ch);
    assert a + b[|a|..] == b;
  }

  lemma {:induction false} FlattenConcat(a: seq<Bytes>, b: seq<Bytes>)
    ensures Flatten(a + b) == Flatten(a) + Flatten(b)
  {
    if b == [] {
      assert a + b == a;
    } else {
      FlattenConcat(a, b[..|b| - 1]);
      assert (a + b)[..|a + b| - 1] == a + b[..|b| - 1];
    }
  }

  lemma PrefixDelivered(a: seq<Bytes>, b: seq<Bytes>)
    requires a <= b
    ensures AfterInit(a) <= AfterInit(b) && Flatten(AfterInit(a)) <= Flatten(AfterInit(b))
  {
    var x, y := AfterInit(a), AfterInit(b);
    assert x <= y;
    FlattenConcat(x, y[|x|..]);
    assert x + y[|x|..] == y;
  }

  lemma ArrivedPayloads(ports: seq<Port>, chunks: seq<seq<Bytes>>, frames: seq<Received>, ms: seq<Message>, ch: byte)
    requires Fifo(ports, chunks, frames, ms)
    ensures Payloads(ms, ch) <= FramePayloads(frames, ch)
    ensures Incoming(ms) == FromPodMessages(frames) ==> Payloads(ms, ch) == FramePayloads(frames, ch)
  {
    IncomingPayloads(ms, ch);
    ReaderPayloads(frames, ch);
    PrefixPayloads(Incoming(ms), FromPodMessages(frames), ch);
  }

  lemma ExpectedParts(ms: seq<Message>, i: nat, data: byte, error: byte)
    requires i < 128 && data == (2 * i) as byte && error == (2 * i + 1) as byte
    ensures Expected(ms, i).local.written == Delivered(ms, data)
    ensures Expected(ms, i).errors <= AfterInit(Payloads(ms, error)) && |Expected(ms, i).errors| <= 1
  {
    ExpectedAt(ms, i, data, error);
  }

  /** What a data channel delivers, against what the frames carry for it. */
  lemma DataArrives(ports: seq<Port>, chunks: seq<seq<Bytes>>, frames: seq<Received>, ms: seq<Message>, data: byte)
    requires Fifo(ports, chunks, frames, ms)
    ensures Delivered(ms, data) <= Flatten(AfterInit(FramePayloads(frames, data)))
    ensures Incoming(ms) == FromPodMessages(frames) && ToPodClose(data) !in ms ==>
      Delivered(ms, data) == Flatten(AfterInit(FramePayloads(frames, data)))
  {
    ArrivedPayloads(ports, chunks, frames, ms, data);
    PayloadsBeforeClose(ms, data);
    PrefixDelivered(Payloads(BeforeClose(ms, data), data), FramePayloads(frames, data));
  }

  /** What an error channel reports, against what the frames carry for it. */
  lemma ErrorArrives(ports: seq<Port>, chunks: seq<seq<Bytes>>, frames: seq<Received>, ms: seq<Message>, error: byte)
    requires Fifo(ports, chunks, frames, ms)
    ensures AfterInit(Payloads(ms, error)) <= AfterInit(FramePayloads(frames, error))
  {
    ArrivedPayloads(ports, chunks, frames, ms, error);
    PrefixDelivered(Payloads(ms, error), FramePayloads(frames, error));
  }

  lemma ChannelOf(i: nat)
    requires i < 128
    ensures DataChannel(i) == (2 * i) as byte
  {
  }

  /**
   What a port may have got from the pod: a prefix of the bytes its data frames carry after the first
   frame, all of them if `complete`, and at most the first message of its error frames after theirs.
   */
  predicate GotFrames(frames: seq<Received>, data: byte, error: byte, complete: bool, local: Local, errors: seq<Bytes>) {
    var carried := Flatten(AfterInit(FramePayloads(frames, data)));
    && local.written <= carried
    && (complete ==> local.written == carried)
    && |errors| <= 1 && errors <= AfterInit(FramePayloads(frames, error))
  }

  /** Every frame has been handled and the port's reader has not closed its channel. */
  predicate Complete(frames: seq<Received>, ms: seq<Message>, data: byte) {
    Incoming(ms) == FromPodMessages(frames) && ToPodClose(data) !in ms
  }

  lemma ViewArrives(v: PortView, ports: seq<Port>, chunks: seq<seq<Bytes>>, frames: seq<Received>, ms: seq<Message>,
                    i: nat, data: byte, error: byte)
    requires i < 128 && data == (2 * i) as byte && error == (2 * i + 1) as byte
    requires Fifo(ports, chunks, frames, ms) && v == Expected(ms, i)
    ensures GotFrames(frames, data, error, Complete(frames, ms, data), v.local, v.errors)
  {
    ExpectedParts(ms, i, data, error);
    DataArrives(ports, chunks, frames, ms, data);
    ErrorArrives(ports, chunks, frames, ms, error);
  }

  lemma ViewParts(s: State, i: nat)
    requires i < |s.locals| == |s.senders| == |s.errors| && |s.channels| == 2 * |s.locals|
    ensures View(s, i).local == s.locals[i] && View(s, i).errors == s.errors[i]
  {
  }

  /**
   Main result, from end to end: in every interleaving each local stream has received a prefix of the
   bytes that the pod's frames carry for its data channel after the first frame, and all of them once
   every frame has been handled and the channel is not closed; its error message, if any, is the one
   in the second frame of its error channel.
   */
  lemma PortGetsFrames(ports: seq<Port>, chunks: seq<seq<Bytes>>, frames: seq<Received>, ms: seq<Message>, ios: seq<Io>, i: nat)
    requires |ms| == |ios| && |ports| <= 128 && i < |ports|
    requires Fifo(ports, chunks, frames, ms) && Forward(ports, ms, ios).Ok?
    ensures
      var s := Forward(ports, ms, ios).value;
      GotFrames(frames, DataChannel(i), (2 * i + 1) as byte, Complete(frames, ms, DataChannel(i)), s.locals[i], s.errors[i])
  {
    ChannelOf(i);
    PortGetsFramesOn(ports, chunks, frames, ms, ios, i, DataChannel(i), (2 * i + 1) as byte);
  }

  lemma PortGetsFramesOn(ports: seq<Port>, chunks: seq<seq<Bytes>>, frames: seq<Received>, ms: seq<Message>, ios: seq<Io>,
                         i: nat, data: byte, error: byte)
    requires |ms| == |ios| && |ports| <= 128 && i < |ports| && data == (2 * i) as byte && error == (2 * i + 1) as byte
    requires Fifo(ports, chunks, frames, ms) && Forward(ports, ms, ios).Ok?
    ensures
      var s := Forward(ports, ms, ios).value;
      GotFrames(frames, data, error, Complete(frames, ms, data), s.locals[i], s.errors[i])
  {
    var s := Forward(ports, ms, ios).value;
    PortReceives(ports, ms, ios, i);
    ViewParts(s, i);
    ViewArrives(View(s, i), ports, chunks, frames, ms, i, data, error);
  }

  // ------------------------------------------------------- frames to the pod

  /** What was sent on a channel is what its reader produced, in order. */
  lemma {:induction false} FramesInOrder(ports: seq<Port>, ms: seq<Message>, ios: seq<Io>, ch: byte)
    requires |ms| == |ios| && Forward(ports, ms, ios).Ok?
    ensures FramesOn(Forward(ports, ms, ios).value.sent, ch) == Chunks(Outgoing(ms, ch))
  {
    if ms != [] {
      var n := |ms| - 1;
      LastApart(ms);
      FramesInOrder(ports, ms[..n], ios[..n], ch);
      var s := Forward(ports, ms[..n], ios[..n]).value;
      assert Forward(ports, ms, ios) == Handle(ports, s, ms[n], ios[n]);
      FramesChunksStep(ports, s, ms[..n], ms[n], ios[n], ch);
    }
  }

  lemma FramesChunksStep(ports: seq<Port>, s: State, ms: seq<Message>, m: Message, io: Io, ch: byte)
    requires Shaped(ports, s) && Handle(ports, s, m, io).Ok? && FramesOn(s.sent, ch) == Chunks(Outgoing(ms, ch))
    ensures FramesOn(Handle(ports, s, m, io).value.sent, ch) == Chunks(Outgoing(ms + [m], ch))
  {
    FramesStep(ports, s, m, io, ch);
    ChunksStep(ms, m, ch);
  }

  /** Which parts of the state one message can touch. */
  lemma DispatchTouches(ports: seq<Port>, s: State, m: Message, ok: bool)
    requires Shaped(ports, s) && Dispatch(ports, s, m, ok).Ok?
    ensures
      var s1 := Dispatch(ports, s, m, ok).value;
      && Shaped(ports, s1)
      && s1.socketShutdown == s.socketShutdown
      && s1.sent == (if m.ToPod? then s.sent + [Data([m.ch] + m.bytes)] else s.sent)
  {
  }

  lemma FramesStep(ports: seq<Port>, s: State, m: Message, io: Io, ch: byte)
    requires Shaped(ports, s) && Handle(ports, s, m, io).Ok?
    ensures FramesOn(Handle(ports, s, m, io).value.sent, ch) ==
            FramesOn(s.sent, ch) + (if m.ToPod? && m.ch == ch then [m.bytes] else [])
  {
    var s1 := Dispatch(ports, s, m, io.handled).value;
    DispatchTouches(ports, s, m, io.handled);
    if m.ToPod? {
      FramesSnoc(s.sent, Data([m.ch] + m.bytes), ch);
      assert ([m.ch] + m.bytes)[1..] == m.bytes;
    }
    FramesSnoc(s1.sent, CloseFrame, ch);
  }

  lemma ChunksStep(ms: seq<Message>, m: Message, ch: byte)
    ensures Chunks(Outgoing(ms + [m], ch)) == Chunks(Outgoing(ms, ch)) + (if m.ToPod? && m.ch == ch then [m.bytes] else [])
  {
    var out := Outgoing(ms, ch);
    assert (ms + [m])[..|ms|] == ms;
    assert (out + [m])[..|out|] == out;
    assert out + [] == out;
  }

  lemma FramesSnoc(sent: seq<Frame>, f: Frame, ch: byte)
    ensures FramesOn(sent + [f], ch) ==
            FramesOn(sent, ch) + (if f.Data? && f.payload != [] && f.payload[0] == ch then [f.payload[1..]] else [])
  {
    assert (sent + [f])[..|sent|] == sent;
  }

  lemma {:induction false} ChunksOfPrefix(ch: byte, chunks: seq<Bytes>, out: seq<Message>)
    requires out <= ToPodMessages(ch, chunks)
    ensures Chunks(out) == if |out| <= |chunks| then chunks[..|out|] else chunks
    decreases |out|
  {
    if out != [] {
      var n := |out| - 1;
      ChunksOfPrefix(ch, chunks, out[..n]);
      assert out[n] == ToPodMessages(ch, chunks)[n];
      if n < |chunks| {
        assert chunks[..n] + [chunks[n]] == chunks[..n + 1];
      } else {
        assert chunks[..n] == chunks;
      }
    }
  }

  /**
   Main result: in every interleaving, the frames sent for a port are a prefix of its reader's
   non-empty chunks, in order, and all of them once the reader's close has been handled.
   */
  lemma PortSends(ports: seq<Port>, chunks: seq<seq<Bytes>>, frames: seq<Received>, ms: seq<Message>, ios: seq<Io>, i: nat)
    requires |ms| == |ios| && |ports| <= 128 && i < |ports|
    requires Fifo(ports, chunks, frames, ms) && Forward(ports, ms, ios).Ok?
    ensures FramesOn(Forward(ports, ms, ios).value.sent, DataChannel(i)) <= NonEmpty(chunks[i])
    ensures ToPodClose(DataChannel(i)) in ms ==>
      FramesOn(Forward(ports, ms, ios).value.sent, DataChannel(i)) == NonEmpty(chunks[i])
  {
    var ch := DataChannel(i);
    FramesInOrder(ports, ms, ios, ch);
    ChunksOfPrefix(ch, NonEmpty(chunks[i]), Outgoing(ms, ch));
    if ToPodClose(ch) in ms {
      OutgoingHas(ms, ToPodClose(ch));
      var k :| 0 <= k < |Outgoing(ms, ch)| && Outgoing(ms, ch)[k] == ToPodClose(ch);
      assert ToPodMessages(ch, NonEmpty(chunks[i]))[k] == ToPodClose(ch);
    }
  }

  lemma {:induction false} OutgoingHas(ms: seq<Message>, m: Message)
    requires m in ms && (m.ToPod? || m.ToPodClose?)
    ensures m in Outgoing(ms, m.ch)
  {
    if m != ms[|ms| - 1] {
      OutgoingHas(ms[..|ms| - 1], m);
    }
  }

  /** Skipping empty chunks loses no byte. */
  lemma {:induction false} NonEmptyBytes(chunks: seq<Bytes>)
    ensures Flatten(NonEmpty(chunks)) == Flatten(chunks)
    ensures forall c <- NonEmpty(chunks) :: c != [] && c in chunks
  {
    if chunks != [] {
      NonEmptyBytes(chunks[1..]);
      var first := if chunks[0] == [] then [] else [chunks[0]];
      FlattenConcat(first, NonEmpty(chunks[1..]));
      FlattenConcat([chunks[0]], chunks[1..]);
      FlattenOne(chunks[0]);
      assert [chunks[0]] + chunks[1..] == chunks;
    }
  }

  lemma FlattenOne(c: Bytes)
    ensures Flatten([c]) == c
  {
    assert [c][..0] == [];
  }

  /** A reader sends its chunks in order, one message each, and then exactly one close. */
  lemma ReaderMessages(ch: byte, chunks: seq<Bytes>)
    ensures
      var out := ToPodMessages(ch, chunks);
      && |out| == |chunks| + 1 && out[|chunks|] == ToPodClose(ch)
      && (forall i | 0 <= i < |chunks| :: out[i] == ToPod(ch, chunks[i]))
      && Chunks(out) == chunks
  {
    ChunksOfPrefix(ch, chunks, ToPodMessages(ch, chunks));
  }

  /** The WebSocket reader reports a close exactly if a close frame came, as its last message. */
  lemma {:induction false} ReaderReportsClose(frames: seq<Received>)
    ensures FromPodClose in FromPodMessages(frames) <==> Close in frames
    ensures Close in frames ==> FromPodMessages(frames)[|FromPodMessages(frames)| - 1] == FromPodClose
  {
    if frames != [] && !frames[0].Close? {
      ReaderReportsClose(frames[1..]);
    }
  }

  /**
   Main result, from end to end: in every interleaving the bytes sent for a port are a prefix of the
   bytes its reader read, and all of them once the reader's close has been handled.
   */
  lemma PortSendsBytes(ports: seq<Port>, chunks: seq<seq<Bytes>>, frames: seq<Received>, ms: seq<Message>, ios: seq<Io>, i: nat)
    requires |ms| == |ios| && |ports| <= 128 && i < |ports|
    requires Fifo(ports, chunks, frames, ms) && Forward(ports, ms, ios).Ok?
    ensures
      var out := Flatten(FramesOn(Forward(ports, ms, ios).value.sent, DataChannel(i)));
      out <= Flatten(chunks[i]) && (ToPodClose(DataChannel(i)) in ms ==> out == Flatten(chunks[i]))
  {
    PortSends(ports, chunks, frames, ms, ios, i);
    NonEmptyBytes(chunks[i]);
    PrefixFlatten(FramesOn(Forward(ports, ms, ios).value.sent, DataChannel(i)), NonEmpty(chunks[i]));
  }

  lemma PrefixFlatten(a: seq<Bytes>, b: seq<Bytes>)
    requires a <= b
    ensures Flatten(a) <= Flatten(b)
  {
    FlattenConcat(a, b[|a|..]);
    assert a + b[|a|..] == b;
  }

  // --------------------------------------------------------- closing down

  /** How many data channels are shut down among the first `n` ports. */
  function ShutPorts(channels: seq<ChannelState>, n: nat): nat
    requires 2 * n <= |channels|
  {
    if n == 0 then 0 else ShutPorts(channels, n - 1) + (if channels[2 * (n - 1)].shutdown then 1 else 0)
  }

  lemma {:induction false} ShutUpdate(channels: seq<ChannelState>, n: nat, k: nat, c: ChannelState)
    requires 2 * n <= |channels| && k < |channels|
    ensures ShutPorts(channels[k := c], n) ==
            ShutPorts(channels, n)
            + (if k % 2 == 0 && k / 2 < n && c.shutdown && !channels[k].shutdown then 1 else 0)
            - (if k % 2 == 0 && k / 2 < n && !c.shutdown && channels[k].shutdown then 1 else 0)
  {
    if n > 0 {
      ShutUpdate(channels, n - 1, k, c);
    }
  }

  lemma {:induction false} ShutAll(channels: seq<ChannelState>, n: nat)
    requires 2 * n <= |channels|
    ensures ShutPorts(channels, n) <= n
    ensures ShutPorts(channels, n) == n <==> forall i | 0 <= i < n :: channels[2 * i].shutdown
  {
    if n > 0 {
      ShutAll(channels, n - 1);
    }
  }

  /** A close frame, if any, is the last frame. */
  ghost predicate CloseIsLast(sent: seq<Frame>, shut: bool) {
    && (shut ==> sent != [])
    && (forall k | 0 <= k < |sent| :: sent[k].CloseFrame? <==> shut && k == |sent| - 1)
  }

  /** The counter, the socket flag and the position of the close frame. */
  ghost predicate ClosingOk(ports: seq<Port>, s: State)
    requires Shaped(ports, s)
  {
    && s.closedPorts == ShutPorts(s.channels, |ports|)
    && (s.socketShutdown <==> s.closedPorts == |ports|)
    && CloseIsLast(s.sent, s.socketShutdown)
  }

  /** A message touches the state of at most one channel, and counts when it shuts that one down. */
  ghost predicate Shuts(s: State, m: Message, s1: State) {
    && |s1.channels| == |s.channels|
    && if (m.FromPod? || m.ToPodClose?) && m.ch as nat < |s.channels| then
         var ch := m.ch as nat;
         var closing := m.ToPodClose? && !s.channels[ch].shutdown;
         && s1.closedPorts == s.closedPorts + (if closing then 1 else 0)
         && s1.channels[ch].shutdown == (s.channels[ch].shutdown || closing)
         && s1.channels == s.channels[ch := s1.channels[ch]]
       else
         s1.closedPorts == s.closedPorts && s1.channels == s.channels
  }

  lemma DispatchShuts(ports: seq<Port>, s: State, m: Message, ok: bool)
    requires Shaped(ports, s) && Dispatch(ports, s, m, ok).Ok?
    ensures Shuts(s, m, Dispatch(ports, s, m, ok).value)
  {
    var s1 := Dispatch(ports, s, m, ok).value;
    if m.FromPod? || m.ToPodClose? {
      assert s1.channels == s.channels[m.ch as nat := s1.channels[m.ch as nat]];
    }
  }

  lemma ReaderChannel(ports: seq<Port>, m: Message)
    requires |ports| <= 128 && FromReaders(ports, m) && m.ToPodClose?
    ensures m.ch as nat % 2 == 0 && m.ch as nat / 2 < |ports|
  {
  }

  lemma ShutsCount(ports: seq<Port>, s: State, m: Message, s1: State)
    requires |ports| <= 128 && |s.channels| == 2 * |ports| && FromReaders(ports, m) && Shuts(s, m, s1)
    requires s.closedPorts == ShutPorts(s.channels, |ports|)
    ensures s1.closedPorts == ShutPorts(s1.channels, |ports|)
    ensures s.closedPorts <= s1.closedPorts <= |ports|
    ensures !m.ToPodClose? ==> s1.closedPorts == s.closedPorts
  {
    if (m.FromPod? || m.ToPodClose?) && m.ch as nat < |s.channels| {
      var ch := m.ch as nat;
      if m.ToPodClose? {
        ReaderChannel(ports, m);
      }
      ShutUpdate(s.channels, |ports|, ch, s1.channels[ch]);
    }
    ShutAll(s1.channels, |ports|);
  }

  lemma ClosingStep(ports: seq<Port>, s: State, m: Message, io: Io)
    requires |ports| <= 128 && Shaped(ports, s) && ClosingOk(ports, s)
    requires FromReaders(ports, m) && Handle(ports, s, m, io).Ok?
    requires m.ToPod? ==> !s.socketShutdown
    ensures Shaped(ports, Handle(ports, s, m, io).value)
    ensures ClosingOk(ports, Handle(ports, s, m, io).value)
  {
    var s1 := Dispatch(ports, s, m, io.handled).value;
    DispatchTouches(ports, s, m, io.handled);
    DispatchShuts(ports, s, m, io.handled);
    ShutsCount(ports, s, m, s1);
    assert CloseIsLast(s1.sent, s1.socketShutdown);
  }

  /** Once a reader has closed, nothing more comes from it. */
  lemma NothingAfterClose(ch: byte, chunks: seq<Bytes>, ms: seq<Message>, m: Message)
    requires ToPodClose(ch) in ms && (m.ToPod? || m.ToPodClose?) && m.ch == ch
    ensures !(Outgoing(ms + [m], ch) <= ToPodMessages(ch, chunks))
  {
    assert (ms + [m])[..|ms|] == ms;
    var out := Outgoing(ms, ch);
    OutgoingHas(ms, ToPodClose(ch));
    var k :| 0 <= k < |out| && out[k] == ToPodClose(ch);
    assert (out + [m])[k] == ToPodClose(ch) && k + 1 < |out + [m]|;
    var all := ToPodMessages(ch, chunks);
    assert forall j | 0 <= j < |all| - 1 :: all[j].ToPod?;
  }

  lemma {:induction false} ClosingHolds(ports: seq<Port>, chunks: seq<seq<Bytes>>, frames: seq<Received>, ms: seq<Message>, ios: seq<Io>)
    requires |ms| == |ios| && Valid(ports)
    requires Fifo(ports, chunks, frames, ms) && Forward(ports, ms, ios).Ok?
    ensures ClosingOk(ports, Forward(ports, ms, ios).value)
  {
    if ms == [] {
      ShutNone(|ports|);
    } else {
      var n := |ms| - 1;
      FifoPrefix(ports, chunks, frames, ms);
      ClosingHolds(ports, chunks, frames, ms[..n], ios[..n]);
      LastApart(ms);
      assert ms[n] in ms;
      SilentAfterClose(ports, chunks, frames, ms[..n], ios[..n], ms[n]);
      ClosingStep(ports, Forward(ports, ms[..n], ios[..n]).value, ms[n], ios[n]);
    }
  }

  /**
   Main result: the close frame is sent exactly when every port's reader has closed, at most once,
   and no frame follows it (RFC 6455 section 5.5.1); the counter is the number of closed ports.
   */
  lemma ClosesLast(ports: seq<Port>, chunks: seq<seq<Bytes>>, frames: seq<Received>, ms: seq<Message>, ios: seq<Io>)
    requires |ms| == |ios| && Valid(ports)
    requires Fifo(ports, chunks, frames, ms) && Forward(ports, ms, ios).Ok?
    ensures ClosingOk(ports, Forward(ports, ms, ios).value)
    ensures CloseFrame in Forward(ports, ms, ios).value.sent <==>
            forall i | 0 <= i < |ports| :: ToPodClose(DataChannel(i)) in ms
  {
    ClosingHolds(ports, chunks, frames, ms, ios);
    ClosedIff(ports, ms, ios);
  }

  lemma SilentAfterClose(ports: seq<Port>, chunks: seq<seq<Bytes>>, frames: seq<Received>, ms: seq<Message>, ios: seq<Io>, m: Message)
    requires |ms| == |ios| && Valid(ports) && Forward(ports, ms, ios).Ok?
    requires Fifo(ports, chunks, frames, ms + [m])
    requires ClosingOk(ports, Forward(ports, ms, ios).value)
    ensures m.ToPod? ==> !Forward(ports, ms, ios).value.socketShutdown
  {
    assert m in ms + [m];
    ClosedIff(ports, ms, ios);
    var sent := Forward(ports, ms, ios).value.sent;
    if m.ToPod? && Forward(ports, ms, ios).value.socketShutdown {
      assert sent[|sent| - 1].CloseFrame?;
      var i :| 0 <= i < |ports| && m.ch == DataChannel(i);
      NothingAfterClose(m.ch, NonEmpty(chunks[i]), ms, m);
    }
  }

  lemma ClosedIff(ports: seq<Port>, ms: seq<Message>, ios: seq<Io>)
    requires |ms| == |ios| && Valid(ports) && Forward(ports, ms, ios).Ok?
    requires ClosingOk(ports, Forward(ports, ms, ios).value)
    ensures CloseFrame in Forward(ports, ms, ios).value.sent <==>
            forall i | 0 <= i < |ports| :: ToPodClose(DataChannel(i)) in ms
  {
    forall i | 0 <= i < |ports| {
      ShutdownSeen(ports, ms, ios, i);
    }
    ClosedIffShut(ports, Forward(ports, ms, ios).value);
  }

  lemma ShutdownSeen(ports: seq<Port>, ms: seq<Message>, ios: seq<Io>, i: nat)
    requires |ms| == |ios| && |ports| <= 128 && i < |ports| && Forward(ports, ms, ios).Ok?
    ensures Forward(ports, ms, ios).value.channels[2 * i].shutdown <==> ToPodClose(DataChannel(i)) in ms
  {
    PortReceives(ports, ms, ios, i);
    ExpectedShut(ms, i);
    assert Forward(ports, ms, ios).value.channels[2 * i] == View(Forward(ports, ms, ios).value, i).data;
  }

  lemma ExpectedShut(ms: seq<Message>, i: nat)
    requires i < 128
    ensures Expected(ms, i).data.shutdown <==> ToPodClose(DataChannel(i)) in ms
  {
    ChannelOf(i);
    ExpectedAt(ms, i, (2 * i) as byte, (2 * i + 1) as byte);
  }

  lemma ClosedIffShut(ports: seq<Port>, s: State)
    requires Shaped(ports, s) && ClosingOk(ports, s)
    ensures CloseFrame in s.sent <==> forall i | 0 <= i < |ports| :: s.channels[2 * i].shutdown
  {
    ShutAll(s.channels, |ports|);
    if s.socketShutdown {
      assert s.sent[|s.sent| - 1].CloseFrame?;
    }
  }

  lemma {:induction false} ShutNone(n: nat)
    ensures forall k | n <= k :: ShutPorts(seq(2 * k, _ => ChannelState(false, false)), n) == 0
  {
    if n > 0 {
      ShutNone(n - 1);
    }
  }

  // ------------------------------------------------------------ who can fail

  predicate Faulty(e: Error) {
    e.SendWebSocketMessage? || e.WriteBytesFromPod? || e.Shutdown? || e.ForwardErrorMessage?
  }

  lemma {:induction false} IncomingHas(ms: seq<Message>, m: Message)
    requires m in ms && (m.FromPod? || m.FromPodClose?)
    ensures m in Incoming(ms)
  {
    if m != ms[|ms| - 1] {
      IncomingHas(ms[..|ms| - 1], m);
    }
  }

  /** The WebSocket reader sends nothing after it has reported the close. */
  lemma {:induction false} ReaderStops(frames: seq<Received>, k: nat)
    requires k < |FromPodMessages(frames)| && FromPodMessages(frames)[k] == FromPodClose
    ensures k == |FromPodMessages(frames)| - 1
  {
    if frames[0].Binary? && |frames[0].data| > 1 {
      ReaderStops(frames[1..], k - 1);
    } else if !frames[0].Close? {
      ReaderStops(frames[1..], k);
    }
  }

  lemma ReadersCloseData(ports: seq<Port>, i: nat)
    requires |ports| <= 128 && i < |ports|
    ensures !FromReaders(ports, ToPodClose((2 * i + 1) as byte))
  {
  }

  lemma NoOtherClose(ports: seq<Port>, chunks: seq<seq<Bytes>>, frames: seq<Received>, ms: seq<Message>, m: Message, i: nat)
    requires |ports| <= 128 && i < |ports| && Fifo(ports, chunks, frames, ms + [m]) && m.FromPod?
    ensures ToPodClose((2 * i + 1) as byte) !in ms && FromPodClose !in ms
  {
    var error := ToPodClose((2 * i + 1) as byte);
    assert error in ms ==> error in ms + [m];
    ReadersCloseData(ports, i);
    if FromPodClose in ms {
      NothingAfterPodClose(frames, ms, m);
    }
  }

  lemma OpenUnlessShut(s: State, ms: seq<Message>, i: nat)
    requires i < |s.locals| == |s.senders| == |s.errors| <= 128 && |s.channels| == 2 * |s.locals|
    requires View(s, i) == Expected(ms, i)
    requires ToPodClose((2 * i + 1) as byte) !in ms && FromPodClose !in ms
    ensures View(s, i).local.closed ==> View(s, i).data.shutdown
  {
    var f := FactsOf(ms, i);
    assert !f.shutError && !f.podClosed;
  }

  /** While the pod still sends, neither it nor the port's reader has closed the port's stream. */
  lemma StillOpen(ports: seq<Port>, chunks: seq<seq<Bytes>>, frames: seq<Received>, ms: seq<Message>, ios: seq<Io>, m: Message, i: nat)
    requires |ms| == |ios| && Valid(ports) && i < |ports| && Forward(ports, ms, ios).Ok?
    requires Fifo(ports, chunks, frames, ms + [m]) && m.FromPod?
    ensures var v := View(Forward(ports, ms, ios).value, i); v.local.closed ==> v.data.shutdown
  {
    PortReceives(ports, ms, ios, i);
    NoOtherClose(ports, chunks, frames, ms, m, i);
    OpenUnlessShut(Forward(ports, ms, ios).value, ms, i);
  }

  lemma NothingAfterPodClose(frames: seq<Received>, ms: seq<Message>, m: Message)
    requires FromPodClose in ms && m.FromPod?
    ensures !(Incoming(ms + [m]) <= FromPodMessages(frames))
  {
    IncomingHas(ms, FromPodClose);
    assert (ms + [m])[..|ms|] == ms;
    var k :| 0 <= k < |Incoming(ms)| && Incoming(ms)[k] == FromPodClose;
    assert Incoming(ms + [m])[k] == FromPodClose && k + 1 < |Incoming(ms + [m])|;
    if k < |FromPodMessages(frames)| && FromPodMessages(frames)[k] == FromPodClose {
      ReaderStops(frames, k);
    }
  }

  lemma FailsOnPod(ports: seq<Port>, s: State, m: Message)
    requires |ports| <= 128 && Shaped(ports, s) && FromReaders(ports, m)
    requires m.FromPod? && m.ch as nat < |s.channels| ==>
      var v := View(s, m.ch as nat / 2); v.local.closed ==> v.data.shutdown
    requires Handle(ports, s, m, Io(true, true)).Err?
    ensures m.FromPod? && !Faulty(Handle(ports, s, m, Io(true, true)).error)
  {
  }

  /**
   When the awaited calls succeed, the loop never writes to a stream it shut down and never meets
   an unknown channel of its own: only a misbehaving pod can end it.
   */
  lemma OnlyThePodFails(ports: seq<Port>, chunks: seq<seq<Bytes>>, frames: seq<Received>, ms: seq<Message>, ios: seq<Io>, m: Message)
    requires |ms| == |ios| && Valid(ports)
    requires Fifo(ports, chunks, frames, ms + [m]) && Forward(ports, ms, ios).Ok?
    requires Handle(ports, Forward(ports, ms, ios).value, m, Io(true, true)).Err?
    ensures m.FromPod? && !Faulty(Handle(ports, Forward(ports, ms, ios).value, m, Io(true, true)).error)
  {
    assert m in ms + [m];
    if m.FromPod? && m.ch as nat < 2 * |ports| {
      StillOpen(ports, chunks, frames, ms, ios, m, m.ch as nat / 2);
    }
    FailsOnPod(ports, Forward(ports, ms, ios).value, m);
  }
}
