/**
 When the forwarder gets through a list of messages without an error: a condition on every message,
 told by the messages before it and the outcome of the calls made for it.
 */
module PortForwardSuccess {
  import opened Common
  import opened PortForward
  import opened PortForwardRuns
  import opened Forwarders

  // ------------------------------------------------------------ pod frames

  /** The frame that opens a channel: the port number, low byte first. */
  function PortFrame(port: Port): Bytes {
    [(port % 256) as byte, (port / 256) as byte]
  }

  /** The number two bytes spell, the low one first. */
  function Spelled(low: byte, high: byte): int {
    256 * (high as int) + (low as int)
  }

  /** Main result: the first frame of a channel is accepted exactly if it is the port's number; otherwise, which error. */
  lemma FirstFrame(ports: seq<Port>, s: State, ch: nat, bytes: Bytes, ok: bool)
    requires Shaped(ports, s) && ch < |s.channels| && !s.channels[ch].initialized
    ensures HandleFromPod(ports, s, ch, bytes, ok).Ok? <==> bytes == PortFrame(ports[ch / 2])
    ensures |bytes| != 2 <==> HandleFromPod(ports, s, ch, bytes, ok) == Err(InvalidInitialFrameSize)
    ensures |bytes| == 2 && bytes != PortFrame(ports[ch / 2]) ==>
      HandleFromPod(ports, s, ch, bytes, ok) == Err(InvalidPortMapping(Spelled(bytes[0], bytes[1]), ports[ch / 2]))
  {
    if |bytes| == 2 {
      BytesOfPort(bytes, ports[ch / 2]);
    }
  }

  lemma BytesOfPort(bytes: Bytes, port: Port)
    requires |bytes| == 2
    ensures bytes == PortFrame(port) <==> Spelled(bytes[0], bytes[1]) == port as int
  {
    var low, high := bytes[0] as int, bytes[1] as int;
    if 256 * high + low == port as int {
      assert (port / 256) as int == high && (port % 256) as int == low;
      assert bytes == [bytes[0], bytes[1]];
    }
  }

  /**
   A frame from the pod, `seen` frames after the channel's start, on a channel that the port's reader
   has closed or not: when it is handled without error.
   */
  predicate FrameFits(port: Port, odd: bool, seen: nat, shut: bool, bytes: Bytes, ok: bool) {
    && (seen == 0 ==> bytes == PortFrame(port))
    && (odd && seen == 1 ==> ValidUtf8(bytes) && ok)
    && (!odd && seen > 0 && !shut ==> ok)
  }

  lemma FrameIff(ports: seq<Port>, s: State, ch: nat, bytes: Bytes, ok: bool, seen: nat, shut: bool)
    requires Shaped(ports, s) && ch < |s.channels|
    requires s.channels[ch].initialized <==> seen > 0
    requires ch % 2 != 0 ==> (s.senders[ch / 2] <==> seen <= 1)
    requires ch % 2 == 0 ==> (s.channels[ch].shutdown <==> shut) && (s.locals[ch / 2].closed ==> shut)
    ensures HandleFromPod(ports, s, ch, bytes, ok).Ok? <==> FrameFits(ports[ch / 2], ch % 2 != 0, seen, shut, bytes, ok)
  {
    if seen == 0 {
      FirstFrame(ports, s, ch, bytes, ok);
    }
  }

  // ----------------------------------------------------------- one message

  /** What is asked of one message, of the frame if it is one and of the call made for it. */
  predicate MessageFits(ports: seq<Port>, before: seq<Message>, m: Message, ok: bool) {
    match m
    case FromPod(ch, bytes) =>
      && ch as nat < 2 * |ports|
      && FrameFits(ports[ch as nat / 2], ch as nat % 2 != 0, |Payloads(before, ch)|, ToPodClose(ch) in before, bytes, ok)
    case ToPod(_, _) => ok
    case ToPodClose(_) => m !in before ==> ok
    case FromPodClose => ok
  }

  /** With this message the last of the ports' readers has closed, so the close frame is due. */
  ghost predicate Finishes(ports: seq<Port>, before: seq<Message>, m: Message) {
    AllClosed(ports, before + [m]) && !AllClosed(ports, before)
  }

  ghost predicate AllClosed(ports: seq<Port>, ms: seq<Message>) {
    forall i | 0 <= i < |ports| :: ToPodClose(DataChannel(i)) in ms
  }

  ghost predicate StepFits(ports: seq<Port>, before: seq<Message>, m: Message, io: Io) {
    MessageFits(ports, before, m, io.handled) && (Finishes(ports, before, m) ==> io.closeSent)
  }

  /** The state agrees with the messages handled so far, as far as errors are concerned. */
  ghost predicate Tracks(ports: seq<Port>, s: State, before: seq<Message>)
    requires Shaped(ports, s) && |ports| <= 128
  {
    && (forall i | 0 <= i < |ports| :: s.channels[2 * i].shutdown <==> ToPodClose(DataChannel(i)) in before)
    && (forall i | 0 <= i < |ports| :: View(s, i) == Expected(before, i))
    && ClosingOk(ports, s)
  }

  lemma DataFacts(ms: seq<Message>, i: nat, data: byte)
    requires i < 128 && data == (2 * i) as byte
    ensures Expected(ms, i).data.initialized <==> |Payloads(ms, data)| > 0
    ensures Expected(ms, i).data.shutdown <==> ToPodClose(data) in ms
  {
    ExpectedAt(ms, i, data, (2 * i + 1) as byte);
  }

  lemma ErrorFacts(ms: seq<Message>, i: nat, error: byte)
    requires i < 128 && error == (2 * i + 1) as byte
    ensures Expected(ms, i).error.initialized <==> |Payloads(ms, error)| > 0
    ensures Expected(ms, i).sender <==> |Payloads(ms, error)| <= 1
  {
    ExpectedAt(ms, i, (2 * i) as byte, error);
  }

  lemma FromPodIff(ports: seq<Port>, s: State, before: seq<Message>, ch: byte, bytes: Bytes, ok: bool)
    requires Shaped(ports, s) && |ports| <= 128 && Tracks(ports, s, before)
    requires ch as nat < 2 * |ports| ==> s.locals[ch as nat / 2].closed ==> s.channels[2 * (ch as nat / 2)].shutdown
    ensures HandleFromPod(ports, s, ch as nat, bytes, ok).Ok? <==> MessageFits(ports, before, FromPod(ch, bytes), ok)
  {
    if ch as nat < 2 * |ports| {
      var i := ch as nat / 2;
      assert View(s, i) == Expected(before, i);
      if ch as nat % 2 == 0 {
        assert ch == (2 * i) as byte;
        DataFacts(before, i, ch);
      } else {
        assert ch == (2 * i + 1) as byte;
        ErrorFacts(before, i, ch);
      }
      FrameIff(ports, s, ch as nat, bytes, ok, |Payloads(before, ch)|, ToPodClose(ch) in before);
    }
  }

  lemma ToPodCloseIff(ports: seq<Port>, s: State, before: seq<Message>, ch: byte, ok: bool)
    requires Shaped(ports, s) && |ports| <= 128 && Tracks(ports, s, before) && FromReaders(ports, ToPodClose(ch))
    ensures HandleToPodClose(ports, s, ch as nat, ok).Ok? <==> MessageFits(ports, before, ToPodClose(ch), ok)
  {
    var i :| 0 <= i < |ports| && ch == DataChannel(i);
    ChannelOf(i);
  }

  lemma DispatchIff(ports: seq<Port>, s: State, before: seq<Message>, m: Message, ok: bool)
    requires Shaped(ports, s) && |ports| <= 128 && Tracks(ports, s, before) && FromReaders(ports, m)
    requires m.FromPod? && m.ch as nat < 2 * |ports| ==>
      s.locals[m.ch as nat / 2].closed ==> s.channels[2 * (m.ch as nat / 2)].shutdown
    ensures Dispatch(ports, s, m, ok).Ok? <==> MessageFits(ports, before, m, ok)
  {
    match m
    case FromPod(ch, bytes) => FromPodIff(ports, s, before, ch, bytes, ok);
    case ToPodClose(ch) => ToPodCloseIff(ports, s, before, ch, ok);
    case _ =>
  }

  ghost predicate AllShut(ports: seq<Port>, s: State)
    requires Shaped(ports, s)
  {
    forall i | 0 <= i < |ports| :: s.channels[2 * i].shutdown
  }

  /** The close frame is due exactly when the message shuts the last open data channel. */
  lemma CloseDue(ports: seq<Port>, s: State, m: Message, io: Io)
    requires Shaped(ports, s) && |ports| <= 128 && ClosingOk(ports, s) && FromReaders(ports, m)
    requires Dispatch(ports, s, m, io.handled).Ok?
    ensures Shaped(ports, Dispatch(ports, s, m, io.handled).value)
    ensures Handle(ports, s, m, io).Ok? <==>
            (AllShut(ports, Dispatch(ports, s, m, io.handled).value) && !AllShut(ports, s) ==> io.closeSent)
  {
    var s1 := Dispatch(ports, s, m, io.handled).value;
    DispatchTouches(ports, s, m, io.handled);
    DispatchShuts(ports, s, m, io.handled);
    ShutsCount(ports, s, m, s1);
    ShutAll(s.channels, |ports|);
    ShutAll(s1.channels, |ports|);
    if Continued(s, m) {
      assert forall i | 0 <= i < |ports| :: s1.channels[2 * i].shutdown == s.channels[2 * i].shutdown;
    }
  }

  lemma ShutAfter(ports: seq<Port>, s: State, before: seq<Message>, m: Message, s1: State, i: nat)
    requires Shaped(ports, s) && Shaped(ports, s1) && |ports| <= 128 && Tracks(ports, s, before)
    requires FromReaders(ports, m) && Shuts(s, m, s1) && i < |ports|
    ensures s1.channels[2 * i].shutdown <==> ToPodClose(DataChannel(i)) in before + [m]
  {
    ChannelOf(i);
    if m.ToPodClose? {
      ReaderChannel(ports, m);
      assert m.ch == (2 * (m.ch as nat / 2)) as byte;
    }
  }

  /** One message, on a state that tracks the ones before it. */
  lemma StepIff(ports: seq<Port>, s: State, before: seq<Message>, m: Message, io: Io)
    requires Shaped(ports, s) && |ports| <= 128 && Tracks(ports, s, before) && FromReaders(ports, m)
    requires m.FromPod? && m.ch as nat < 2 * |ports| ==>
      s.locals[m.ch as nat / 2].closed ==> s.channels[2 * (m.ch as nat / 2)].shutdown
    ensures Handle(ports, s, m, io).Ok? <==> StepFits(ports, before, m, io)
  {
    DispatchIff(ports, s, before, m, io.handled);
    if Dispatch(ports, s, m, io.handled).Ok? {
      var s1 := Dispatch(ports, s, m, io.handled).value;
      CloseDue(ports, s, m, io);
      DispatchShuts(ports, s, m, io.handled);
      forall i | 0 <= i < |ports| ensures s1.channels[2 * i].shutdown <==> ToPodClose(DataChannel(i)) in before + [m] {
        ShutAfter(ports, s, before, m, s1, i);
      }
      assert AllShut(ports, s1) <==> AllClosed(ports, before + [m]);
      assert AllShut(ports, s) <==> AllClosed(ports, before);
    }
  }

  // -------------------------------------------------------------- whole runs

  lemma RunTracks(ports: seq<Port>, chunks: seq<seq<Bytes>>, frames: seq<Received>, ms: seq<Message>, ios: seq<Io>)
    requires |ms| == |ios| && Valid(ports) && Fifo(ports, chunks, frames, ms) && Forward(ports, ms, ios).Ok?
    ensures Tracks(ports, Forward(ports, ms, ios).value, ms)
  {
    var s := Forward(ports, ms, ios).value;
    ClosesLast(ports, chunks, frames, ms, ios);
    forall i | 0 <= i < |ports|
      ensures View(s, i) == Expected(ms, i)
      ensures s.channels[2 * i].shutdown <==> ToPodClose(DataChannel(i)) in ms
    {
      PortReceives(ports, ms, ios, i);
      ShutdownSeen(ports, ms, ios, i);
    }
  }

  lemma NextIff(ports: seq<Port>, chunks: seq<seq<Bytes>>, frames: seq<Received>, ms: seq<Message>, ios: seq<Io>, m: Message, io: Io)
    requires |ms| == |ios| && Valid(ports) && Fifo(ports, chunks, frames, ms + [m]) && Fifo(ports, chunks, frames, ms)
    requires Forward(ports, ms, ios).Ok?
    ensures Handle(ports, Forward(ports, ms, ios).value, m, io).Ok? <==> StepFits(ports, ms, m, io)
  {
    var s := Forward(ports, ms, ios).value;
    RunTracks(ports, chunks, frames, ms, ios);
    assert m in ms + [m];
    if m.FromPod? && m.ch as nat < 2 * |ports| {
      StillOpen(ports, chunks, frames, ms, ios, m, m.ch as nat / 2);
      ViewParts(s, m.ch as nat / 2);
    }
    StepIff(ports, s, ms, m, io);
  }

  ghost predicate FitsAt(ports: seq<Port>, ms: seq<Message>, ios: seq<Io>, k: nat)
    requires k < |ms| == |ios|
  {
    StepFits(ports, ms[..k], ms[k], ios[k])
  }

  ghost predicate AllFit(ports: seq<Port>, ms: seq<Message>, ios: seq<Io>)
    requires |ms| == |ios|
  {
    forall k | 0 <= k < |ms| :: FitsAt(ports, ms, ios, k)
  }

  /**
   Main result: in every interleaving the forwarder gets through all messages if and only if each of
   them fits: known channel, correct first frame, well-formed error text, and every call made succeeds.
   */
  lemma {:induction false} SucceedsIff(ports: seq<Port>, chunks: seq<seq<Bytes>>, frames: seq<Received>, ms: seq<Message>, ios: seq<Io>)
    requires |ms| == |ios| && Valid(ports) && Fifo(ports, chunks, frames, ms)
    ensures Forward(ports, ms, ios).Ok? <==> AllFit(ports, ms, ios)
  {
    if ms != [] {
      var n := |ms| - 1;
      FifoPrefix(ports, chunks, frames, ms);
      LastApart(ms);
      SucceedsIff(ports, chunks, frames, ms[..n], ios[..n]);
      PrefixFits(ports, ms, ios, n);
      if Forward(ports, ms[..n], ios[..n]).Ok? {
        NextIff(ports, chunks, frames, ms[..n], ios[..n], ms[n], ios[n]);
        assert Forward(ports, ms, ios) == Handle(ports, Forward(ports, ms[..n], ios[..n]).value, ms[n], ios[n]);
      }
    }
  }

  lemma FitsInPrefix(ports: seq<Port>, ms: seq<Message>, ios: seq<Io>, n: nat, k: nat)
    requires |ms| == |ios| && k < n <= |ms|
    ensures FitsAt(ports, ms[..n], ios[..n], k) <==> FitsAt(ports, ms, ios, k)
  {
    assert ms[..n][..k] == ms[..k];
  }

  lemma PrefixFits(ports: seq<Port>, ms: seq<Message>, ios: seq<Io>, n: nat)
    requires |ms| == |ios| && n == |ms| - 1
    ensures AllFit(ports, ms, ios) <==> AllFit(ports, ms[..n], ios[..n]) && StepFits(ports, ms[..n], ms[n], ios[n])
  {
    forall k | 0 <= k < n ensures FitsAt(ports, ms[..n], ios[..n], k) <==> FitsAt(ports, ms, ios, k) {
      FitsInPrefix(ports, ms, ios, n, k);
    }
    assert FitsAt(ports, ms, ios, n) <==> StepFits(ports, ms[..n], ms[n], ios[n]);
  }

  // --------------------------------------------------------- which error ends it

  function FrameError(port: Port, odd: bool, seen: nat, bytes: Bytes): Error {
    if seen == 0 then
      if |bytes| != 2 then InvalidInitialFrameSize else InvalidPortMapping(Spelled(bytes[0], bytes[1]), port)
    else if !odd then WriteBytesFromPod
    else if !ValidUtf8(bytes) then InvalidErrorMessage
    else ForwardErrorMessage
  }

  lemma FrameErr(ports: seq<Port>, s: State, ch: nat, bytes: Bytes, ok: bool, seen: nat)
    requires Shaped(ports, s) && ch < |s.channels| && (s.channels[ch].initialized <==> seen > 0)
    requires HandleFromPod(ports, s, ch, bytes, ok).Err?
    ensures HandleFromPod(ports, s, ch, bytes, ok) == Err(FrameError(ports[ch / 2], ch % 2 != 0, seen, bytes))
  {
    if seen == 0 {
      FirstFrame(ports, s, ch, bytes, ok);
    }
  }

  /** The error that a message which does not fit ends the loop with. */
  function Blame(ports: seq<Port>, before: seq<Message>, m: Message, ok: bool): Error {
    match m
    case FromPod(ch, bytes) =>
      if ch as nat >= 2 * |ports| then InvalidChannel(ch as int)
      else FrameError(ports[ch as nat / 2], ch as nat % 2 != 0, |Payloads(before, ch)|, bytes)
    case ToPod(_, _) => SendWebSocketMessage
    case ToPodClose(_) => if m !in before && !ok then Shutdown else SendWebSocketMessage
    case FromPodClose => Shutdown
  }

  lemma FrameBlame(ports: seq<Port>, s: State, before: seq<Message>, ch: byte, bytes: Bytes, ok: bool)
    requires Shaped(ports, s) && |ports| <= 128 && Tracks(ports, s, before)
    requires HandleFromPod(ports, s, ch as nat, bytes, ok).Err?
    ensures HandleFromPod(ports, s, ch as nat, bytes, ok) == Err(Blame(ports, before, FromPod(ch, bytes), ok))
  {
    if ch as nat < 2 * |ports| {
      var i := ch as nat / 2;
      assert View(s, i) == Expected(before, i);
      if ch as nat % 2 == 0 {
        assert ch == (2 * i) as byte;
        DataFacts(before, i, ch);
      } else {
        assert ch == (2 * i + 1) as byte;
        ErrorFacts(before, i, ch);
      }
      FrameErr(ports, s, ch as nat, bytes, ok, |Payloads(before, ch)|);
    }
  }

  lemma StepBlame(ports: seq<Port>, s: State, before: seq<Message>, m: Message, io: Io)
    requires Shaped(ports, s) && |ports| <= 128 && Tracks(ports, s, before) && FromReaders(ports, m)
    requires Handle(ports, s, m, io).Err?
    ensures Handle(ports, s, m, io) == Err(Blame(ports, before, m, io.handled))
  {
    if Dispatch(ports, s, m, io.handled).Ok? {
      var s1 := Dispatch(ports, s, m, io.handled).value;
      CloseDue(ports, s, m, io);
      DispatchShuts(ports, s, m, io.handled);
      assert m.ToPodClose?;
      ClosedNow(ports, s, before, m, s1, io.handled);
    } else if m.FromPod? {
      FrameBlame(ports, s, before, m.ch, m.bytes, io.handled);
    } else if m.ToPodClose? {
      ToPodCloseIff(ports, s, before, m.ch, io.handled);
      ReaderChannel(ports, m);
    }
  }

  /** A close that was handled either needed no call or had its call succeed. */
  lemma ClosedNow(ports: seq<Port>, s: State, before: seq<Message>, m: Message, s1: State, ok: bool)
    requires Shaped(ports, s) && |ports| <= 128 && Tracks(ports, s, before) && FromReaders(ports, m)
    requires m.ToPodClose? && Dispatch(ports, s, m, ok) == Ok(s1)
    ensures m in before || ok
  {
    ToPodCloseIff(ports, s, before, m.ch, ok);
  }

  /** The state before the first message that does not fit, and the error that message meets. */
  lemma FirstUnfit(ports: seq<Port>, chunks: seq<seq<Bytes>>, frames: seq<Received>, ms: seq<Message>, ios: seq<Io>, m: Message, io: Io)
    requires |ms| == |ios| && Valid(ports) && Fifo(ports, chunks, frames, ms) && Fifo(ports, chunks, frames, ms + [m])
    requires AllFit(ports, ms, ios) && !StepFits(ports, ms, m, io)
    ensures Forward(ports, ms, ios).Ok?
    ensures Handle(ports, Forward(ports, ms, ios).value, m, io) == Err(Blame(ports, ms, m, io.handled))
  {
    SucceedsIff(ports, chunks, frames, ms, ios);
    NextIff(ports, chunks, frames, ms, ios, m, io);
    RunTracks(ports, chunks, frames, ms, ios);
    assert m in ms + [m];
    StepBlame(ports, Forward(ports, ms, ios).value, ms, m, io);
  }

  lemma AllFitUpTo(ports: seq<Port>, ms: seq<Message>, ios: seq<Io>, n: nat)
    requires |ms| == |ios| && n <= |ms|
    requires forall j | 0 <= j < n :: FitsAt(ports, ms, ios, j)
    ensures AllFit(ports, ms[..n], ios[..n])
  {
    forall k | 0 <= k < n ensures FitsAt(ports, ms[..n], ios[..n], k) {
      FitsInPrefix(ports, ms, ios, n, k);
    }
  }

  /** Main result: the first message that does not fit ends the loop, with the error that names what was wrong with it. */
  lemma FailsAs(ports: seq<Port>, chunks: seq<seq<Bytes>>, frames: seq<Received>, ms: seq<Message>, ios: seq<Io>, k: nat)
    requires |ms| == |ios| && Valid(ports) && Fifo(ports, chunks, frames, ms) && k < |ms|
    requires !FitsAt(ports, ms, ios, k) && forall j | 0 <= j < k :: FitsAt(ports, ms, ios, j)
    ensures Forward(ports, ms, ios) == Err(Blame(ports, ms[..k], ms[k], ios[k].handled))
  {
    FifoUpTo(ports, chunks, frames, ms, k);
    FifoUpTo(ports, chunks, frames, ms, k + 1);
    assert ms[..k + 1] == ms[..k] + [ms[k]];
    AllFitUpTo(ports, ms, ios, k);
    FirstUnfit(ports, chunks, frames, ms[..k], ios[..k], ms[k], ios[k]);
    ForwardNext(ports, ms, ios, k);
    ErrorSticks(ports, ms, ios, k + 1);
  }

  lemma ForwardNext(ports: seq<Port>, ms: seq<Message>, ios: seq<Io>, k: nat)
    requires |ms| == |ios| && k < |ms| && Forward(ports, ms[..k], ios[..k]).Ok?
    ensures Forward(ports, ms[..k + 1], ios[..k + 1]) == Handle(ports, Forward(ports, ms[..k], ios[..k]).value, ms[k], ios[k])
  {
    assert ms[..k + 1][..k] == ms[..k] && ios[..k + 1][..k] == ios[..k];
  }

  lemma {:induction false} FifoUpTo(ports: seq<Port>, chunks: seq<seq<Bytes>>, frames: seq<Received>, ms: seq<Message>, k: nat)
    requires Fifo(ports, chunks, frames, ms) && k <= |ms|
    ensures Fifo(ports, chunks, frames, ms[..k])
    decreases |ms|
  {
    if k == |ms| {
      assert ms[..k] == ms;
    } else {
      FifoPrefix(ports, chunks, frames, ms);
      FifoUpTo(ports, chunks, frames, ms[..|ms| - 1], k);
      assert ms[..|ms| - 1][..k] == ms[..k];
    }
  }

  // ------------------------------------------------------------- error texts

  /** A Unicode scalar value. */
  type Scalar = x: int | (0 <= x < 0xD800) || (0xE000 <= x < 0x11_0000)

  /** RFC 3629 section 3. */
  function Encode(x: Scalar): Bytes {
    if x < 0x80 then [x as byte]
    else if x < 0x800 then [(0xC0 + x / 64) as byte, (0x80 + x % 64) as byte]
    else if x < 0x1_0000 then [(0xE0 + x / 4096) as byte, (0x80 + x / 64 % 64) as byte, (0x80 + x % 64) as byte]
    else [(0xF0 + x / 262144) as byte, (0x80 + x / 4096 % 64) as byte, (0x80 + x / 64 % 64) as byte, (0x80 + x % 64) as byte]
  }

  function EncodeAll(xs: seq<Scalar>): Bytes {
    if xs == [] then [] else Encode(xs[0]) + EncodeAll(xs[1..])
  }

  lemma EncodedValid(x: Scalar, rest: Bytes)
    ensures ValidUtf8(Encode(x) + rest) <==> ValidUtf8(rest)
  {
    var b := Encode(x) + rest;
    assert b[|Encode(x)|..] == rest;
  }

  lemma {:induction false} EncodeAllValid(xs: seq<Scalar>)
    ensures ValidUtf8(EncodeAll(xs))
  {
    if xs != [] {
      EncodeAllValid(xs[1..]);
      EncodedValid(xs[0], EncodeAll(xs[1..]));
    }
  }

  /** The scalar value that valid text starts with. */
  lemma FirstScalar(b: Bytes) returns (x: Scalar)
    requires b != [] && ValidUtf8(b)
    ensures Encode(x) <= b && ValidUtf8(b[|Encode(x)|..])
  {
    var c := b[0] as int;
    if c < 0x80 {
      x := c;
    } else if c < 0xE0 {
      x := (c - 0xC0) * 64 + (b[1] as int - 0x80);
      assert x / 64 == c - 0xC0 && x % 64 == b[1] as int - 0x80;
    } else if c < 0xF0 {
      x := ThreeBytes(c - 0xE0, b[1] as int - 0x80, b[2] as int - 0x80);
    } else {
      x := FourBytes(c - 0xF0, b[1] as int - 0x80, b[2] as int - 0x80, b[3] as int - 0x80);
    }
  }

  lemma ThreeBytes(p: int, q: int, r: int) returns (x: Scalar)
    requires 0 <= p < 16 && 0 <= q < 64 && 0 <= r < 64 && (p == 0 ==> q >= 32) && (p == 13 ==> q < 32)
    ensures 0x800 <= x < 0x1_0000 && x / 4096 == p && x / 64 % 64 == q && x % 64 == r
  {
    x := p * 4096 + q * 64 + r;
    assert x / 64 == p * 64 + q;
  }

  lemma FourBytes(p: int, q: int, r: int, t: int) returns (x: Scalar)
    requires 0 <= p < 5 && 0 <= q < 64 && 0 <= r < 64 && 0 <= t < 64 && (p == 0 ==> q >= 16) && (p == 4 ==> q < 16)
    ensures 0x1_0000 <= x < 0x11_0000 && x / 262144 == p && x / 4096 % 64 == q && x / 64 % 64 == r && x % 64 == t
  {
    x := p * 262144 + q * 4096 + r * 64 + t;
    assert x / 64 == p * 4096 + q * 64 + r;
    assert x / 4096 == p * 64 + q;
  }

  lemma {:induction false} Decoded(b: Bytes) returns (xs: seq<Scalar>)
    requires ValidUtf8(b)
    ensures b == EncodeAll(xs)
    decreases |b|
  {
    if b == [] {
      xs := [];
    } else {
      var x := FirstScalar(b);
      var n := |Encode(x)|;
      var rest := Decoded(b[n..]);
      xs := [x] + rest;
      assert xs[1..] == rest;
      assert b == Encode(x) + b[n..];
    }
  }

  /** Main result: an error text is accepted exactly if it encodes a sequence of Unicode scalar values. */
  lemma TextIff(b: Bytes)
    ensures ValidUtf8(b) <==> exists xs :: b == EncodeAll(xs)
  {
    if ValidUtf8(b) {
      var xs := Decoded(b);
    }
    if xs :| b == EncodeAll(xs) {
      EncodeAllValid(xs);
    }
  }
}
