/**
 Port forwarding over one WebSocket: the port check, the producers' message
 sequences, and the forwarder loop as a function of the messages it receives.
 `Forwarder.dfy` holds the loop itself.
 */
module PortForward {
  import opened Common

  type Port = x: int | 0 <= x < 0x1_0000

  // ---------------------------------------------------------- the port check

  datatype ValidationError = NoPorts | TooManyPorts | Duplicate(port: Port)

  ghost predicate DistinctPorts(ports: seq<Port>) {
    forall i, j | 0 <= i < j < |ports| :: ports[i] != ports[j]
  }

  /** The validation in front of a port-forward request. */
  method ValidatePorts(ports: seq<Port>) returns (r: Result<(), ValidationError>)
    ensures r.Ok? <==> 1 <= |ports| <= 128 && DistinctPorts(ports)
    ensures r == Err(NoPorts) <==> ports == []
    ensures r == Err(TooManyPorts) <==> |ports| > 128
    ensures r.Err? && r.error.Duplicate? ==> exists i, j | 0 <= i < j < |ports| :: ports[i] == ports[j] == r.error.port
  {
    if ports == [] {
      return Err(NoPorts);
    }
    if |ports| > 128 {
      return Err(TooManyPorts);
    }
    if |ports| > 1 {
      var seen: set<Port> := {};
      for i := 0 to |ports|
        invariant forall p :: p in seen <==> p in ports[..i]
        invariant DistinctPorts(ports[..i])
      {
        if ports[i] in seen {
          var j :| 0 <= j < i && ports[..i][j] == ports[i];
          assert ports[j] == ports[i];
          return Err(Duplicate(ports[i]));
        }
        seen := seen + {ports[i]};
        assert ports[..i + 1] == ports[..i] + [ports[i]];
      }
      assert ports[..|ports|] == ports;
    }
    r := Ok(());
  }

  /** The data channel of the `i`-th port; `i as u8` truncates and the product wraps. */
  function DataChannel(i: nat): byte {
    ((2 * (i % 256)) % 256) as byte
  }

  predicate Valid(ports: seq<Port>) {
    1 <= |ports| <= 128
  }

  /** With at most 128 ports no channel number wraps, so channels are distinct and index the state table. */
  lemma ChannelsFit(ports: seq<Port>, i: nat, j: nat)
    requires Valid(ports) && i < |ports| && j < |ports|
    ensures DataChannel(i) as int == 2 * i < 2 * |ports| <= 256
    ensures i != j ==> DataChannel(i) != DataChannel(j)
  {
  }

  /** One port more and two ports would share a channel. */
  lemma ChannelsClash()
    ensures DataChannel(0) == DataChannel(128)
  {
  }

  // ------------------------------------------------------------- producers

  datatype Message =
    | FromPod(ch: byte, bytes: Bytes)
    | ToPod(ch: byte, bytes: Bytes)
    | FromPodClose
    | ToPodClose(ch: byte)

  /** A message the WebSocket delivers. */
  datatype Received = Binary(data: Bytes) | Close | Other

  function NonEmpty(chunks: seq<Bytes>): seq<Bytes> {
    if chunks == [] then []
    else (if chunks[0] == [] then [] else [chunks[0]]) + NonEmpty(chunks[1..])
  }

  function ToPodMessages(ch: byte, chunks: seq<Bytes>): seq<Message> {
    seq(|chunks|, i requires 0 <= i < |chunks| => ToPod(ch, chunks[i])) + [ToPodClose(ch)]
  }

  /** What a port's reader loop sends: its non-empty chunks in order, then one close. */
  method ToPodLoop(ch: byte, chunks: seq<Bytes>) returns (sent: seq<Message>)
    ensures sent == ToPodMessages(ch, NonEmpty(chunks))
  {
    ghost var kept: seq<Bytes> := [];
    sent := [];
    var i := 0;
    assert chunks[0..] == chunks;
    while i < |chunks|
      invariant 0 <= i <= |chunks|
      invariant NonEmpty(chunks) == kept + NonEmpty(chunks[i..])
      invariant sent == seq(|kept|, k requires 0 <= k < |kept| => ToPod(ch, kept[k]))
    {
      assert chunks[i..][0] == chunks[i] && chunks[i..][1..] == chunks[i + 1..];
      if chunks[i] != [] {
        sent := sent + [ToPod(ch, chunks[i])];
        kept := kept + [chunks[i]];
      }
      i := i + 1;
    }
    assert kept == NonEmpty(chunks);
    sent := sent + [ToPodClose(ch)];
  }

  function FromPodMessages(frames: seq<Received>): seq<Message> {
    if frames == [] then []
    else
      match frames[0]
      case Binary(data) =>
        (if |data| > 1 then [FromPod(data[0], data[1..])] else []) + FromPodMessages(frames[1..])
      case Close => [FromPodClose]
      case Other => FromPodMessages(frames[1..])
  }

  /** What the WebSocket reader loop sends; it stops at a close frame. */
  method FromPodLoop(frames: seq<Received>) returns (sent: seq<Message>)
    ensures sent == FromPodMessages(frames)
  {
    sent := [];
    var i := 0;
    assert frames[0..] == frames;
    while i < |frames|
      invariant 0 <= i <= |frames|
      invariant FromPodMessages(frames) == sent + FromPodMessages(frames[i..])
    {
      assert frames[i..][0] == frames[i] && frames[i..][1..] == frames[i + 1..];
      match frames[i] {
        case Binary(data) =>
          if |data| > 1 {
            sent := sent + [FromPod(data[0], data[1..])];
          }
        case Close =>
          return sent + [FromPodClose];
        case Other =>
      }
      i := i + 1;
    }
  }

  // ------------------------------------------------------------- forwarder

  datatype Error =
    | InvalidChannel(ch: int)
    | InvalidInitialFrameSize
    | InvalidPortMapping(actual: int, expected: Port)
    | InvalidErrorMessage
    | ForwardErrorMessage
    | WriteBytesFromPod
    | SendWebSocketMessage
    | Shutdown

  datatype ChannelState = ChannelState(initialized: bool, shutdown: bool)

  /** The local end of one port: what was written to it, and whether writing was shut down. */
  datatype Local = Local(written: Bytes, closed: bool)

  datatype Frame = Data(payload: Bytes) | CloseFrame

  /** Everything the forwarder loop keeps or has sent. `errors` are the messages each port was sent. */
  datatype State = State(
    channels: seq<ChannelState>,
    closedPorts: nat,
    socketShutdown: bool,
    locals: seq<Local>,
    senders: seq<bool>,
    errors: seq<seq<Bytes>>,
    sent: seq<Frame>)

  /** How the awaited calls of one iteration turn out. */
  datatype Io = Io(handled: bool, closeSent: bool)

  function Init(n: nat): State {
    State(seq(2 * n, _ => ChannelState(false, false)), 0, false,
          seq(n, _ => Local([], false)), seq(n, _ => true), seq(n, _ => []), [])
  }

  predicate Shaped(ports: seq<Port>, s: State) {
    && |s.channels| == 2 * |ports|
    && |s.locals| == |s.senders| == |s.errors| == |ports|
  }

  /** Continuation bytes 10xxxxxx from position `i` on. */
  predicate Continues(b: Bytes, i: nat, n: nat) {
    i + n <= |b| && forall k | i <= k < i + n :: 0x80 <= b[k] as int < 0xC0
  }

  /** Well-formed UTF-8, RFC 3629 section 4. */
  predicate ValidUtf8(b: Bytes) {
    b == [] ||
    var c := b[0] as int;
    if c < 0x80 then ValidUtf8(b[1..])
    else if 0xC2 <= c < 0xE0 then Continues(b, 1, 1) && ValidUtf8(b[2..])
    else if 0xE0 <= c < 0xF0 then
      && Continues(b, 1, 2)
      && (c == 0xE0 ==> b[1] as int >= 0xA0) && (c == 0xED ==> (b[1] as int) < 0xA0)
      && ValidUtf8(b[3..])
    else if 0xF0 <= c < 0xF5 then
      && Continues(b, 1, 3)
      && (c == 0xF0 ==> b[1] as int >= 0x90) && (c == 0xF4 ==> (b[1] as int) < 0x90)
      && ValidUtf8(b[4..])
    else false
  }

  function LittleEndian(b: Bytes): int
    requires |b| == 2
  {
    b[0] as int + 256 * b[1] as int
  }

  function HandleFromPod(ports: seq<Port>, s: State, ch: nat, bytes: Bytes, ok: bool): Result<State, Error>
    requires Shaped(ports, s)
  {
    if ch >= |s.channels| then Err(InvalidChannel(ch))
    else
      var p := ch / 2;
      var channel := s.channels[ch];
      if !channel.initialized then
        if |bytes| != 2 then Err(InvalidInitialFrameSize)
        else if LittleEndian(bytes) != ports[p] then Err(InvalidPortMapping(LittleEndian(bytes), ports[p]))
        else Ok(s.(channels := s.channels[ch := channel.(initialized := true)]))
      else if ch % 2 != 0 then
        if !s.senders[p] then Ok(s)
        else if !ValidUtf8(bytes) then Err(InvalidErrorMessage)
        else if !ok then Err(ForwardErrorMessage)
        else Ok(s.(senders := s.senders[p := false], errors := s.errors[p := s.errors[p] + [bytes]]))
      else if channel.shutdown then Ok(s)
      else if !ok || s.locals[p].closed then Err(WriteBytesFromPod)
      else Ok(s.(locals := s.locals[p := s.locals[p].(written := s.locals[p].written + bytes)]))
  }

  function HandleToPodClose(ports: seq<Port>, s: State, ch: nat, ok: bool): Result<State, Error>
    requires Shaped(ports, s)
  {
    if ch >= |s.channels| then Err(InvalidChannel(ch))
    else if s.channels[ch].shutdown then Ok(s)
    else if !ok then Err(Shutdown)
    else Ok(s.(locals := s.locals[ch / 2 := s.locals[ch / 2].(closed := true)],
               channels := s.channels[ch := s.channels[ch].(shutdown := true)],
               closedPorts := s.closedPorts + 1))
  }

  function CloseAll(locals: seq<Local>): seq<Local> {
    seq(|locals|, i requires 0 <= i < |locals| => locals[i].(closed := true))
  }

  function Dispatch(ports: seq<Port>, s: State, m: Message, ok: bool): Result<State, Error>
    requires Shaped(ports, s)
  {
    match m
    case FromPod(ch, bytes) => HandleFromPod(ports, s, ch as nat, bytes, ok)
    case ToPod(ch, bytes) =>
      if ok then Ok(s.(sent := s.sent + [Data([ch] + bytes)])) else Err(SendWebSocketMessage)
    case ToPodClose(ch) => HandleToPodClose(ports, s, ch as nat, ok)
    case FromPodClose => if ok then Ok(s.(locals := CloseAll(s.locals))) else Err(Shutdown)
  }

  /** The init frame of a channel skips the check at the bottom of the loop. */
  predicate Continued(s: State, m: Message) {
    m.FromPod? && m.ch as nat < |s.channels| && !s.channels[m.ch as nat].initialized
  }

  function MaybeClose(ports: seq<Port>, s: State, ok: bool): Result<State, Error> {
    if s.closedPorts == |ports| && !s.socketShutdown then
      if ok then Ok(s.(sent := s.sent + [CloseFrame], socketShutdown := true)) else Err(SendWebSocketMessage)
    else Ok(s)
  }

  /** One iteration of the forwarder loop. */
  function Handle(ports: seq<Port>, s: State, m: Message, io: Io): Result<State, Error>
    requires Shaped(ports, s)
  {
    var s1 :- Dispatch(ports, s, m, io.handled);
    if Continued(s, m) then Ok(s1) else MaybeClose(ports, s1, io.closeSent)
  }

  lemma HandleShaped(ports: seq<Port>, s: State, m: Message, io: Io)
    requires Shaped(ports, s)
    ensures Handle(ports, s, m, io).Ok? ==> Shaped(ports, Handle(ports, s, m, io).value)
  {
  }

  /** The loop over all received messages; it stops at the first error. */
  function Forward(ports: seq<Port>, ms: seq<Message>, ios: seq<Io>): (r: Result<State, Error>)
    requires |ms| == |ios|
    ensures r.Ok? ==> Shaped(ports, r.value)
  {
    if ms == [] then Ok(Init(|ports|))
    else
      var n := |ms| - 1;
      var s :- Forward(ports, ms[..n], ios[..n]);
      HandleShaped(ports, s, ms[n], ios[n]);
      Handle(ports, s, ms[n], ios[n])
  }
}
