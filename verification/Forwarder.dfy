/** The forwarder loop, updating its tables and writers in place. */
module Forwarders {
  import opened Common
  import opened PortForward

  class Forwarder {
    const ports: seq<Port>
    var channels: seq<ChannelState>
    var closedPorts: nat
    var socketShutdown: bool
    var writers: seq<Local>
    var senders: seq<bool>
    var errors: seq<seq<Bytes>>
    var sent: seq<Frame>

    function Value(): State
      reads this
    {
      State(channels, closedPorts, socketShutdown, writers, senders, errors, sent)
    }

    constructor (ports: seq<Port>)
      ensures this.ports == ports && Value() == Init(|ports|)
    {
      this.ports := ports;
      channels := seq(2 * |ports|, _ => ChannelState(false, false));
      closedPorts := 0;
      socketShutdown := false;
      writers := seq(|ports|, _ => Local([], false));
      senders := seq(|ports|, _ => true);
      errors := seq(|ports|, _ => []);
      sent := [];
    }

    /** One message; on an error the loop ends, so only the error is reported. */
    method HandleMessage(m: Message, io: Io) returns (r: Result<(), Error>)
      requires Shaped(ports, Value())
      modifies this
      ensures
        match Handle(ports, old(Value()), m, io)
        case Ok(s) => r.Ok? && Value() == s
        case Err(e) => r == Err(e)
    {
      match m {
      case FromPod(ch8, bytes) =>
        var ch := ch8 as nat;
        if ch >= |channels| {
          return Err(InvalidChannel(ch));
        }
        var port := ch / 2;
        if !channels[ch].initialized {
          if |bytes| != 2 {
            return Err(InvalidInitialFrameSize);
          }
          var actual := LittleEndian(bytes);
          if actual != ports[port] {
            return Err(InvalidPortMapping(actual, ports[port]));
          }
          channels := channels[ch := channels[ch].(initialized := true)];
          return Ok(());
        }
        if ch % 2 != 0 {
          if senders[port] {
            senders := senders[port := false];
            if !ValidUtf8(bytes) {
              return Err(InvalidErrorMessage);
            }
            if !io.handled {
              return Err(ForwardErrorMessage);
            }
            errors := errors[port := errors[port] + [bytes]];
          }
        } else if !channels[ch].shutdown {
          if !io.handled || writers[port].closed {
            return Err(WriteBytesFromPod);
          }
          writers := writers[port := writers[port].(written := writers[port].written + bytes)];
        }
      case ToPod(ch, bytes) =>
        if !io.handled {
          return Err(SendWebSocketMessage);
        }
        var bin := [ch] + bytes;
        sent := sent + [Data(bin)];
      case ToPodClose(ch8) =>
        var ch := ch8 as nat;
        if ch >= |channels| {
          return Err(InvalidChannel(ch));
        }
        if !channels[ch].shutdown {
          if !io.handled {
            return Err(Shutdown);
          }
          writers := writers[ch / 2 := writers[ch / 2].(closed := true)];
          channels := channels[ch := channels[ch].(shutdown := true)];
          closedPorts := closedPorts + 1;
        }
      case FromPodClose =>
        if !io.handled {
          return Err(Shutdown);
        }
        ghost var before := writers;
        var i := 0;
        while i < |writers|
          invariant 0 <= i <= |writers| == |before|
          invariant forall k | 0 <= k < i :: writers[k] == before[k].(closed := true)
          invariant forall k | i <= k < |writers| :: writers[k] == before[k]
          invariant Value() == old(Value()).(locals := writers)
        {
          writers := writers[i := writers[i].(closed := true)];
          i := i + 1;
        }
        assert writers == CloseAll(before);
      }
      if closedPorts == |ports| && !socketShutdown {
        if !io.closeSent {
          return Err(SendWebSocketMessage);
        }
        sent := sent + [CloseFrame];
        socketShutdown := true;
      }
      r := Ok(());
    }

    /** The loop over the received messages. */
    method ForwarderLoop(ms: seq<Message>, ios: seq<Io>) returns (r: Result<(), Error>)
      requires |ms| == |ios| && Value() == Init(|ports|)
      modifies this
      ensures
        match Forward(ports, ms, ios)
        case Ok(s) => r.Ok? && Value() == s
        case Err(e) => r == Err(e)
    {
      var i := 0;
      while i < |ms|
        invariant 0 <= i <= |ms|
        invariant Forward(ports, ms[..i], ios[..i]) == Ok(Value())
      {
        assert ms[..i + 1][..i] == ms[..i] && ios[..i + 1][..i] == ios[..i];
        r := HandleMessage(ms[i], ios[i]);
        if r.Err? {
          ErrorSticks(ports, ms, ios, i + 1);
          return;
        }
        i := i + 1;
      }
      assert ms[..i] == ms && ios[..i] == ios;
      r := Ok(());
    }
  }

  /** The first error ends the loop. */
  lemma {:induction false} ErrorSticks(ports: seq<Port>, ms: seq<Message>, ios: seq<Io>, k: nat)
    requires |ms| == |ios| && k <= |ms| && Forward(ports, ms[..k], ios[..k]).Err?
    ensures Forward(ports, ms, ios) == Forward(ports, ms[..k], ios[..k])
    decreases |ms|
  {
    if k == |ms| {
      assert ms[..k] == ms && ios[..k] == ios;
    } else {
      var n := |ms| - 1;
      assert ms[..n][..k] == ms[..k] && ios[..n][..k] == ios[..k];
      ErrorSticks(ports, ms[..n], ios[..n], k);
    }
  }
}
