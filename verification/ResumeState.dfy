/**
 * The browser transport object: the fields the Go engine mutates under its
 * mutex, with the loops that advance clientSent. Every method is proved against
 * the value functions of ClientNode.
 */
module ResumeState {
  import opened Frames
  import opened ClientNode

  class State {
    var ws: nat
    var open: bool
    var attached: bool
    var detached: bool
    var closed: bool
    var sessionId: string
    var token: string
    var maxUnackedBytes: nat
    var clientAck: nat
    var clientOffset: nat
    var clientSent: nat
    var pending: seq<byte>
    var serverOffset: nat
    var serverAck: nat
    var ackSent: nat
    var received: seq<byte>
    var ackTimer: bool

    ghost function View(): Transport
      reads this
    {
      Transport(ws, open, attached, detached, closed, sessionId, token, maxUnackedBytes, clientAck, clientOffset,
                clientSent, pending, serverOffset, serverAck, ackSent, received)
    }

    ghost predicate Valid()
      reads this
    {
      View().Valid()
    }

    constructor (socket: nat)
      ensures Valid() && View() == ClientNode.Fresh(socket)
    {
      ws, open, attached, detached, closed := socket, true, false, false, false;
      sessionId, token, maxUnackedBytes := "", "", 0;
      clientAck, clientOffset, clientSent, pending := 0, 0, 0, [];
      serverOffset, serverAck, ackSent, received := 0, 0, 0, [];
      ackTimer := false;
    }

    /** Sends pending bytes from clientSent on, in 32 KiB frames, while the socket is open. */
    method Flush() returns (sends: seq<V2Frame>)
      requires Valid()
      modifies this`clientSent
      ensures Valid()
      ensures View() == ClientNode.Flush(old(View())).0
      ensures sends == ClientNode.Flush(old(View())).1
    {
      hide ChunkFrames;
      sends := [];
      ghost var all := ChunkFrames(clientSent, pending[clientSent - clientAck..]);
      while clientSent < clientOffset && open
        invariant clientAck <= clientSent <= clientOffset
        invariant !open ==> clientSent == old(clientSent) && sends == []
        invariant sends + ChunkFrames(clientSent, pending[clientSent - clientAck..]) == all
        decreases clientOffset - clientSent
      {
        var start := clientSent - clientAck;
        var n := Min(SEND_CHUNK_BYTES, clientOffset - clientSent);
        NextChunk(clientSent, pending, start);
        sends := sends + [Data(Client, clientSent, pending[start..start + n])];
        clientSent := clientSent + n;
      }
      NoChunks(clientOffset, pending[clientOffset - clientAck..]);
    }

    /** Sends the due acknowledgement, if there is one and the socket takes it. */
    method SendAck() returns (sends: seq<V2Frame>)
      requires Valid()
      modifies this`ackSent
      ensures Valid() && (View(), sends) == ClientNode.SendAck(old(View()))
    {
      sends := [];
      if !attached || closed || serverAck == ackSent {
        return;
      }
      if open {
        sends := [Ack(Server, serverAck)];
        ackSent := serverAck;
      }
    }

    method OnReady(reconnect: bool, f: V2Frame) returns (verdict: Verdict)
      requires Valid() && f.Ready?
      modifies this`sessionId, this`token, this`maxUnackedBytes, this`attached
      ensures Valid() && Reply(View(), verdict, []) == ClientNode.OnReady(old(View()), reconnect, f)
    {
      if reconnect || !ReadyFits(f.sessionId, f.token, f.maxUnackedBytes, f.grantedGraceMs, f.capGraceMs) {
        return Failed(MalformedFrame);
      }
      sessionId, token, maxUnackedBytes := f.sessionId, f.token, f.maxUnackedBytes;
      attached := true;
      return Taken;
    }

    method OnResumed(reconnect: bool, ack: int, peerServerAck: int, newToken: string)
      returns (verdict: Verdict, sends: seq<V2Frame>)
      requires Valid()
      modifies this`token, this`ackSent, this`pending, this`clientAck, this`clientSent, this`attached
      ensures Valid()
      ensures Reply(View(), verdict, sends) ==
        ClientNode.OnResumed(old(View()), reconnect, ack, peerServerAck, newToken)
    {
      hide ClientNode.ChunkFrames, ClientNode.Flush, IsHexOfLength;
      sends := [];
      if !reconnect {
        return Failed(MalformedFrame), [];
      }
      if ack < clientAck || ack > clientOffset || peerServerAck != serverAck {
        return Failed(WindowMismatch), [];
      }
      if !IsHexOfLength(newToken, 64) {
        return Failed(MalformedFrame), [];
      }
      token := newToken;
      ackSent := serverAck;
      pending := pending[ack - clientAck..];
      clientAck, clientSent := ack, ack;
      attached := true;
      sends := Flush();
      verdict := Taken;
    }

    method OnData(direction: Direction, offset: int, payload: seq<byte>) returns (verdict: Verdict)
      requires Valid()
      modifies this`received, this`serverOffset
      ensures Valid() && Reply(View(), verdict, []) == ClientNode.OnData(old(View()), direction, offset, payload)
    {
      if !attached {
        return Failed(UnexpectedFrame);
      }
      if direction != Server {
        return Failed(MalformedFrame);
      }
      if payload == [] || |payload| > maxUnackedBytes || offset < serverAck || offset > serverOffset {
        return Failed(WindowMismatch);
      }
      var overlap := Min(|payload|, serverOffset - offset);
      var start := offset - serverAck;
      if received[start..start + overlap] != payload[..overlap] ||
         |received| + |payload| - overlap > maxUnackedBytes
      {
        return Failed(WindowMismatch);
      }
      received := received + payload[overlap..];
      serverOffset := serverOffset + |payload| - overlap;
      return Taken;
    }

    method OnAck(direction: Direction, offset: int) returns (verdict: Verdict)
      requires Valid()
      modifies this`pending, this`clientAck
      ensures Valid() && Reply(View(), verdict, []) == ClientNode.OnAck(old(View()), direction, offset)
    {
      if !attached {
        return Failed(UnexpectedFrame);
      }
      if direction != Client || offset < clientAck || offset > clientSent {
        return Failed(WindowMismatch);
      }
      pending := pending[offset - clientAck..];
      clientAck := offset;
      return Taken;
    }

    /** What each kind of frame does on the current socket. */
    method Message(reconnect: bool, f: V2Frame) returns (verdict: Verdict, sends: seq<V2Frame>)
      requires Valid()
      modifies this
      ensures Valid()
      ensures Reply(View(), verdict, sends) == ClientNode.Message(old(View()), reconnect, f)
    {
      hide ClientNode.OnReady, ClientNode.OnResumed, ClientNode.OnData, ClientNode.OnAck;
      sends := [];
      match f {
        case Ready(_, _, _, _, _) => verdict := OnReady(reconnect, f);
        case Resumed(ack, peerServerAck, newToken) =>
          verdict, sends := OnResumed(reconnect, ack, peerServerAck, newToken);
        case Data(direction, offset, payload) => verdict := OnData(direction, offset, payload);
        case Ack(direction, offset) => verdict := OnAck(direction, offset);
        case Pong => verdict := if attached then Taken else Failed(UnexpectedFrame);
        case Error(code) => verdict := Failed(RelayError(code));
        case _ => verdict := Failed(UnexpectedFrame);
      }
    }

    /** One relay frame on any socket: only the current one counts, and an error closes the transport. */
    method Receive(socket: nat, reconnect: bool, f: V2Frame) returns (verdict: Verdict, sends: seq<V2Frame>)
      requires Valid()
      modifies this
      ensures Valid()
      ensures Reply(View(), verdict, sends) == ClientNode.Receive(old(View()), socket, reconnect, f)
    {
      hide ClientNode.Message;
      if closed || ws != socket {
        return Skipped, [];
      }
      verdict, sends := Message(reconnect, f);
      if verdict.Failed? {
        closed := true;
        open := false;
      }
    }

    /** One turn of read: copies out received bytes and acknowledges at 32 KiB, or arms the delayed timer. */
    method Read(n: nat) returns (bytes: seq<byte>, sends: seq<V2Frame>)
      requires Valid()
      modifies this`received, this`serverAck, this`ackSent, this`ackTimer
      ensures Valid() && (View(), bytes, sends) == ClientNode.Read(old(View()), n)
      ensures ackTimer == if bytes == [] then old(ackTimer) else serverAck - old(ackSent) < 32768
      ensures bytes != [] && attached && open && !closed ==> ackSent == serverAck || ackTimer
    {
      var count := Min(n, |received|);
      bytes := received[..count];
      sends := [];
      if count == 0 {
        return;
      }
      received := received[count..];
      serverAck := serverAck + count;
      if serverAck - ackSent >= SEND_CHUNK_BYTES {
        ackTimer := false;
        sends := SendAck();
      } else if !ackTimer {
        ackTimer := true;
      }
    }

    /** One turn of write: takes what fits the window and flushes it when attached. */
    method Write(p: seq<byte>) returns (n: nat, sends: seq<V2Frame>)
      requires Valid()
      modifies this`pending, this`clientOffset, this`clientSent
      ensures Valid() && (View(), n, sends) == ClientNode.Write(old(View()), p)
    {
      n, sends := 0, [];
      if closed {
        return;
      }
      var room := maxUnackedBytes - |pending|;
      if room > 0 {
        n := Min(room, |p|);
        if n > 0 {
          pending := pending + p[..n];
          clientOffset := clientOffset + n;
          if attached {
            sends := Flush();
          }
        }
      }
    }
  }
}
