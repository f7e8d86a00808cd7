/** What each handler of the page's transport does, field by field. */
module PageHandlers {
  import opened Frames
  import C = ClientNode

  // Every outcome is told by its exact condition and its whole effect, in the fields'
  // own terms, so that a handler which takes less, tests less or answers something else
  // does not meet it.

  /** A frame that is refused closes the transport and sends nothing. */
  ghost predicate Fails(c: C.Transport, reply: C.Reply, error: C.ClientError) {
    reply == C.Reply(c.(closed := true, open := false), C.Failed(error), [])
  }

  // ---- Reading and writing ----

  /**
   * A write takes as much as it is offered or as the window leaves room for, whichever
   * is less; so it takes nothing only of nothing, on a closed page or with a full window.
   */
  lemma WriteTakes(c: C.Transport, p: seq<byte>)
    requires c.Valid()
    ensures var (after, n, frames) := C.Write(c, p);
      n <= |p| && after.pending == c.pending + p[..n] && after.clientOffset == c.clientOffset + n &&
      (if c.closed || |c.pending| >= c.maxUnackedBytes then n == 0
       else |after.pending| <= c.maxUnackedBytes && (n == |p| || |after.pending| == c.maxUnackedBytes)) &&
      (n == 0 <==> c.closed || |c.pending| >= c.maxUnackedBytes || p == []) &&
      after == c.(pending := after.pending, clientOffset := after.clientOffset,
                  clientSent := if n > 0 && c.attached && c.open then after.clientOffset else c.clientSent)
  {
    hide C.ChunkFrames;
    assert c.pending + p[..0] == c.pending;
  }

  /** A read hands over as much as was asked for or has been received, whichever is less, from the front. */
  lemma ReadHandsOver(c: C.Transport, n: nat)
    requires c.Valid()
    ensures var (after, bytes, frames) := C.Read(c, n);
      var k := if n <= |c.received| then n else |c.received|;
      var acks := k > 0 && c.serverAck + k - c.ackSent >= 32768 && c.attached && !c.closed && c.open;
      bytes == c.received[..k] && frames == (if acks then [Ack(Server, c.serverAck + k)] else []) &&
      after == c.(received := c.received[k..], serverAck := c.serverAck + k,
                  ackSent := if acks then c.serverAck + k else c.ackSent)
  {
  }

  /** The delayed acknowledgement is sent if there is one to send and a socket to send it on. */
  lemma TimerAcks(c: C.Transport)
    ensures var due := c.attached && !c.closed && c.open && c.ackSent != c.serverAck;
      C.SendAck(c) == (if due then c.(ackSent := c.serverAck) else c, if due then [Ack(Server, c.serverAck)] else [])
  {
  }

  // ---- Frames ----

  /** Frames on other sockets and after the end are skipped. */
  lemma OthersAreSkipped(c: C.Transport, ws: nat, reconnect: bool, f: V2Frame)
    requires c.Valid() && (c.closed || ws != c.ws)
    ensures C.Receive(c, ws, reconnect, f) == C.Reply(c, C.Skipped, [])
  {
  }

  /** Hexadecimal digits in either case, this many. */
  predicate AnyHex(s: string, n: nat) {
    |s| == n && forall i :: 0 <= i < |s| ==> '0' <= s[i] <= '9' || 'a' <= s[i] <= 'f' || 'A' <= s[i] <= 'F'
  }

  lemma ReadyFrame(c: C.Transport, reconnect: bool, id: string, token: string, limit: int,
                   granted: Option<int>, cap: Option<int>)
    requires c.Valid() && !c.closed
    ensures var reply := C.Receive(c, c.ws, reconnect, Ready(id, token, limit, granted, cap));
      if !reconnect && AnyHex(id, 32) && AnyHex(token, 64) && 1 <= limit <= 262144 &&
         (granted.Some? ==> 1 <= granted.value <= 9007199254740991) &&
         (cap.Some? ==> granted.Some? && granted.value <= cap.value <= 9007199254740991)
      then
        reply == C.Reply(c.(sessionId := id, token := token, maxUnackedBytes := limit, attached := true), C.Taken, [])
      else Fails(c, reply, C.MalformedFrame)
  {
  }

  /** `resumed` must agree with what was sent and what was read; then all that is unacknowledged goes out again. */
  lemma ResumedFrame(c: C.Transport, reconnect: bool, clientAck: int, serverAck: int, newToken: string)
    requires c.Valid() && !c.closed
    ensures var reply := C.Receive(c, c.ws, reconnect, Resumed(clientAck, serverAck, newToken));
      if reconnect && c.clientAck <= clientAck <= c.clientOffset && serverAck == c.serverAck && AnyHex(newToken, 64)
      then
        reply.verdict == C.Taken &&
        reply.client == c.(token := newToken, ackSent := c.serverAck, pending := c.pending[clientAck - c.clientAck..],
                           clientAck := clientAck, clientSent := if c.open then c.clientOffset else clientAck,
                           attached := true) &&
        if c.open then DataRun(reply.sends, Client, clientAck, c.clientOffset, reply.client.pending)
        else reply.sends == []
      else
        Fails(c, reply, if reconnect && !(c.clientAck <= clientAck <= c.clientOffset && serverAck == c.serverAck)
                        then C.WindowMismatch else C.MalformedFrame)
  {
    hide C.ChunkFrames;
    if c.clientAck <= clientAck <= c.clientOffset {
      C.ChunksCarryAll(clientAck, c.pending[clientAck - c.clientAck..]);
      var rest := c.pending[clientAck - c.clientAck..];
      assert rest[0..] == rest;
    }
  }

  /** The bytes of a data frame before serverOffset are the ones received there. */
  ghost predicate Repeats(c: C.Transport, offset: int, payload: seq<byte>)
    requires c.Valid()
  {
    c.serverAck <= offset <= c.serverOffset &&
    forall i :: 0 <= i < |payload| && offset + i < c.serverOffset ==> payload[i] == c.received[offset + i - c.serverAck]
  }

  function Added(c: C.Transport, offset: int, payload: seq<byte>): seq<byte>
    requires offset <= c.serverOffset
  {
    if offset + |payload| <= c.serverOffset then [] else payload[c.serverOffset - offset..]
  }

  lemma DataFitsMeans(c: C.Transport, offset: int, payload: seq<byte>)
    requires c.Valid()
    ensures C.DataFits(c, offset, payload) <==>
      (0 < |payload| <= c.maxUnackedBytes && Repeats(c, offset, payload) &&
       |c.received| + |Added(c, offset, payload)| <= c.maxUnackedBytes)
  {
    if c.serverAck <= offset <= c.serverOffset {
      var overlap := Min(|payload|, c.serverOffset - offset);
      var start := offset - c.serverAck;
      if Repeats(c, offset, payload) {
        assert c.received[start..start + overlap] == payload[..overlap];
      }
      if c.received[start..start + overlap] == payload[..overlap] {
        forall i | 0 <= i < |payload| && offset + i < c.serverOffset
          ensures payload[i] == c.received[offset + i - c.serverAck]
        {
          assert c.received[start..start + overlap][i] == payload[..overlap][i];
        }
      }
    }
  }

  /** Server data is taken exactly when it repeats what was received and what it adds fits; all of that is taken. */
  lemma DataFrame(c: C.Transport, reconnect: bool, direction: Direction, offset: int, payload: seq<byte>)
    requires c.Valid() && !c.closed
    ensures var reply := C.Receive(c, c.ws, reconnect, Data(direction, offset, payload));
      if !c.attached then Fails(c, reply, C.UnexpectedFrame)
      else if direction != Server then Fails(c, reply, C.MalformedFrame)
      else if 0 < |payload| <= c.maxUnackedBytes && Repeats(c, offset, payload) &&
              |c.received| + |Added(c, offset, payload)| <= c.maxUnackedBytes then
        var added := Added(c, offset, payload);
        reply == C.Reply(c.(received := c.received + added, serverOffset := c.serverOffset + |added|), C.Taken, [])
      else Fails(c, reply, C.WindowMismatch)
  {
    DataFitsMeans(c, offset, payload);
    hide C.DataFits;
    assert c.received + [] == c.received;
  }

  lemma AckFrame(c: C.Transport, reconnect: bool, direction: Direction, offset: int)
    requires c.Valid() && !c.closed
    ensures var reply := C.Receive(c, c.ws, reconnect, Ack(direction, offset));
      if !c.attached then Fails(c, reply, C.UnexpectedFrame)
      else if direction == Client && c.clientAck <= offset <= c.clientSent then
        reply == C.Reply(c.(pending := c.pending[offset - c.clientAck..], clientAck := offset), C.Taken, [])
      else Fails(c, reply, C.WindowMismatch)
  {
  }

  /** A pong is taken while attached; an error closes with its code; no other frame is expected of a relay. */
  lemma OtherFrames(c: C.Transport, reconnect: bool, f: V2Frame)
    requires c.Valid() && !c.closed && !f.Ready? && !f.Resumed? && !f.Data? && !f.Ack?
    ensures var reply := C.Receive(c, c.ws, reconnect, f);
      if f.Pong? && c.attached then reply == C.Reply(c, C.Taken, [])
      else Fails(c, reply, if f.Error? then C.RelayError(f.code) else C.UnexpectedFrame)
  {
  }

  // ---- Sockets ----

  /** A new socket asks with the page's session, token and both acknowledgements; a lost one leaves the rest. */
  lemma Sockets(c: C.Transport, ws: nat)
    ensures C.Reopen(c, ws) == (c.(ws := ws, open := true), Resume(c.sessionId, c.token, c.clientAck, c.serverAck))
    ensures C.Dropped(c) == c.(open := false, attached := false)
    ensures C.Heartbeat(c) == if c.attached && c.open && !c.closed && !c.detached then [Ping] else []
    ensures C.Fresh(ws) == C.Transport(ws, true, false, false, false, "", "", 0, 0, 0, 0, [], 0, 0, 0, [])
  {
  }
}
