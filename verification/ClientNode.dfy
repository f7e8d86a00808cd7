/**
 * The browser's half of one resumable session, as values: what each call and
 * each relay frame does to the sliding windows, and which frames are sent.
 */
module ClientNode {
  import opened Frames

  datatype Transport = Transport(
    ws: nat,
    open: bool,
    attached: bool,
    detached: bool,
    closed: bool,
    sessionId: string,
    token: string,
    maxUnackedBytes: nat,
    clientAck: nat,
    clientOffset: nat,
    clientSent: nat,
    pending: seq<byte>,
    serverOffset: nat,
    serverAck: nat,
    ackSent: nat,
    received: seq<byte>
  ) {
    /** The sliding windows, which hold whatever the peer sends. */
    ghost predicate Valid() {
      |pending| == clientOffset - clientAck && clientAck <= clientSent <= clientOffset &&
      |received| == serverOffset - serverAck && ackSent <= serverAck &&
      |pending| <= MAX_UNACKED_BYTES && |received| <= MAX_UNACKED_BYTES &&
      maxUnackedBytes <= MAX_UNACKED_BYTES
    }

    /** Both buffers fit the limit the relay announced. */
    predicate Bounded() {
      |pending| <= maxUnackedBytes && |received| <= maxUnackedBytes
    }
  }

  /** A transport before its first socket has opened. */
  function Fresh(ws: nat): Transport {
    Transport(ws, true, false, false, false, "", "", 0, 0, 0, 0, [], 0, 0, 0, [])
  }

  lemma FreshIsValid(ws: nat)
    ensures Fresh(ws).Valid()
  {
  }

  datatype ClientError = MalformedFrame | UnexpectedFrame | WindowMismatch | RelayError(code: ErrorCode)

  datatype Verdict = Taken | Skipped | Failed(error: ClientError)

  datatype Reply = Reply(client: Transport, verdict: Verdict, sends: seq<V2Frame>)

  /** The data frames that carry `unsent` from offset `from` on, 32 KiB at most each. */
  function ChunkFrames(from: nat, unsent: seq<byte>): seq<V2Frame>
    decreases |unsent|
  {
    if unsent == [] then []
    else
      var n := Min(SEND_CHUNK_BYTES, |unsent|);
      [Data(Client, from, unsent[..n])] + ChunkFrames(from + n, unsent[n..])
  }

  /** Sends everything pending when the socket is open, nothing otherwise. */
  function Flush(c: Transport): (Transport, seq<V2Frame>)
    requires c.Valid()
  {
    if !c.open then (c, [])
    else (c.(clientSent := c.clientOffset), ChunkFrames(c.clientSent, c.pending[c.clientSent - c.clientAck..]))
  }

  function SendAck(c: Transport): (Transport, seq<V2Frame>) {
    if !c.attached || c.closed || c.serverAck == c.ackSent then (c, [])
    else if c.open then (c.(ackSent := c.serverAck), [Ack(Server, c.serverAck)])
    else (c, [])
  }

  predicate GraceFits(grace: Option<int>) {
    grace.Some? ==> 1 <= grace.value <= 9007199254740991
  }

  predicate ReadyFits(sessionId: string, token: string, limit: int, grace: Option<int>, cap: Option<int>) {
    1 <= limit <= MAX_UNACKED_BYTES && GraceFits(grace) && GraceFits(cap) &&
    (cap.Some? ==> grace.Some? && grace.value <= cap.value) &&
    IsHexOfLength(sessionId, 32) && IsHexOfLength(token, 64)
  }

  function OnReady(c: Transport, reconnect: bool, f: V2Frame): Reply
    requires f.Ready?
  {
    if reconnect || !ReadyFits(f.sessionId, f.token, f.maxUnackedBytes, f.grantedGraceMs, f.capGraceMs) then
      Reply(c, Failed(MalformedFrame), [])
    else
      Reply(c.(sessionId := f.sessionId, token := f.token, maxUnackedBytes := f.maxUnackedBytes, attached := true),
            Taken, [])
  }

  /** The relay's acknowledgement must lie in the window and its view of serverAck must equal ours. */
  predicate ResumedFits(c: Transport, clientAck: int, serverAck: int) {
    c.clientAck <= clientAck <= c.clientOffset && serverAck == c.serverAck
  }

  function OnResumed(c: Transport, reconnect: bool, clientAck: int, serverAck: int, newToken: string): Reply
    requires c.Valid()
  {
    if !reconnect then Reply(c, Failed(MalformedFrame), [])
    else if !ResumedFits(c, clientAck, serverAck) then Reply(c, Failed(WindowMismatch), [])
    else if !IsHexOfLength(newToken, 64) then Reply(c, Failed(MalformedFrame), [])
    else
      var c := c.(token := newToken, ackSent := c.serverAck, pending := c.pending[clientAck - c.clientAck..],
                  clientAck := clientAck, clientSent := clientAck, attached := true);
      var (flushed, frames) := Flush(c);
      Reply(flushed, Taken, frames)
  }

  predicate DataFits(c: Transport, offset: int, payload: seq<byte>)
    requires c.Valid()
  {
    0 < |payload| <= c.maxUnackedBytes && c.serverAck <= offset <= c.serverOffset &&
    var overlap := Min(|payload|, c.serverOffset - offset);
    var start := offset - c.serverAck;
    c.received[start..start + overlap] == payload[..overlap] &&
    |c.received| + |payload| - overlap <= c.maxUnackedBytes
  }

  function OnData(c: Transport, direction: Direction, offset: int, payload: seq<byte>): Reply
    requires c.Valid()
  {
    if !c.attached then Reply(c, Failed(UnexpectedFrame), [])
    else if direction != Server then Reply(c, Failed(MalformedFrame), [])
    else if !DataFits(c, offset, payload) then Reply(c, Failed(WindowMismatch), [])
    else
      var overlap := Min(|payload|, c.serverOffset - offset);
      Reply(c.(received := c.received + payload[overlap..],
               serverOffset := c.serverOffset + |payload| - overlap), Taken, [])
  }

  function OnAck(c: Transport, direction: Direction, offset: int): Reply
    requires c.Valid()
  {
    if !c.attached then Reply(c, Failed(UnexpectedFrame), [])
    else if direction != Client || offset < c.clientAck || offset > c.clientSent then
      Reply(c, Failed(WindowMismatch), [])
    else
      Reply(c.(pending := c.pending[offset - c.clientAck..], clientAck := offset), Taken, [])
  }

  /** One relay frame on the current socket. */
  function Message(c: Transport, reconnect: bool, f: V2Frame): Reply
    requires c.Valid()
  {
    match f
    case Ready(_, _, _, _, _) => OnReady(c, reconnect, f)
    case Resumed(clientAck, serverAck, newToken) => OnResumed(c, reconnect, clientAck, serverAck, newToken)
    case Data(direction, offset, payload) => OnData(c, direction, offset, payload)
    case Ack(direction, offset) => OnAck(c, direction, offset)
    case Pong => Reply(c, if c.attached then Taken else Failed(UnexpectedFrame), [])
    case Error(code) => Reply(c, Failed(RelayError(code)), [])
    case _ => Reply(c, Failed(UnexpectedFrame), [])
  }

  /** A frame on any socket: ignored unless it is the current one; an error closes the transport. */
  function Receive(c: Transport, ws: nat, reconnect: bool, f: V2Frame): Reply
    requires c.Valid()
  {
    if c.closed || c.ws != ws then Reply(c, Skipped, [])
    else
      var reply := Message(c, reconnect, f);
      if reply.verdict.Failed? then reply.(client := reply.client.(closed := true, open := false)) else reply
  }

  /** One turn of read: up to n received bytes, then the acknowledgement when 32 KiB are due. */
  function Read(c: Transport, n: nat): (Transport, seq<byte>, seq<V2Frame>)
    requires c.Valid()
  {
    var n := Min(n, |c.received|);
    var bytes := c.received[..n];
    var c := c.(received := c.received[n..], serverAck := c.serverAck + n);
    if n > 0 && c.serverAck - c.ackSent >= SEND_CHUNK_BYTES then
      var (acked, frames) := SendAck(c);
      (acked, bytes, frames)
    else (c, bytes, [])
  }

  /** How many of the offered bytes one turn of write accepts. */
  function WriteRoom(c: Transport, p: seq<byte>): (n: nat)
    ensures n <= |p|
    ensures n > 0 ==> !c.closed && |c.pending| + n <= c.maxUnackedBytes
  {
    if c.closed || |c.pending| >= c.maxUnackedBytes then 0 else Min(c.maxUnackedBytes - |c.pending|, |p|)
  }

  /** One turn of write: bytes that fit are kept until acknowledged, and flushed when attached. */
  function Write(c: Transport, p: seq<byte>): (Transport, nat, seq<V2Frame>)
    requires c.Valid()
  {
    var n := WriteRoom(c, p);
    if n == 0 then (c, 0, [])
    else
      var c := c.(pending := c.pending + p[..n], clientOffset := c.clientOffset + n);
      if c.attached then
        var (flushed, frames) := Flush(c);
        (flushed, n, frames)
      else (c, n, [])
  }

  /** One beat of the heartbeat, which pings only while the page is attached and has not let go. */
  function Heartbeat(c: Transport): seq<V2Frame> {
    if c.attached && c.open && !c.closed && !c.detached then [Ping] else []
  }

  /** The current socket closed. */
  function Dropped(c: Transport): Transport {
    c.(open := false, attached := false)
  }

  /** A new socket opened and carries the resume request. */
  function Reopen(c: Transport, ws: nat): (Transport, V2Frame) {
    (c.(ws := ws, open := true), Resume(c.sessionId, c.token, c.clientAck, c.serverAck))
  }

  // ---- What every call and every frame keeps ----

  /** The windows hold after a frame, and no offset went back. */
  ghost predicate KeptBy(c: Transport, after: Transport) {
    after.Valid() && c.clientAck <= after.clientAck && after.clientOffset == c.clientOffset &&
    c.serverOffset <= after.serverOffset && after.serverAck == c.serverAck && c.ackSent <= after.ackSent
  }

  lemma ResumedKeepsWindows(c: Transport, reconnect: bool, clientAck: int, serverAck: int, newToken: string)
    requires c.Valid()
    ensures var after := OnResumed(c, reconnect, clientAck, serverAck, newToken).client;
      KeptBy(c, after) && (c.Bounded() ==> after.Bounded())
  {
  }

  lemma DataKeepsWindows(c: Transport, direction: Direction, offset: int, payload: seq<byte>)
    requires c.Valid()
    ensures var after := OnData(c, direction, offset, payload).client;
      KeptBy(c, after) && (c.Bounded() ==> after.Bounded())
  {
  }

  /** A data frame changes nothing, or appends exactly the part past serverOffset. */
  lemma DataAppendsTail(c: Transport, direction: Direction, offset: int, payload: seq<byte>)
    requires c.Valid()
    ensures var reply := OnData(c, direction, offset, payload);
      var overlap := Min(|payload|, c.serverOffset - offset);
      reply.sends == [] &&
      if reply.verdict.Taken? then
        direction == Server && c.serverAck <= offset <= c.serverOffset &&
        c.received[offset - c.serverAck..offset - c.serverAck + overlap] == payload[..overlap] &&
        reply.client == c.(received := c.received + payload[overlap..],
                          serverOffset := c.serverOffset + |payload| - overlap)
      else reply.client == c
  {
  }

  lemma AckKeepsWindows(c: Transport, direction: Direction, offset: int)
    requires c.Valid()
    ensures OnAck(c, direction, offset).sends == []
    ensures var after := OnAck(c, direction, offset).client;
      KeptBy(c, after) && (c.Bounded() ==> after.Bounded())
  {
  }

  lemma MessageKeepsWindows(c: Transport, reconnect: bool, f: V2Frame)
    requires c.Valid()
    ensures var after := Message(c, reconnect, f).client;
      KeptBy(c, after) && (c.Bounded() && !f.Ready? ==> after.Bounded())
  {
    hide OnResumed, OnData, OnAck;
    match f
    case Resumed(clientAck, serverAck, newToken) => ResumedKeepsWindows(c, reconnect, clientAck, serverAck, newToken);
    case Data(direction, offset, payload) => DataKeepsWindows(c, direction, offset, payload);
    case Ack(direction, offset) => AckKeepsWindows(c, direction, offset);
    case _ =>
  }

  /**
   * No frame, whatever the peer puts in it, breaks a window. Only `ready` may
   * change the announced limit; everything else also keeps both buffers under it.
   */
  lemma ReceiveKeepsWindows(c: Transport, ws: nat, reconnect: bool, f: V2Frame)
    requires c.Valid()
    ensures var after := Receive(c, ws, reconnect, f).client;
      KeptBy(c, after) && (c.Bounded() && !f.Ready? ==> after.Bounded())
  {
    hide Message;
    MessageKeepsWindows(c, reconnect, f);
  }

  lemma WriteKeepsWindows(c: Transport, p: seq<byte>)
    requires c.Valid()
    ensures Write(c, p).0.Valid() && (c.Bounded() ==> Write(c, p).0.Bounded())
    ensures Write(c, p).0.clientOffset == c.clientOffset + Write(c, p).1
  {
  }

  lemma ReadKeepsWindows(c: Transport, n: nat)
    requires c.Valid()
    ensures Read(c, n).0.Valid() && (c.Bounded() ==> Read(c, n).0.Bounded())
    ensures Read(c, n).0.serverAck == c.serverAck + |Read(c, n).1|
  {
  }

  /** A read moves bytes out of the buffer in order and loses none. */
  lemma ReadConserves(c: Transport, n: nat)
    requires c.Valid()
    ensures Read(c, n).1 + Read(c, n).0.received == c.received
  {
  }

  /**
   * A second `ready` on the first socket is accepted, so a peer can lower the
   * limit below what is buffered: the announced bound then holds exactly when
   * the new limit still covers both buffers.
   */
  lemma ReadyKeepsBoundExactlyWhenItCovers(c: Transport, f: V2Frame)
    requires c.Valid() && !c.closed && f.Ready?
    requires ReadyFits(f.sessionId, f.token, f.maxUnackedBytes, f.grantedGraceMs, f.capGraceMs)
    ensures Receive(c, c.ws, false, f).verdict == Taken
    ensures Receive(c, c.ws, false, f).client.Bounded()
        <==> |c.pending| <= f.maxUnackedBytes && |c.received| <= f.maxUnackedBytes
  {
  }

  /** The failing family is not empty: one buffered pair of bytes and a second `ready` with limit 1. */
  lemma SecondReadyBreaksBound() returns (c: Transport, f: V2Frame)
    ensures c.Valid() && c.Bounded() && c.attached && f.Ready?
    ensures Receive(c, c.ws, false, f).verdict == Taken
    ensures !Receive(c, c.ws, false, f).client.Bounded()
  {
    var id := seq(32, _ => '0');
    var token := seq(64, _ => '0');
    f := Ready(id, token, 1, None, None);
    c := Transport(0, true, true, false, false, id, token, MAX_UNACKED_BYTES, 0, 2, 2, [1, 2], 0, 0, 0, []);
  }

  /** What one turn of the flush loop takes off the front. */
  lemma NextChunk(from: nat, pending: seq<byte>, start: nat)
    requires start < |pending|
    ensures var n := Min(SEND_CHUNK_BYTES, |pending| - start);
      ChunkFrames(from, pending[start..])
        == [Data(Client, from, pending[start..start + n])] + ChunkFrames(from + n, pending[start + n..])
  {
    var n := Min(SEND_CHUNK_BYTES, |pending| - start);
    assert pending[start..][..n] == pending[start..start + n];
    assert pending[start..][n..] == pending[start + n..];
  }

  lemma NoChunks(from: nat, unsent: seq<byte>)
    requires |unsent| == 0
    ensures ChunkFrames(from, unsent) == []
  {
  }

  /** A flush sends exactly the unsent bytes, in order, in frames of 1 to 32768 bytes. */
  lemma {:induction false} ChunksCarryAll(from: nat, unsent: seq<byte>)
    ensures DataRun(ChunkFrames(from, unsent), Client, from, from + |unsent|, unsent)
    decreases |unsent|
  {
    if unsent != [] {
      var n := Min(SEND_CHUNK_BYTES, |unsent|);
      ChunksCarryAll(from + n, unsent[n..]);
    }
  }

  /** A write keeps what it takes, and an attached open socket carries exactly the bytes not yet sent. */
  lemma WriteSendsUnsent(c: Transport, p: seq<byte>)
    requires c.Valid()
    ensures var (c', n, frames) := Write(c, p);
      var flushes := n > 0 && c.attached && c.open;
      (n > 0 ==> c.maxUnackedBytes > 0) &&
      c' == c.(pending := c.pending + p[..n], clientOffset := c.clientOffset + n,
               clientSent := if flushes then c.clientOffset + n else c.clientSent) &&
      if flushes then DataRun(frames, Client, c.clientSent, c'.clientOffset, c'.pending[c.clientSent - c.clientAck..])
      else frames == []
  {
    var n := WriteRoom(c, p);
    if n > 0 {
      var grown := c.(pending := c.pending + p[..n], clientOffset := c.clientOffset + n);
      ChunksCarryAll(c.clientSent, grown.pending[c.clientSent - c.clientAck..]);
      hide ChunkFrames;
    } else {
      assert c.pending + p[..0] == c.pending;
    }
  }

  /** Accepting `resumed` adopts its token and acknowledgement and sends everything past it again. */
  lemma ResumedReplays(c: Transport, clientAck: int, newToken: string)
    requires c.Valid() && c.open && ResumedFits(c, clientAck, c.serverAck) && IsHexOfLength(newToken, 64)
    ensures var reply := OnResumed(c, true, clientAck, c.serverAck, newToken);
      reply.verdict == Taken &&
      reply.client == c.(token := newToken, ackSent := c.serverAck, pending := c.pending[clientAck - c.clientAck..],
                         clientAck := clientAck, clientSent := c.clientOffset, attached := true) &&
      DataRun(reply.sends, Client, clientAck, c.clientOffset, reply.client.pending)
  {
    hide IsHexOfLength;
    var rest := c.pending[clientAck - c.clientAck..];
    assert rest[0..] == rest;
    ChunksCarryAll(clientAck, rest);
    hide ChunkFrames;
  }

  /** New data at serverOffset is taken whenever it fits the announced limit. */
  lemma NextDataFits(c: Transport, payload: seq<byte>)
    requires c.Valid() && c.attached && payload != [] && |c.received| + |payload| <= c.maxUnackedBytes
    ensures DataFits(c, c.serverOffset, payload)
    ensures OnData(c, Server, c.serverOffset, payload)
         == Reply(c.(received := c.received + payload, serverOffset := c.serverOffset + |payload|), Taken, [])
  {
    assert payload[0..] == payload;
  }
}
