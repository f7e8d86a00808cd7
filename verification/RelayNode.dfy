/** The relay's half of one resumable session, as values. */
module RelayNode {
  import opened Frames

  // What each event does to the session, which frames it sends and which bytes reach the
  // target. The retained server bytes are one sequence here; RelaySession refines it to
  // the chunk list the relay really keeps.

  /** A target write whose completion callback has not run yet. */
  datatype Write = Write(length: nat, end: nat)

  datatype Relay = Relay(
    live: bool,
    id: string,
    origin: string,
    token: string,
    previousToken: Option<string>,
    attached: Option<nat>,
    serverAck: nat,
    serverOffset: nat,
    serverSent: nat,
    retained: seq<byte>,
    clientOffset: nat,
    clientAck: nat,
    clientHistoryStart: nat,
    clientHistory: seq<byte>,
    pendingClientBytes: nat,
    writes: seq<Write>
  ) {
    /** The retained window: exactly the bytes in [serverAck, serverOffset). */
    ghost predicate ServerWindow() {
      serverAck <= serverSent <= serverOffset <= serverAck + MAX_UNACKED_BYTES &&
      (live ==> |retained| == serverOffset - serverAck)
    }

    /**
     * The history window: clientHistory ends at clientOffset and reaches back to
     * clientAck, so any replay from an acknowledged offset can be compared.
     */
    ghost predicate ClientWindow() {
      clientHistoryStart <= clientAck <= clientOffset &&
      clientHistoryStart + |clientHistory| == clientOffset &&
      |clientHistory| <= MAX_UNACKED_BYTES &&
      (clientHistoryStart == 0 || |clientHistory| == MAX_UNACKED_BYTES) &&
      pendingClientBytes == clientOffset - clientAck <= MAX_UNACKED_BYTES &&
      (live ==> WriteChain(writes, clientAck, clientOffset))
    }

    ghost predicate Valid() {
      ServerWindow() && ClientWindow()
    }

    /** Bytes the session pins in the relay's memory. */
    function HeldBytes(): nat {
      |retained| + |clientHistory| + pendingClientBytes
    }
  }

  /** Pending writes cover (from, to] without gaps, oldest first. */
  ghost predicate WriteChain(writes: seq<Write>, from: nat, to: nat) {
    if writes == [] then from == to
    else writes[0].length > 0 && writes[0].end == from + writes[0].length && WriteChain(writes[1..], writes[0].end, to)
  }

  lemma {:induction false} WriteChainBounds(writes: seq<Write>, from: nat, to: nat)
    requires WriteChain(writes, from, to)
    ensures from <= to
    ensures writes != [] ==> writes[0].end <= to
  {
    if writes != [] {
      WriteChainBounds(writes[1..], writes[0].end, to);
    }
  }

  datatype Sent = Sent(ws: nat, frame: V2Frame)

  datatype Reply = Reply(relay: Relay, outcome: Outcome, sends: seq<Sent>, written: seq<byte>)

  function ToAttached(r: Relay, f: V2Frame): seq<Sent> {
    if r.attached.Some? then [Sent(r.attached.value, f)] else []
  }

  /** A session as `connect` creates it, once the target has connected. */
  function Connected(id: string, origin: string, token: string, ws: nat): Relay {
    Relay(true, id, origin, token, None, Some(ws), 0, 0, 0, [], 0, 0, 0, [], 0, [])
  }

  lemma ConnectedIsValid(id: string, origin: string, token: string, ws: nat)
    ensures Connected(id, origin, token, ws).Valid()
  {
  }

  function Revoke(r: Relay, code: ErrorCode, outcome: Outcome): Reply {
    if !r.live then Reply(r, Ignored, [], [])
    else Reply(r.(live := false, retained := []), outcome, ToAttached(r, Error(code)), [])
  }

  function AcknowledgeServer(r: Relay, offset: nat): Relay
    requires r.live && r.Valid() && r.serverAck <= offset <= r.serverOffset
  {
    r.(serverAck := offset, retained := r.retained[offset - r.serverAck..])
  }

  /** One data frame of n bytes, the unit the relay's flush repeats. */
  function SendData(r: Relay, n: nat): (Relay, V2Frame)
    requires r.live && r.Valid() && r.serverSent + n <= r.serverOffset
  {
    var at := r.serverSent - r.serverAck;
    (r.(serverSent := r.serverSent + n), Data(Server, r.serverSent, r.retained[at..at + n]))
  }

  /** The frames one flush may send: contiguous, non-empty, at most 32 KiB each. */
  ghost predicate Flushed(r: Relay, frames: seq<V2Frame>, r': Relay)
    requires r.live && r.Valid()
    decreases |frames|
  {
    if frames == [] then r' == r
    else
      frames[0].Data? &&
      var n := |frames[0].payload|;
      0 < n <= SEND_CHUNK_BYTES && r.serverSent + n <= r.serverOffset &&
      frames[0] == SendData(r, n).1 && Flushed(SendData(r, n).0, frames[1..], r')
  }

  /** How much of a client data frame the relay has already taken. */
  function Overlap(r: Relay, offset: int, payload: seq<byte>): int {
    Min(r.clientOffset - offset, |payload|)
  }

  /** The duplicate-detection test: in the history window and equal where it overlaps. */
  predicate ReplayMatches(r: Relay, offset: int, payload: seq<byte>)
    requires r.ClientWindow()
  {
    var overlap := Overlap(r, offset, payload);
    r.clientHistoryStart <= offset <= r.clientOffset &&
    (overlap > 0 ==>
      var at := offset - r.clientHistoryStart;
      r.clientHistory[at..at + overlap] == payload[..overlap])
  }

  /** Keeps the last MAX_UNACKED_BYTES of the history. */
  function TrimHistory(history: seq<byte>): (trimmed: seq<byte>)
  {
    if |history| > MAX_UNACKED_BYTES then history[|history| - MAX_UNACKED_BYTES..] else history
  }

  /** Appends new client bytes: history, offsets and one more pending write. */
  function TakeClientBytes(r: Relay, added: seq<byte>): Relay
    requires r.ClientWindow()
  {
    var history := r.clientHistory + added;
    r.(clientHistory := TrimHistory(history),
       clientHistoryStart := r.clientHistoryStart + |history| - |TrimHistory(history)|,
       clientOffset := r.clientOffset + |added|,
       pendingClientBytes := r.pendingClientBytes + |added|,
       writes := r.writes + [Write(|added|, r.clientOffset + |added|)])
  }

  function OnClientData(r: Relay, ws: nat, offset: int, payload: seq<byte>): Reply
    requires r.live && r.Valid()
  {
    if !ReplayMatches(r, offset, payload) then Revoke(r, OffsetMismatch, Rejected(OffsetMismatch))
    else
      var overlap := Overlap(r, offset, payload);
      var added := payload[if overlap > 0 then overlap else 0..];
      if r.pendingClientBytes + |added| > MAX_UNACKED_BYTES then
        Revoke(r, RetentionExceeded, Rejected(RetentionExceeded))
      else if added == [] then
        Reply(r, Accepted, [Sent(ws, Ack(Client, r.clientAck))], [])
      else
        Reply(TakeClientBytes(r, added), Accepted, [], added)
  }

  function OnServerAck(r: Relay, offset: int): Reply
    requires r.live && r.Valid()
  {
    if offset < r.serverAck || offset > r.serverSent then Revoke(r, OffsetMismatch, Rejected(OffsetMismatch))
    else Reply(AcknowledgeServer(r, offset), Accepted, [], [])
  }

  /** A frame on the attached socket of a live session; None is one that does not decode. */
  function OnAttachedMessage(r: Relay, ws: nat, frame: Option<V2Frame>): Reply
    requires r.live && r.Valid()
  {
    match frame
    case None => Revoke(r, SessionClosed, Rejected(SessionClosed))
    case Some(Detach) => Reply(OnDetach(r), Ended, [], [])
    case Some(Close) => Revoke(r, SessionClosed, Ended)
    case Some(Ping) => Reply(r, Accepted, [Sent(ws, Pong)], [])
    case Some(Ack(Server, offset)) => OnServerAck(r, offset)
    case Some(Data(Client, offset, payload)) => OnClientData(r, ws, offset, payload)
    case Some(_) => Revoke(r, SessionClosed, Rejected(SessionClosed))
  }

  /** A frame on a socket bound to the session: ignored unless it is the attached one. */
  function OnMessage(r: Relay, ws: nat, frame: Option<V2Frame>): Reply
    requires r.Valid()
  {
    if !r.live || r.attached != Some(ws) then Reply(r, Ignored, [], [])
    else OnAttachedMessage(r.(previousToken := None), ws, frame)
  }

  predicate TokenFits(r: Relay, token: string) {
    token == r.token || r.previousToken == Some(token)
  }

  predicate OffsetsFit(r: Relay, clientAck: int, serverAck: int) {
    clientAck <= r.clientAck && r.serverAck <= serverAck <= r.serverSent
  }

  /** A resume request on a new socket; `newToken` is the random token drawn for it. */
  function OnResume(r: Relay, ws: nat, id: string, origin: string, token: string,
                    clientAck: int, serverAck: int, newToken: string): Reply
    requires r.Valid()
  {
    if !r.live || r.id != id || !TokenFits(r, token) || r.origin != origin then
      Reply(r, Rejected(Expired), [Sent(ws, Error(Expired))], [])
    else if !OffsetsFit(r, clientAck, serverAck) then
      var revoked := Revoke(r, SessionClosed, Rejected(OffsetMismatch));
      revoked.(sends := [Sent(ws, Error(OffsetMismatch))] + revoked.sends)
    else
      var superseded := ToAttached(r, Error(Superseded));
      var r := AcknowledgeServer(r, serverAck);
      var r := r.(attached := Some(ws), serverSent := r.serverAck,
                  previousToken := if token == r.token then Some(r.token) else r.previousToken,
                  token := newToken);
      Reply(r, Accepted, superseded + [Sent(ws, Resumed(r.clientAck, r.serverAck, newToken))], [])
  }

  /** Bytes of a target chunk that fit in the retention window. */
  function TargetRoom(r: Relay, chunk: seq<byte>): (n: nat)
    requires r.ServerWindow()
    ensures n <= |chunk| && n <= MAX_UNACKED_BYTES - (r.serverOffset - r.serverAck)
    ensures n == |chunk| || r.serverOffset - r.serverAck + n == MAX_UNACKED_BYTES
  {
    Min(|chunk|, MAX_UNACKED_BYTES - (r.serverOffset - r.serverAck))
  }

  /** Data from the target: what fits is retained, the rest goes back to the target. */
  function OnTargetData(r: Relay, chunk: seq<byte>): (Relay, seq<byte>)
    requires r.live && r.Valid()
  {
    var n := TargetRoom(r, chunk);
    (r.(serverOffset := r.serverOffset + n, retained := r.retained + chunk[..n]), chunk[n..])
  }

  /** The oldest target write completed. */
  function OnWriteDone(r: Relay): Reply
    requires r.Valid() && r.writes != []
  {
    var done := r.writes[0];
    var r := r.(writes := r.writes[1..]);
    if !r.live then Reply(r, Ignored, [], [])
    else
      WriteChainBounds([done] + r.writes, r.clientAck, r.clientOffset);
      var r := r.(pendingClientBytes := r.pendingClientBytes - done.length, clientAck := done.end);
      Reply(r, Accepted, ToAttached(r, Ack(Client, done.end)), [])
  }

  function OnDetach(r: Relay): Relay {
    r.(attached := None)
  }

  // ---- What every event keeps ----

  lemma {:induction false} WriteChainAppend(writes: seq<Write>, from: nat, to: nat, n: nat)
    requires WriteChain(writes, from, to) && n > 0
    ensures WriteChain(writes + [Write(n, to + n)], from, to + n)
  {
    var longer := writes + [Write(n, to + n)];
    if writes == [] {
      assert longer[1..] == [];
    } else {
      assert longer[1..] == writes[1..] + [Write(n, to + n)];
      WriteChainAppend(writes[1..], writes[0].end, to, n);
    }
  }

  /**
   * Accepting new client bytes keeps the history window: it still reaches back to
   * clientAck, whatever was trimmed.
   */
  lemma TakeClientBytesKeepsWindow(r: Relay, added: seq<byte>)
    requires r.live && r.Valid() && 0 < |added| && r.pendingClientBytes + |added| <= MAX_UNACKED_BYTES
    ensures TakeClientBytes(r, added).Valid()
  {
    WriteChainAppend(r.writes, r.clientAck, r.clientOffset, |added|);
  }

  lemma ClientDataKeepsWindows(r: Relay, ws: nat, offset: int, payload: seq<byte>)
    requires r.live && r.Valid()
    ensures KeptBy(r, OnClientData(r, ws, offset, payload))
  {
    if ReplayMatches(r, offset, payload) {
      var overlap := Overlap(r, offset, payload);
      var added := payload[if overlap > 0 then overlap else 0..];
      if added != [] && r.pendingClientBytes + |added| <= MAX_UNACKED_BYTES {
        TakeClientBytesKeepsWindow(r, added);
      }
    }
  }

  lemma AttachedMessageKeepsWindows(r: Relay, ws: nat, frame: Option<V2Frame>)
    requires r.live && r.Valid()
    ensures KeptBy(r, OnAttachedMessage(r, ws, frame))
  {
    hide OnClientData, OnServerAck, WriteChain;
    match frame
    case Some(Data(Client, offset, payload)) => ClientDataKeepsWindows(r, ws, offset, payload);
    case Some(Ack(Server, offset)) => ServerAckKeepsWindows(r, offset);
    case _ =>
  }

  /** A client data frame ends the session, or repeats the acknowledgement, or appends the part past clientOffset. */
  lemma ClientDataAppendsTail(r: Relay, ws: nat, offset: int, payload: seq<byte>)
    requires r.live && r.Valid()
    ensures var reply := OnClientData(r, ws, offset, payload);
      var skip := if Overlap(r, offset, payload) > 0 then Overlap(r, offset, payload) else 0;
      if reply.outcome.Rejected? then reply == Revoke(r, reply.outcome.code, reply.outcome) && reply.written == []
      else
        r.clientHistoryStart <= offset <= r.clientOffset &&
        r.clientHistory[offset - r.clientHistoryStart..offset - r.clientHistoryStart + skip] == payload[..skip] &&
        if reply.written == [] then
          reply.relay == r && reply.sends == [Sent(ws, Ack(Client, r.clientAck))] &&
          offset + |payload| <= r.clientOffset
        else
          reply.sends == [] && reply.written == payload[skip..] && offset + skip == r.clientOffset &&
          |reply.written| <= MAX_UNACKED_BYTES && reply.relay == TakeClientBytes(r, reply.written)
  {
    hide WriteChain, TakeClientBytes;
  }

  /** Both windows hold after the reply, and only what it wrote moved clientOffset. */
  ghost predicate KeptBy(r: Relay, reply: Reply) {
    reply.relay.Valid() &&
    reply.relay.clientAck == r.clientAck && r.serverAck <= reply.relay.serverAck &&
    reply.relay.serverOffset == r.serverOffset && reply.relay.serverSent == r.serverSent &&
    reply.relay.clientOffset == r.clientOffset + |reply.written|
  }

  /** Every frame on a bound socket, valid or not, keeps both windows. */
  lemma MessageKeepsWindows(r: Relay, ws: nat, frame: Option<V2Frame>)
    requires r.Valid()
    ensures KeptBy(r, OnMessage(r, ws, frame))
  {
    if r.live && r.attached == Some(ws) {
      AttachedMessageKeepsWindows(r.(previousToken := None), ws, frame);
    }
  }

  lemma ServerAckKeepsWindows(r: Relay, offset: int)
    requires r.live && r.Valid()
    ensures KeptBy(r, OnServerAck(r, offset))
  {
  }

  lemma ResumeKeepsWindows(r: Relay, ws: nat, id: string, origin: string, token: string,
                           clientAck: int, serverAck: int, newToken: string)
    requires r.Valid()
    ensures OnResume(r, ws, id, origin, token, clientAck, serverAck, newToken).relay.Valid()
  {
  }

  lemma TargetDataKeepsWindows(r: Relay, chunk: seq<byte>)
    requires r.live && r.Valid()
    ensures OnTargetData(r, chunk).0.Valid()
    ensures r.retained + chunk == OnTargetData(r, chunk).0.retained + OnTargetData(r, chunk).1
  {
    var n := TargetRoom(r, chunk);
    assert chunk == chunk[..n] + chunk[n..];
  }

  /** Completions arrive in write order, so the acknowledged offset only grows and stays in the window. */
  lemma WriteDoneKeepsWindows(r: Relay)
    requires r.Valid() && r.writes != []
    ensures OnWriteDone(r).relay.Valid()
    ensures r.live ==> r.clientAck < OnWriteDone(r).relay.clientAck <= r.clientOffset
  {
    if r.live {
      WriteChainBounds(r.writes, r.clientAck, r.clientOffset);
      WriteChainBounds(r.writes[1..], r.writes[0].end, r.clientOffset);
    }
  }

  /** What one flush can and cannot change: only serverSent moves, forward, within what is retained. */
  lemma {:induction false} FlushedMovesOnlyServerSent(r: Relay, frames: seq<V2Frame>, r': Relay)
    requires r.live && r.Valid() && Flushed(r, frames, r')
    ensures r'.Valid() && r.serverSent <= r'.serverSent
    ensures r' == r.(serverSent := r'.serverSent)
    decreases |frames|
  {
    hide WriteChain;
    if frames != [] {
      FlushedMovesOnlyServerSent(SendData(r, |frames[0].payload|).0, frames[1..], r');
    }
  }

  lemma SendKeepsWindows(r: Relay, n: nat)
    requires r.live && r.Valid() && r.serverSent + n <= r.serverOffset
    ensures SendData(r, n).0.Valid()
  {
    hide WriteChain;
  }

  /** One flush sends exactly the retained bytes from the old serverSent to the new, in order. */
  lemma {:induction false} FlushedSendsRetained(r: Relay, frames: seq<V2Frame>, r': Relay)
    requires r.live && r.Valid() && Flushed(r, frames, r')
    ensures r.serverSent <= r'.serverSent <= r.serverOffset
    ensures DataRun(frames, Server, r.serverSent, r'.serverSent,
                    r.retained[r.serverSent - r.serverAck..r'.serverSent - r.serverAck])
    decreases |frames|
  {
    hide WriteChain, Relay.ClientWindow;
    if frames != [] {
      var next := SendData(r, |frames[0].payload|).0;
      SendKeepsWindows(r, |frames[0].payload|);
      FlushedMovesOnlyServerSent(next, frames[1..], r');
      FlushedSendsRetained(next, frames[1..], r');
      SliceSplits(r.retained, r.serverSent - r.serverAck, next.serverSent - r.serverAck, r'.serverSent - r.serverAck);
    }
  }

  /** One session never pins more than three windows, so the detached cap can be budgeted. */
  lemma HeldBytesBounded(r: Relay)
    requires r.live && r.Valid()
    ensures r.HeldBytes() <= 3 * MAX_UNACKED_BYTES
  {
  }
}
