/**
 * The relay's session object: retained server data is a list of chunks, and the
 * handlers update the fields in place. Every method is proved against the value
 * functions of RelayNode, through the View of the object's fields.
 */
module RelaySession {
  import opened Frames
  import RelayNode

  /** The retained bytes a chunk list stands for. */
  function Concat(chunks: seq<seq<byte>>): seq<byte> {
    if chunks == [] then [] else chunks[0] + Concat(chunks[1..])
  }

  lemma {:induction false} ConcatAppend(a: seq<seq<byte>>, b: seq<seq<byte>>)
    ensures Concat(a + b) == Concat(a) + Concat(b)
  {
    if a == [] {
      assert a + b == b;
    } else {
      assert (a + b)[1..] == a[1..] + b;
      ConcatAppend(a[1..], b);
    }
  }

  /** Splitting the list at k splits the bytes at the length of the first k chunks. */
  lemma ConcatSplit(chunks: seq<seq<byte>>, k: nat)
    requires k <= |chunks|
    ensures Concat(chunks) == Concat(chunks[..k]) + Concat(chunks[k..])
  {
    assert chunks == chunks[..k] + chunks[k..];
    ConcatAppend(chunks[..k], chunks[k..]);
  }

  ghost predicate NoEmptyChunk(chunks: seq<seq<byte>>) {
    forall i :: 0 <= i < |chunks| ==> chunks[i] != []
  }

  /** Walks the chunk list to the chunk holding byte `at`, and the place inside it. */
  method LocateUnsent(chunks: seq<seq<byte>>, at: nat) returns (k: nat, skipped: nat)
    requires at < |Concat(chunks)|
    ensures k < |chunks| && skipped < |chunks[k]|
    ensures |Concat(chunks[..k])| + skipped == at
  {
    k, skipped := 0, at;
    assert chunks[..|chunks|] == chunks;
    while k < |chunks| && skipped >= |chunks[k]|
      invariant 0 <= k <= |chunks|
      invariant |Concat(chunks[..k])| + skipped == at
    {
      PrefixGrows(chunks, k);
      skipped := skipped - |chunks[k]|;
      k := k + 1;
    }
  }

  class Session {
    const id: string
    const origin: string
    var live: bool
    var token: string
    var previousToken: Option<string>
    var attached: Option<nat>
    var serverAck: nat
    var serverOffset: nat
    var serverSent: nat
    var retained: seq<seq<byte>>
    var clientOffset: nat
    var clientAck: nat
    var clientHistoryStart: nat
    var clientHistory: seq<byte>
    var pendingClientBytes: nat
    var writes: seq<RelayNode.Write>

    ghost function View(): RelayNode.Relay
      reads this
    {
      RelayNode.Relay(live, id, origin, token, previousToken, attached, serverAck, serverOffset, serverSent,
                      Concat(retained), clientOffset, clientAck, clientHistoryStart, clientHistory,
                      pendingClientBytes, writes)
    }

    ghost predicate Valid()
      reads this
    {
      View().Valid() && NoEmptyChunk(retained)
    }

    constructor (id: string, origin: string, token: string, ws: nat)
      ensures Valid() && View() == RelayNode.Connected(id, origin, token, ws)
    {
      this.id, this.origin, this.token := id, origin, token;
      live, previousToken, attached := true, None, Some(ws);
      serverAck, serverOffset, serverSent, retained := 0, 0, 0, [];
      clientOffset, clientAck, clientHistoryStart, clientHistory := 0, 0, 0, [];
      pendingClientBytes, writes := 0, [];
    }

    method Revoke(code: ErrorCode) returns (sends: seq<RelayNode.Sent>)
      requires Valid()
      modifies this
      ensures Valid()
      ensures var reply := RelayNode.Revoke(old(View()), code, Ended);
        View() == reply.relay && sends == reply.sends
    {
      sends := [];
      if !live {
        return;
      }
      live := false;
      if attached.Some? {
        sends := [RelayNode.Sent(attached.value, Error(code))];
      }
      retained := [];
    }

    /** Drops exactly the acknowledged prefix, cutting the chunk the offset falls inside. */
    method AcknowledgeServer(offset: nat)
      requires Valid() && live && serverAck <= offset <= serverOffset
      modifies this`retained, this`serverAck
      ensures NoEmptyChunk(retained)
      ensures View() == RelayNode.AcknowledgeServer(old(View()), offset)
    {
      var acknowledged := offset - serverAck;
      ghost var rest := Concat(retained)[acknowledged..];
      while acknowledged > 0 && retained != []
        invariant 0 <= acknowledged <= |Concat(retained)|
        invariant Concat(retained)[acknowledged..] == rest
        invariant NoEmptyChunk(retained)
        decreases |retained|, acknowledged
      {
        var head := retained[0];
        if |head| <= acknowledged {
          retained := retained[1..];
          acknowledged := acknowledged - |head|;
        } else {
          ghost var tail := retained[1..];
          retained := retained[0 := head[acknowledged..]];
          assert retained[1..] == tail;
          acknowledged := 0;
        }
      }
      serverAck := offset;
    }

    /** Sends the next unsent bytes: at most 32 KiB, never across a chunk boundary. */
    method SendNext() returns (frame: V2Frame)
      requires Valid() && live && serverSent < serverOffset
      modifies this`serverSent
      ensures frame.Data? && 0 < |frame.payload| <= SEND_CHUNK_BYTES
      ensures old(serverSent) + |frame.payload| <= serverOffset
      ensures (View(), frame) == RelayNode.SendData(old(View()), |frame.payload|)
    {
      var k, skipped := LocateUnsent(retained, serverSent - serverAck);
      var chunk := retained[k];
      var n := Min(|chunk| - skipped, SEND_CHUNK_BYTES);
      ChunkSlice(retained, k, skipped, n, serverSent - serverAck);
      frame := Data(Server, serverSent, chunk[skipped..skipped + n]);
      serverSent := serverSent + n;
    }

    /** Nothing waits that could be sent: no socket, nothing unsent, or a socket that is full after these frames. */
    ghost predicate SentAll(frames: nat, accepts: nat -> bool)
      reads this
    {
      attached.None? || serverSent == serverOffset || !accepts(frames)
    }

    /**
     * Sends retained data until everything is sent or the socket stops accepting.
     * `accepts(k)` says whether the socket is open and below its buffer mark
     * after k frames of this flush.
     */
    method FlushServer(accepts: nat -> bool) returns (frames: seq<V2Frame>)
      requires Valid() && live
      modifies this`serverSent
      ensures Valid() && RelayNode.Flushed(old(View()), frames, View())
      ensures attached.None? ==> frames == []
      ensures SentAll(|frames|, accepts)
    {
      frames := [];
      if attached.None? {
        return;
      }
      ghost var start := View();
      while serverSent < serverOffset && accepts(|frames|)
        invariant Valid() && serverSent <= serverOffset
        invariant RelayNode.Flushed(start, frames, View())
        decreases serverOffset - serverSent
      {
        ghost var before := View();
        var frame := SendNext();
        FlushExtends(start, frames, before, |frame.payload|);
        frames := frames + [frame];
      }
    }

    /** A target chunk: what fits is retained and flushed, the rest is handed back to the target. */
    method OnTargetData(chunk: seq<byte>, accepts: nat -> bool)
      returns (returned: seq<byte>, paused: bool, frames: seq<V2Frame>)
      requires Valid() && live
      modifies this
      ensures Valid()
      ensures var (r, rest) := RelayNode.OnTargetData(old(View()), chunk);
        returned == rest && RelayNode.Flushed(r, frames, View())
      ensures paused <==> returned != [] || serverOffset - serverAck == MAX_UNACKED_BYTES
      ensures serverOffset > old(serverOffset) ==> SentAll(|frames|, accepts)
    {
      var available := MAX_UNACKED_BYTES - (serverOffset - serverAck);
      var taken := chunk;
      returned, paused, frames := [], false, [];
      if |chunk| > available {
        paused := true;
        returned := chunk[available..];
        taken := chunk[..available];
      }
      RelayNode.TargetDataKeepsWindows(View(), chunk);
      if taken != [] {
        ConcatAppend(retained, [taken]);
        assert Concat([taken]) == taken + Concat([]);
        retained := retained + [taken];
        serverOffset := serverOffset + |taken|;
        assert View() == RelayNode.OnTargetData(old(View()), chunk).0;
        frames := FlushServer(accepts);
        RelayNode.FlushedMovesOnlyServerSent(RelayNode.OnTargetData(old(View()), chunk).0, frames, View());
      } else {
        assert View() == RelayNode.OnTargetData(old(View()), chunk).0;
      }
      if serverOffset - serverAck >= MAX_UNACKED_BYTES {
        paused := true;
      }
    }

    /** A client data frame: duplicate detection, window check, then one more target write. */
    method OnClientData(ws: nat, offset: int, payload: seq<byte>)
      returns (outcome: Outcome, sends: seq<RelayNode.Sent>, written: seq<byte>)
      requires Valid() && live
      modifies this
      ensures Valid()
      ensures RelayNode.Reply(View(), outcome, sends, written)
           == RelayNode.OnClientData(old(View()), ws, offset, payload)
    {
      hide RelayNode.WriteChain;
      written, sends := [], [];
      RelayNode.ClientDataKeepsWindows(View(), ws, offset, payload);
      var overlap := Min(clientOffset - offset, |payload|);
      if offset > clientOffset || offset < clientHistoryStart ||
         (overlap > 0 &&
          clientHistory[offset - clientHistoryStart..offset - clientHistoryStart + overlap] != payload[..overlap])
      {
        sends := Revoke(OffsetMismatch);
        outcome := Rejected(OffsetMismatch);
        return;
      }
      var added := payload[if overlap > 0 then overlap else 0..];
      if pendingClientBytes + |added| > MAX_UNACKED_BYTES {
        sends := Revoke(RetentionExceeded);
        outcome := Rejected(RetentionExceeded);
        return;
      }
      outcome := Accepted;
      if added == [] {
        sends := [RelayNode.Sent(ws, Ack(Client, clientAck))];
        return;
      }
      TakeClientBytes(added);
      written := added;
    }

    /** Appends new client bytes to the trimmed history and queues their target write. */
    method TakeClientBytes(added: seq<byte>)
      requires Valid() && live && added != [] && pendingClientBytes + |added| <= MAX_UNACKED_BYTES
      modifies this`clientHistory, this`clientHistoryStart, this`clientOffset, this`pendingClientBytes, this`writes
      ensures Valid()
      ensures View() == RelayNode.TakeClientBytes(old(View()), added)
    {
      ghost var before := View();
      var history, start := clientHistory + added, clientHistoryStart;
      if |history| > MAX_UNACKED_BYTES {
        var trim := |history| - MAX_UNACKED_BYTES;
        history, start := history[trim..], start + trim;
      }
      clientHistory, clientHistoryStart := history, start;
      clientOffset := clientOffset + |added|;
      pendingClientBytes := pendingClientBytes + |added|;
      writes := writes + [RelayNode.Write(|added|, clientOffset)];
      assert View() == RelayNode.TakeClientBytes(before, added);
      RelayNode.TakeClientBytesKeepsWindow(before, added);
    }

    /** An acknowledgement of server data: checked against what was sent, then the flush goes on. */
    method OnServerAck(offset: int, accepts: nat -> bool)
      returns (outcome: Outcome, sends: seq<RelayNode.Sent>, frames: seq<V2Frame>)
      requires Valid() && live
      modifies this
      ensures Valid()
      ensures var reply := RelayNode.OnServerAck(old(View()), offset);
        outcome == reply.outcome && sends == reply.sends && reply.written == [] && AfterFlush(reply.relay, frames)
      ensures outcome.Accepted? ==> SentAll(|frames|, accepts)
    {
      sends, frames := [], [];
      if offset < serverAck || offset > serverSent {
        sends := Revoke(OffsetMismatch);
        outcome := Rejected(OffsetMismatch);
        return;
      }
      AcknowledgeServer(offset);
      outcome := Accepted;
      frames := FlushServer(accepts);
    }

    /** The session is where the event left it, up to the frames flushed after the event. */
    ghost predicate AfterFlush(r: RelayNode.Relay, frames: seq<V2Frame>)
      reads this
    {
      if r.live then r.Valid() && RelayNode.Flushed(r, frames, View())
      else frames == [] && View() == r
    }

    /** One frame on the attached socket, with the flush that follows an acknowledgement. */
    method OnAttachedMessage(ws: nat, frame: Option<V2Frame>, accepts: nat -> bool)
      returns (outcome: Outcome, sends: seq<RelayNode.Sent>, written: seq<byte>, frames: seq<V2Frame>)
      requires Valid() && live
      modifies this
      ensures Valid()
      ensures var reply := RelayNode.OnAttachedMessage(old(View()), ws, frame);
        outcome == reply.outcome && sends == reply.sends && written == reply.written &&
        AfterFlush(reply.relay, frames)
      ensures outcome.Accepted? && frame.Some? && frame.value.Ack? ==> SentAll(|frames|, accepts)
    {
      hide RelayNode.OnClientData, RelayNode.OnServerAck, RelayNode.WriteChain;
      outcome, sends, written, frames := Accepted, [], [], [];
      match frame
      case Some(Detach) =>
        attached := None;
        outcome := Ended;
      case Some(Close) =>
        sends := Revoke(SessionClosed);
        outcome := Ended;
      case Some(Ping) =>
        sends := [RelayNode.Sent(ws, Pong)];
      case Some(Ack(Server, offset)) =>
        outcome, sends, frames := OnServerAck(offset, accepts);
      case Some(Data(Client, offset, payload)) =>
        outcome, sends, written := OnClientData(ws, offset, payload);
      case _ =>
        sends := Revoke(SessionClosed);
        outcome := Rejected(SessionClosed);
    }

    /** One frame on a bound socket: a superseded socket changes nothing. */
    method OnMessage(ws: nat, frame: Option<V2Frame>, accepts: nat -> bool)
      returns (outcome: Outcome, sends: seq<RelayNode.Sent>, written: seq<byte>, frames: seq<V2Frame>)
      requires Valid()
      modifies this
      ensures Valid()
      ensures var reply := RelayNode.OnMessage(old(View()), ws, frame);
        outcome == reply.outcome && sends == reply.sends && written == reply.written &&
        if outcome == Ignored then frames == [] && View() == reply.relay else AfterFlush(reply.relay, frames)
      ensures outcome.Accepted? && frame.Some? && frame.value.Ack? ==> SentAll(|frames|, accepts)
    {
      if !live || attached != Some(ws) {
        outcome, sends, written, frames := Ignored, [], [], [];
        return;
      }
      previousToken := None;
      outcome, sends, written, frames := OnAttachedMessage(ws, frame, accepts);
    }

    /** A resume request: takeover, acknowledgement, token rotation, then the replay. */
    method OnResume(ws: nat, frameId: string, frameOrigin: string, frameToken: string,
                    frameClientAck: int, frameServerAck: int, newToken: string, accepts: nat -> bool)
      returns (outcome: Outcome, sends: seq<RelayNode.Sent>, frames: seq<V2Frame>)
      requires Valid()
      modifies this
      ensures Valid()
      ensures var reply := RelayNode.OnResume(old(View()), ws, frameId, frameOrigin, frameToken,
                                              frameClientAck, frameServerAck, newToken);
        outcome == reply.outcome && sends == reply.sends &&
        if outcome == Accepted then AfterFlush(reply.relay, frames) else frames == [] && View() == reply.relay
      ensures outcome == Accepted ==> SentAll(|frames|, accepts)
    {
      sends, frames := [], [];
      RelayNode.ResumeKeepsWindows(View(), ws, frameId, frameOrigin, frameToken,
                                   frameClientAck, frameServerAck, newToken);
      if !live || frameId != id || (token != frameToken && previousToken != Some(frameToken)) || origin != frameOrigin {
        outcome, sends := Rejected(Expired), [RelayNode.Sent(ws, Error(Expired))];
        return;
      }
      if frameClientAck > clientAck || frameServerAck < serverAck || frameServerAck > serverSent {
        var revoked := Revoke(SessionClosed);
        outcome, sends := Rejected(OffsetMismatch), [RelayNode.Sent(ws, Error(OffsetMismatch))] + revoked;
        return;
      }
      sends := Rebind(ws, frameToken, frameServerAck, newToken);
      outcome := Accepted;
      frames := FlushServer(accepts);
    }

    /** Takeover, acknowledgement and token rotation of an admissible resume. */
    method Rebind(ws: nat, frameToken: string, frameServerAck: nat, newToken: string)
        returns (sends: seq<RelayNode.Sent>)
      requires Valid() && live && RelayNode.TokenFits(View(), frameToken)
      requires serverAck <= frameServerAck <= serverSent
      modifies this
      ensures Valid()
      ensures RelayNode.Reply(View(), Accepted, sends, [])
           == RelayNode.OnResume(old(View()), ws, id, origin, frameToken, 0, frameServerAck, newToken)
    {
      sends := [];
      if attached.Some? {
        sends := [RelayNode.Sent(attached.value, Error(Superseded))];
        attached := None;
      }
      AcknowledgeServer(frameServerAck);
      attached := Some(ws);
      serverSent := serverAck;
      if frameToken == token {
        previousToken := Some(token);
      }
      token := newToken;
      sends := sends + [RelayNode.Sent(ws, Resumed(clientAck, serverAck, token))];
    }

    /** The completion callback of the oldest target write. */
    method OnWriteDone() returns (outcome: Outcome, sends: seq<RelayNode.Sent>)
      requires Valid() && writes != []
      modifies this
      ensures Valid()
      ensures var reply := RelayNode.OnWriteDone(old(View()));
        View() == reply.relay && outcome == reply.outcome && sends == reply.sends
    {
      RelayNode.WriteDoneKeepsWindows(View());
      if live {
        RelayNode.WriteChainBounds(writes, clientAck, clientOffset);
      }
      var done := writes[0];
      writes := writes[1..];
      sends := [];
      if !live {
        outcome := Ignored;
        return;
      }
      pendingClientBytes := pendingClientBytes - done.length;
      clientAck := done.end;
      if attached.Some? {
        sends := [RelayNode.Sent(attached.value, Ack(Client, done.end))];
      }
      outcome := Accepted;
    }
  }

  lemma PrefixGrows(chunks: seq<seq<byte>>, k: nat)
    requires k < |chunks|
    ensures |Concat(chunks[..k + 1])| == |Concat(chunks[..k])| + |chunks[k]|
  {
    assert chunks[..k + 1] == chunks[..k] + [chunks[k]];
    ConcatAppend(chunks[..k], [chunks[k]]);
    assert Concat([chunks[k]]) == chunks[k] + Concat([]);
  }

  /** A slice of one chunk is the matching slice of the retained bytes. */
  lemma ChunkSlice(chunks: seq<seq<byte>>, k: nat, skipped: nat, n: nat, at: nat)
    requires k < |chunks| && skipped + n <= |chunks[k]|
    requires at == |Concat(chunks[..k])| + skipped
    ensures at + n <= |Concat(chunks)|
    ensures chunks[k][skipped..skipped + n] == Concat(chunks)[at..at + n]
  {
    ConcatSplit(chunks, k);
    assert Concat(chunks[k..]) == chunks[k] + Concat(chunks[k + 1..]);
  }

  /** Appending the next data frame to a flush gives a flush. */
  lemma {:induction false} FlushExtends(r: RelayNode.Relay, frames: seq<V2Frame>, mid: RelayNode.Relay, n: nat)
    requires r.live && r.Valid() && RelayNode.Flushed(r, frames, mid)
    requires mid.live && mid.Valid() && 0 < n <= SEND_CHUNK_BYTES && mid.serverSent + n <= mid.serverOffset
    ensures RelayNode.Flushed(r, frames + [RelayNode.SendData(mid, n).1], RelayNode.SendData(mid, n).0)
    decreases |frames|
  {
    var longer := frames + [RelayNode.SendData(mid, n).1];
    if frames == [] {
      assert longer[1..] == [];
    } else {
      assert longer[1..] == frames[1..] + [RelayNode.SendData(mid, n).1];
      FlushExtends(RelayNode.SendData(r, |frames[0].payload|).0, frames[1..], mid, n);
    }
  }
}
