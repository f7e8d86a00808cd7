/** What each handler of a relay session does, field by field. */
module RelayHandlers {
  import opened Frames
  import R = RelayNode

  // Every outcome is told by its exact condition and its whole effect, in the fields'
  // own terms, so that a handler which tests less, takes less or answers something else
  // does not meet it.

  /** The session is over: nothing is retained, and the socket it was attached to is told. */
  ghost predicate EndsWith(r: R.Relay, reply: R.Reply, code: ErrorCode) {
    reply.relay == r.(live := false, retained := []) && reply.written == [] &&
    reply.sends == if r.attached.Some? then [R.Sent(r.attached.value, Error(code))] else []
  }

  // ---- Resume ----

  /**
   * A resume request is served if and only if it names the session, its origin and its
   * present or previous token and its offsets lie in the windows; whether the session
   * is attached makes no difference.
   */
  lemma ResumeServedExactlyWhen(r: R.Relay, ws: nat, id: string, origin: string, token: string,
                                clientAck: int, serverAck: int, newToken: string)
    requires r.Valid()
    ensures R.OnResume(r, ws, id, origin, token, clientAck, serverAck, newToken).outcome == Accepted <==>
      (r.live && id == r.id && origin == r.origin && (token == r.token || r.previousToken == Some(token)) &&
       clientAck <= r.clientAck && r.serverAck <= serverAck <= r.serverSent)
  {
    hide R.WriteChain;
  }

  /** A stranger to the session learns nothing and changes nothing. */
  lemma StrangerIsRefused(r: R.Relay, ws: nat, id: string, origin: string, token: string,
                          clientAck: int, serverAck: int, newToken: string)
    requires r.Valid()
    requires !r.live || id != r.id || origin != r.origin || (token != r.token && r.previousToken != Some(token))
    ensures R.OnResume(r, ws, id, origin, token, clientAck, serverAck, newToken)
         == R.Reply(r, Rejected(Expired), [R.Sent(ws, Error(Expired))], [])
  {
    hide R.WriteChain;
  }

  /** Someone who knows the session but not where it stands ends it. */
  lemma WrongOffsetsEndTheSession(r: R.Relay, ws: nat, token: string, clientAck: int, serverAck: int, newToken: string)
    requires r.Valid() && r.live && (token == r.token || r.previousToken == Some(token))
    requires clientAck > r.clientAck || serverAck < r.serverAck || serverAck > r.serverSent
    ensures var reply := R.OnResume(r, ws, r.id, r.origin, token, clientAck, serverAck, newToken);
      reply.outcome == Rejected(OffsetMismatch) && reply.sends != [] &&
      reply.sends[0] == R.Sent(ws, Error(OffsetMismatch)) &&
      EndsWith(r, reply.(sends := reply.sends[1..]), SessionClosed)
  {
    hide R.WriteChain;
  }

  /**
   * Serving it: the old attachment is told first, the new socket gets where the relay
   * stands and the new token, everything past the page's acknowledgement is to be sent
   * again, and the token that was presented stays good for one more try.
   */
  lemma ResumeIsServed(r: R.Relay, ws: nat, token: string, clientAck: int, serverAck: int, newToken: string)
    requires r.Valid() && r.live && (token == r.token || r.previousToken == Some(token))
    requires clientAck <= r.clientAck && r.serverAck <= serverAck <= r.serverSent
    ensures var reply := R.OnResume(r, ws, r.id, r.origin, token, clientAck, serverAck, newToken);
      reply.written == [] &&
      reply.sends == (if r.attached.Some? then [R.Sent(r.attached.value, Error(Superseded))] else []) +
                     [R.Sent(ws, Resumed(r.clientAck, serverAck, newToken))] &&
      reply.relay == r.(attached := Some(ws), token := newToken, previousToken := Some(token),
                        serverAck := serverAck, serverSent := serverAck,
                        retained := r.retained[serverAck - r.serverAck..])
  {
    hide R.WriteChain;
  }

  // ---- Frames on the attached socket ----

  /** A frame on any other socket, or after the end, is ignored. */
  lemma OthersAreIgnored(r: R.Relay, ws: nat, frame: Option<V2Frame>)
    requires r.Valid() && (!r.live || r.attached != Some(ws))
    ensures R.OnMessage(r, ws, frame) == R.Reply(r, Ignored, [], [])
  {
  }

  /** The bytes of a client data frame that lie before clientOffset are the ones taken there. */
  ghost predicate Repeats(r: R.Relay, offset: int, payload: seq<byte>)
    requires r.Valid()
  {
    r.clientHistoryStart <= offset <= r.clientOffset &&
    forall i :: 0 <= i < |payload| && offset + i < r.clientOffset ==>
      payload[i] == r.clientHistory[offset + i - r.clientHistoryStart]
  }

  /** What a client data frame adds. */
  function Added(r: R.Relay, offset: int, payload: seq<byte>): seq<byte>
    requires offset <= r.clientOffset
  {
    if offset + |payload| <= r.clientOffset then [] else payload[r.clientOffset - offset..]
  }

  lemma RepeatsIsMatch(r: R.Relay, offset: int, payload: seq<byte>)
    requires r.Valid()
    ensures Repeats(r, offset, payload) <==> R.ReplayMatches(r, offset, payload)
  {
    hide R.WriteChain;
    if r.clientHistoryStart <= offset <= r.clientOffset {
      var overlap := R.Overlap(r, offset, payload);
      var at := offset - r.clientHistoryStart;
      if Repeats(r, offset, payload) {
        assert r.clientHistory[at..at + overlap] == payload[..overlap];
      }
      if R.ReplayMatches(r, offset, payload) {
        forall i | 0 <= i < |payload| && offset + i < r.clientOffset
          ensures payload[i] == r.clientHistory[offset + i - r.clientHistoryStart]
        {
          assert r.clientHistory[at..at + overlap][i] == payload[..overlap][i];
        }
      }
    }
  }

  /**
   * Client data ends the session exactly when it starts outside the history, differs
   * from it, or overruns the window; repeated data is acknowledged again; new data is
   * all taken: it goes to the target, to the history, whose oldest bytes past 262144
   * go, and to the pending writes.
   */
  lemma ClientData(r: R.Relay, ws: nat, offset: int, payload: seq<byte>)
    requires r.Valid() && r.live && r.attached == Some(ws)
    ensures var reply := R.OnMessage(r, ws, Some(Data(Client, offset, payload)));
      var heard := r.(previousToken := None);
      if !Repeats(r, offset, payload) then
        reply.outcome == Rejected(OffsetMismatch) && EndsWith(heard, reply, OffsetMismatch)
      else
        var added := Added(r, offset, payload);
        if r.pendingClientBytes + |added| > 262144 then
          reply.outcome == Rejected(RetentionExceeded) && EndsWith(heard, reply, RetentionExceeded)
        else if added == [] then
          reply == R.Reply(heard, Accepted, [R.Sent(ws, Ack(Client, r.clientAck))], [])
        else
          var end, history := r.clientOffset + |added|, r.clientHistory + added;
          var start := if |history| > 262144 then |history| - 262144 else 0;
          reply == R.Reply(
            heard.(clientOffset := end, pendingClientBytes := r.pendingClientBytes + |added|,
                   clientHistory := history[start..], clientHistoryStart := r.clientHistoryStart + start,
                   writes := r.writes + [R.Write(|added|, end)]),
            Accepted, [], added)
  {
    hide R.WriteChain;
    RepeatsIsMatch(r, offset, payload);
    RepeatsIsMatch(r.(previousToken := None), offset, payload);
    assert (r.clientHistory + payload)[0..] == r.clientHistory + payload;
    hide R.ReplayMatches;
    if Repeats(r, offset, payload) {
      var history := r.clientHistory + Added(r, offset, payload);
      assert history[0..] == history;
    }
  }

  /** An acknowledgement in the window of what was sent drops what it covers; any other ends the session. */
  lemma ServerAck(r: R.Relay, ws: nat, offset: int)
    requires r.Valid() && r.live && r.attached == Some(ws)
    ensures var reply := R.OnMessage(r, ws, Some(Ack(Server, offset)));
      var heard := r.(previousToken := None);
      if r.serverAck <= offset <= r.serverSent then
        reply == R.Reply(heard.(serverAck := offset, retained := r.retained[offset - r.serverAck..]), Accepted, [], [])
      else reply.outcome == Rejected(OffsetMismatch) && EndsWith(heard, reply, OffsetMismatch)
  {
    hide R.WriteChain;
  }

  /** Detach lets go, close ends, ping is answered; anything else, and what cannot be read, ends the session. */
  lemma OtherFrames(r: R.Relay, ws: nat, frame: Option<V2Frame>)
    requires r.Valid() && r.live && r.attached == Some(ws)
    requires frame.Some? && frame.value.Data? ==> frame.value.direction == Server
    requires frame.Some? && frame.value.Ack? ==> frame.value.direction == Client
    ensures var reply := R.OnMessage(r, ws, frame);
      var heard := r.(previousToken := None);
      if frame == Some(Detach) then reply == R.Reply(heard.(attached := None), Ended, [], [])
      else if frame == Some(Ping) then reply == R.Reply(heard, Accepted, [R.Sent(ws, Pong)], [])
      else
        EndsWith(heard, reply, SessionClosed) &&
        reply.outcome == if frame == Some(Close) then Ended else Rejected(SessionClosed)
  {
    hide R.WriteChain;
  }

  // ---- The target ----

  /** Of a chunk from the target as much is retained as the window of 262144 bytes leaves room for. */
  lemma TargetChunk(r: R.Relay, chunk: seq<byte>)
    requires r.Valid() && r.live
    ensures var room := 262144 - (r.serverOffset - r.serverAck);
      var n := if |chunk| <= room then |chunk| else room;
      0 <= n <= |chunk| &&
      R.OnTargetData(r, chunk) ==
        (r.(serverOffset := r.serverOffset + n, retained := r.retained + chunk[..n]), chunk[n..])
  {
    hide R.WriteChain;
  }

  /** A finished write of a live session moves the acknowledgement to its end and tells the page. */
  lemma TargetWrote(r: R.Relay)
    requires r.Valid() && r.writes != []
    ensures var done, reply := r.writes[0], R.OnWriteDone(r);
      if !r.live then reply == R.Reply(r.(writes := r.writes[1..]), Ignored, [], [])
      else
        done.length <= r.pendingClientBytes &&
        reply == R.Reply(
          r.(writes := r.writes[1..], clientAck := done.end, pendingClientBytes := r.pendingClientBytes - done.length),
          Accepted, if r.attached.Some? then [R.Sent(r.attached.value, Ack(Client, done.end))] else [], [])
  {
    if r.live {
      R.WriteChainBounds(r.writes, r.clientAck, r.clientOffset);
      R.WriteChainBounds(r.writes[1..], r.writes[0].end, r.clientOffset);
    }
  }

  /** Ending a session: once, with its code to the socket that holds it. */
  lemma SessionEnds(r: R.Relay, code: ErrorCode, outcome: Outcome)
    ensures r.live ==> EndsWith(r, R.Revoke(r, code, outcome), code) && R.Revoke(r, code, outcome).outcome == outcome
    ensures !r.live ==> R.Revoke(r, code, outcome) == R.Reply(r, Ignored, [], [])
    ensures R.OnDetach(r) == r.(attached := None)
  {
  }
}
