/**
 * The transport and the codec meet: whatever the network does, every frame either
 * end sends is one the codec prints and the other end's decoder takes.
 *
 * Data frames are never empty and never longer than one flush puts in them; ids and
 * tokens are those the relay drew, because the page adopts none but from frames the
 * relay sent; offsets are non-negative by the invariant of World and within the
 * codec's range while both streams are shorter than 2^53 bytes.
 */
module SentFrames {
  import opened Frames
  import C = ClientNode
  import R = RelayNode
  import opened World
  import Codec

  /** The fields other than offsets into the streams are in range; `limit` bounds the relay's own acknowledgement. */
  ghost predicate Shaped(f: V2Frame, limit: nat) {
    match f
    case Data(_, _, payload) => 0 < |payload| <= SEND_CHUNK_BYTES
    case Resume(id, token, _, _) => IsSessionId(id) && IsToken(token)
    case Resumed(_, serverAck, token) => IsToken(token) && 0 <= serverAck <= limit
    case Ready(_, _, _, _, _) => Codec.WellFormed(f)
    case Connect(_, _, _) => false
    case _ => true
  }

  ghost predicate AllShaped(frames: set<V2Frame>, limit: nat) {
    forall f :: f in frames ==> Shaped(f, limit)
  }

  ghost predicate SeqShaped(frames: seq<V2Frame>, limit: nat)
    decreases |frames|
  {
    frames == [] || (Shaped(frames[0], limit) && SeqShaped(frames[1..], limit))
  }

  /** The relay draws tokens as hexadecimal. */
  predicate TokensDrawn(events: seq<Event>)
    decreases |events|
  {
    events == [] || ((events[0].RelayResumes? ==> IsToken(events[0].newToken)) && TokensDrawn(events[1..]))
  }

  ghost predicate Sound(s: World) {
    (s.client.sessionId != "" ==> IsSessionId(s.client.sessionId) && IsToken(s.client.token)) &&
    AllShaped(s.up, |s.T|) && AllShaped(s.down, |s.T|)
  }

  // ---- Sequences and sets of frames ----

  lemma {:induction false} SeqShapedMeans(frames: seq<V2Frame>, limit: nat, f: V2Frame)
    requires SeqShaped(frames, limit) && f in frames
    ensures Shaped(f, limit)
    decreases |frames|
  {
    hide Shaped;
    if f != frames[0] {
      assert frames == [frames[0]] + frames[1..];
      SeqShapedMeans(frames[1..], limit, f);
    }
  }

  lemma {:induction false} RunIsShaped(frames: seq<V2Frame>, d: Direction, from: int, to: int, bytes: seq<byte>,
                                       limit: nat)
    requires DataRun(frames, d, from, to, bytes)
    ensures SeqShaped(frames, limit)
    decreases |frames|
  {
    if frames != [] {
      var n := |frames[0].payload|;
      RunIsShaped(frames[1..], d, from + n, to, bytes[n..], limit);
    }
  }

  lemma OneIsShaped(f: V2Frame, limit: nat)
    requires Shaped(f, limit)
    ensures SeqShaped([f], limit) && SeqShaped([], limit)
  {
    assert [f][1..] == [];
  }

  // ---- What the client sends ----

  lemma FlushIsShaped(c: C.Transport, limit: nat)
    requires c.Valid()
    ensures SeqShaped(C.Flush(c).1, limit)
  {
    hide Shaped, C.ChunkFrames;
    var unsent := c.pending[c.clientSent - c.clientAck..];
    C.ChunksCarryAll(c.clientSent, unsent);
    RunIsShaped(C.ChunkFrames(c.clientSent, unsent), Client, c.clientSent, c.clientSent + |unsent|, unsent, limit);
    NothingIsShaped(limit);
  }

  lemma NothingIsShaped(limit: nat)
    ensures SeqShaped([], limit)
  {
  }

  lemma AckIsShaped(c: C.Transport, limit: nat)
    ensures SeqShaped(C.SendAck(c).1, limit)
  {
    OneIsShaped(Ack(Server, c.serverAck), limit);
  }

  lemma WriteIsShaped(c: C.Transport, p: seq<byte>, limit: nat)
    requires c.Valid()
    ensures SeqShaped(C.Write(c, p).2, limit)
  {
    hide SeqShaped, C.Flush;
    NothingIsShaped(limit);
    var n := C.WriteRoom(c, p);
    if n > 0 {
      FlushIsShaped(c.(pending := c.pending + p[..n], clientOffset := c.clientOffset + n), limit);
    }
  }

  lemma ReadIsShaped(c: C.Transport, n: nat, limit: nat)
    requires c.Valid()
    ensures SeqShaped(C.Read(c, n).2, limit)
  {
    hide SeqShaped, C.SendAck;
    NothingIsShaped(limit);
    var k := Min(n, |c.received|);
    AckIsShaped(c.(received := c.received[k..], serverAck := c.serverAck + k), limit);
  }

  /** Only the replay after `resumed` is sent in answer to a frame. */
  lemma AnswerIsShaped(c: C.Transport, ws: nat, reconnect: bool, f: V2Frame, limit: nat)
    requires c.Valid()
    ensures SeqShaped(C.Receive(c, ws, reconnect, f).sends, limit)
  {
    hide SeqShaped, C.Flush, C.ReadyFits, IsHexOfLength, C.DataFits;
    NothingIsShaped(limit);
    if f.Resumed? && reconnect && C.ResumedFits(c, f.clientAck, f.serverAck) && IsHexOfLength(f.newToken, 64) {
      ReplayIsShaped(c, f.clientAck, f.newToken, limit);
    }
  }

  lemma ReplayIsShaped(c: C.Transport, clientAck: int, newToken: string, limit: nat)
    requires c.Valid() && c.clientAck <= clientAck <= c.clientOffset && IsHexOfLength(newToken, 64)
    ensures SeqShaped(C.OnResumed(c, true, clientAck, c.serverAck, newToken).sends, limit)
  {
    hide IsHexOfLength, SeqShaped, C.Flush;
    NothingIsShaped(limit);
    var r := c.(token := newToken, ackSent := c.serverAck, pending := c.pending[clientAck - c.clientAck..],
                clientAck := clientAck, clientSent := clientAck, attached := true);
    FlushIsShaped(r, limit);
  }

  lemma ClientSendsShaped(s: World, e: Event)
    requires Legal(s) && Enabled(s, e) && Sound(s)
    ensures SeqShaped(ClientSends(s, e), |s.T|)
  {
    hide SeqShaped, C.Write, C.Read, C.SendAck, C.Receive, Legal, AllShaped;
    NothingIsShaped(|s.T|);
    LegalClient(s);
    match e
    case ClientWrites(p) => WriteIsShaped(s.client, p, |s.T|);
    case ClientReads(n) => ReadIsShaped(s.client, n, |s.T|);
    case AckTimer => AckIsShaped(s.client, |s.T|);
    case ClientReopens(ws) => OneIsShaped(C.Reopen(s.client, ws).1, |s.T|);
    case ClientPings => OneIsShaped(Ping, |s.T|);
    case ClientDetaches => OneIsShaped(Detach, |s.T|);
    case ClientCloses => OneIsShaped(Close, |s.T|);
    case ClientReceives(ws, reconnect, f) => AnswerIsShaped(s.client, ws, reconnect, f, |s.T|);
    case _ =>
  }

  lemma LegalClient(s: World)
    requires Legal(s)
    ensures s.client.Valid() && s.relay.Valid()
  {
  }

  lemma CallsKeepIds(c: C.Transport, p: seq<byte>, n: nat)
    requires c.Valid()
    ensures C.Write(c, p).0.sessionId == c.sessionId && C.Write(c, p).0.token == c.token
    ensures C.Read(c, n).0.sessionId == c.sessionId && C.Read(c, n).0.token == c.token
    ensures C.SendAck(c).0.sessionId == c.sessionId && C.SendAck(c).0.token == c.token
  {
    hide C.ChunkFrames;
  }

  lemma FrameGivesIds(c: C.Transport, ws: nat, reconnect: bool, f: V2Frame, limit: nat)
    requires c.Valid() && Shaped(f, limit)
    requires c.sessionId != "" ==> IsSessionId(c.sessionId) && IsToken(c.token)
    ensures var after := C.Receive(c, ws, reconnect, f).client;
      after.sessionId != "" ==> IsSessionId(after.sessionId) && IsToken(after.token)
  {
    hide IsSessionId, IsToken, IsHexOfLength, C.ChunkFrames, C.DataFits, C.ReadyFits;
  }

  /** The page only ever adopts ids and tokens from frames the relay sent. */
  lemma ClientKeepsIds(s: World, e: Event)
    requires Legal(s) && Enabled(s, e) && Sound(s)
    ensures var c := Next(s, e).client;
      c.sessionId != "" ==> IsSessionId(c.sessionId) && IsToken(c.token)
  {
    hide IsSessionId, IsToken, C.Write, C.Read, C.SendAck, C.Receive, R.OnMessage, R.OnResume, R.OnTargetData,
         R.SendData, R.OnWriteDone, R.Revoke, Legal, Shaped;
    LegalClient(s);
    match e
    case ClientReceives(ws, reconnect, f) => FrameGivesIds(s.client, ws, reconnect, f, |s.T|);
    case ClientWrites(p) => CallsKeepIds(s.client, p, 0);
    case ClientReads(n) => CallsKeepIds(s.client, [], n);
    case AckTimer => CallsKeepIds(s.client, [], 0);
    case _ =>
  }

  // ---- What the relay sends ----

  lemma RelayMessageShaped(r: R.Relay, ws: nat, f: V2Frame, limit: nat)
    requires r.Valid()
    ensures forall x :: x in R.OnMessage(r, ws, Some(f)).sends ==> Shaped(x.frame, limit)
  {
    hide R.WriteChain, R.ReplayMatches, R.TrimHistory, Codec.WellFormed, IsToken, IsSessionId;
  }

  lemma RelayResumeShaped(r: R.Relay, ws: nat, id: string, origin: string, token: string,
                          clientAck: int, serverAck: int, newToken: string, limit: nat)
    requires r.Valid() && IsToken(newToken) && r.serverOffset <= limit
    ensures forall x :: x in R.OnResume(r, ws, id, origin, token, clientAck, serverAck, newToken).sends ==>
      Shaped(x.frame, limit)
  {
    hide R.WriteChain, Codec.WellFormed, IsToken, IsSessionId;
  }

  lemma RelaySendsShaped(s: World, e: Event)
    requires Inv(s) && Enabled(s, e) && (e.RelayResumes? ==> IsToken(e.newToken))
    ensures forall x :: x in RelaySends(s, e) ==> Shaped(x.frame, |s.T|)
  {
    RelayWithinT(s);
    hide Inv, R.OnMessage, R.OnResume, R.WriteChain, Codec.WellFormed, IsToken, IsSessionId;
    match e
    case RelayReceives(ws, f) => RelayMessageShaped(s.relay, ws, f, |s.T|);
    case RelayResumes(ws, origin, f, newToken) =>
      RelayResumeShaped(s.relay, ws, f.sessionId, origin, f.token, f.clientAck, f.serverAck, newToken, |s.T|);
    case _ =>
  }

  lemma RelayWithinT(s: World)
    requires Inv(s)
    ensures Legal(s) && s.relay.serverOffset <= |s.T|
  {
    hide AllUpHonest, AllDownHonest, R.WriteChain;
  }

  // ---- Every run ----

  lemma StepStaysSound(s: World, e: Event)
    requires Inv(s) && Enabled(s, e) && Sound(s) && (e.RelayResumes? ==> IsToken(e.newToken))
    ensures Sound(Next(s, e))
  {
    RelayWithinT(s);
    ClientSendsShaped(s, e);
    RelaySendsShaped(s, e);
    ClientKeepsIds(s, e);
    StepSends(s, e);
    hide Inv, Legal, Enabled, Next, ClientSends, RelaySends, IsSessionId, IsToken, SeqShaped;
    TargetOnlyGrows(s, e);
    var limit := |Next(s, e).T|;
    forall f | f in Next(s, e).up ensures Shaped(f, limit) {
      if f !in s.up {
        SeqShapedMeans(ClientSends(s, e), |s.T|, f);
      }
      ShapedLater(f, |s.T|, limit);
    }
    forall f | f in Next(s, e).down ensures Shaped(f, limit) {
      ShapedLater(f, |s.T|, limit);
    }
  }

  lemma ShapedLater(f: V2Frame, limit: nat, later: nat)
    requires Shaped(f, limit) && limit <= later
    ensures Shaped(f, later)
  {
  }

  lemma TargetOnlyGrows(s: World, e: Event)
    requires Legal(s) && Enabled(s, e)
    ensures |s.T| <= |Next(s, e).T|
  {
    hide C.Write, C.Read, C.SendAck, C.Receive, R.OnMessage, R.OnResume, R.OnTargetData, R.SendData, R.OnWriteDone,
         R.Revoke, Legal;
  }

  lemma {:induction false} RunStaysSound(s: World, events: seq<Event>, s': World)
    requires Inv(s) && Sound(s) && TokensDrawn(events) && Reaches(s, events, s')
    ensures Sound(s')
    decreases |events|
  {
    hide Inv, Sound, Next, Enabled, IsToken;
    if events != [] {
      StepStaysSound(s, events[0]);
      StepKeepsStreams(s, events[0]);
      RunStaysSound(Next(s, events[0]), events[1..], s');
    }
  }

  /** The fields of a sent frame are in range, and so are its offsets while the streams are shorter than 2^53. */
  lemma SentIsWellFormed(s: World, f: V2Frame)
    requires Inv(s) && Sound(s) && (f in s.up || f in s.down)
    requires |s.W| <= Codec.MAX_SAFE_INTEGER && |s.T| <= Codec.MAX_SAFE_INTEGER
    ensures Codec.WellFormed(f)
  {
    hide R.WriteChain, IsSessionId, IsToken, Codec.IsHost, Codec.IsGrace;
    assert Shaped(f, |s.T|);
    if f in s.up {
      assert UpHonest(f, s.W, s.client.clientAck, s.client.serverAck);
    } else {
      assert DownHonest(f, s.T[..s.relay.serverOffset], s.relay.clientAck);
    }
  }

  /**
   * Every frame either end ever sends, over any network, is printed by the codec
   * and decoded to itself, as long as the relay draws hexadecimal ids and tokens
   * and neither stream is longer than 2^53 - 1 bytes.
   */
  lemma EverySentFrameEncodes(id: string, origin: string, token: string, grace: Option<int>, cap: Option<int>,
                              events: seq<Event>, s: World, f: V2Frame)
    requires Reaches(Init(id, origin, token, grace, cap), events, s) && TokensDrawn(events)
    requires Codec.WellFormed(Ready(id, token, MAX_UNACKED_BYTES, grace, cap))
    requires |s.W| <= Codec.MAX_SAFE_INTEGER && |s.T| <= Codec.MAX_SAFE_INTEGER
    requires f in s.up || f in s.down
    ensures Codec.Encode(f).Some? && Codec.Decode(Codec.Encode(f).value) == Some(f)
  {
    hide Reaches, Inv, Sound, Codec.WellFormed, Codec.Encode, Codec.Decode;
    StartIsSound(id, origin, token, grace, cap);
    InitHasStreams(id, origin, token, grace, cap);
    RunStaysSound(Init(id, origin, token, grace, cap), events, s);
    RunKeepsStreams(Init(id, origin, token, grace, cap), events, s);
    SentIsWellFormed(s, f);
    Codec.CodecRoundTrip(f);
  }

  lemma StartIsSound(id: string, origin: string, token: string, grace: Option<int>, cap: Option<int>)
    requires Codec.WellFormed(Ready(id, token, MAX_UNACKED_BYTES, grace, cap))
    ensures Sound(Init(id, origin, token, grace, cap))
  {
    hide Codec.WellFormed;
  }
}
