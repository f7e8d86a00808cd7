/** Both ends of one session over an arbitrary network. */
module World {
  import opened Frames
  import C = ClientNode
  import R = RelayNode

  // Every frame ever sent may be delivered any number of times, in any order, on any
  // socket, or never. W is every byte the client accepted for the target, T every byte
  // the target produced. The theorems are about every run of this system.

  datatype World = World(
    client: C.Transport,
    relay: R.Relay,
    up: set<V2Frame>,
    down: set<V2Frame>,
    W: seq<byte>,
    T: seq<byte>,
    delivered: seq<byte>,
    read: seq<byte>
  )

  datatype Event =
    | ClientWrites(p: seq<byte>)
    | ClientReads(n: nat)
    | AckTimer
    | ClientPings
    | ClientDrops
    | ClientReopens(ws: nat)
    | ClientDetaches
    | ClientResumes
    | ClientCloses
    | ClientReceives(ws: nat, reconnect: bool, f: V2Frame)
    | RelayReceives(ws: nat, f: V2Frame)
    | RelayResumes(ws: nat, origin: string, f: V2Frame, newToken: string)
    | TargetProduces(bytes: seq<byte>)
    | TargetData(n: nat)
    | RelayFlushes(n: nat)
    | WriteDone
    | RelayDetaches
    | RelayRevokes(code: ErrorCode)

  /** The session once the target has connected and `ready` is on its way. */
  function Init(id: string, origin: string, token: string, grace: Option<int>, cap: Option<int>): World {
    World(C.Fresh(0), R.Connected(id, origin, token, 0), {},
          {Ready(id, token, MAX_UNACKED_BYTES, grace, cap)}, [], [], [], [])
  }

  function FramesOf(sends: seq<R.Sent>): set<V2Frame> {
    set s | s in sends :: s.frame
  }

  function SetOf(frames: seq<V2Frame>): set<V2Frame> {
    set f | f in frames
  }

  ghost predicate Legal(s: World) {
    s.client.Valid() && s.relay.Valid()
  }

  /** What may happen next. The network imposes nothing but that a frame was sent before it arrives. */
  predicate Enabled(s: World, e: Event) {
    match e
    case ClientReopens(_) => !s.client.closed && !s.client.attached && s.client.sessionId != ""
    case ClientReceives(_, _, f) => f in s.down
    case RelayReceives(_, f) => f in s.up
    case RelayResumes(_, _, f, _) => f in s.up && f.Resume?
    case TargetData(n) => s.relay.live && s.relay.serverOffset + n <= |s.T|
    case RelayFlushes(n) =>
      s.relay.live && s.relay.attached.Some? && 0 < n <= SEND_CHUNK_BYTES &&
      s.relay.serverSent + n <= s.relay.serverOffset
    case WriteDone => s.relay.writes != []
    case _ => true
  }

  /** Applies what the relay did: its new state, the frames it sent, the bytes the target got. */
  function RelayDid(s: World, reply: R.Reply): World {
    s.(relay := reply.relay, down := s.down + FramesOf(reply.sends), delivered := s.delivered + reply.written)
  }

  function ClientStep(s: World, e: Event): World
    requires Legal(s) && Enabled(s, e)
  {
    match e
    case ClientWrites(p) =>
      var (c, n, frames) := C.Write(s.client, p);
      s.(client := c, W := s.W + p[..n], up := s.up + SetOf(frames))
    case ClientReads(n) =>
      var (c, bytes, frames) := C.Read(s.client, n);
      s.(client := c, read := s.read + bytes, up := s.up + SetOf(frames))
    case AckTimer =>
      var (c, frames) := C.SendAck(s.client);
      s.(client := c, up := s.up + SetOf(frames))
    case ClientPings => s.(up := s.up + SetOf(C.Heartbeat(s.client)))
    case ClientDrops => s.(client := C.Dropped(s.client))
    case ClientReopens(ws) =>
      var (c, f) := C.Reopen(s.client, ws);
      s.(client := c, up := s.up + {f})
    case ClientDetaches =>
      s.(client := s.client.(detached := true),
         up := if s.client.attached && s.client.open then s.up + {Detach} else s.up)
    case ClientResumes => s.(client := s.client.(detached := false))
    case ClientCloses =>
      s.(client := s.client.(closed := true, detached := true), up := if s.client.open then s.up + {Close} else s.up)
    case ClientReceives(ws, reconnect, f) =>
      var reply := C.Receive(s.client, ws, reconnect, f);
      s.(client := reply.client, up := s.up + SetOf(reply.sends))
    case _ => s
  }

  function RelayStep(s: World, e: Event): World
    requires Legal(s) && Enabled(s, e)
  {
    match e
    case RelayReceives(ws, f) => RelayDid(s, R.OnMessage(s.relay, ws, Some(f)))
    case RelayResumes(ws, origin, f, newToken) =>
      RelayDid(s, R.OnResume(s.relay, ws, f.sessionId, origin, f.token, f.clientAck, f.serverAck, newToken))
    case TargetProduces(bytes) => s.(T := s.T + bytes)
    case TargetData(n) => s.(relay := R.OnTargetData(s.relay, s.T[s.relay.serverOffset..s.relay.serverOffset + n]).0)
    case RelayFlushes(n) =>
      var (r, f) := R.SendData(s.relay, n);
      s.(relay := r, down := s.down + {f})
    case WriteDone => RelayDid(s, R.OnWriteDone(s.relay))
    case RelayDetaches => s.(relay := R.OnDetach(s.relay))
    case RelayRevokes(code) => RelayDid(s, R.Revoke(s.relay, code, Ended))
    case _ => s
  }

  /** The frames a client event sends, in order, on the client's current socket. */
  function ClientSends(s: World, e: Event): seq<V2Frame>
    requires Legal(s) && Enabled(s, e)
  {
    match e
    case ClientWrites(p) => C.Write(s.client, p).2
    case ClientReads(n) => C.Read(s.client, n).2
    case AckTimer => C.SendAck(s.client).1
    case ClientPings => C.Heartbeat(s.client)
    case ClientReopens(ws) => [C.Reopen(s.client, ws).1]
    case ClientDetaches => if s.client.attached && s.client.open then [Detach] else []
    case ClientCloses => if s.client.open then [Close] else []
    case ClientReceives(ws, reconnect, f) => C.Receive(s.client, ws, reconnect, f).sends
    case _ => []
  }

  /** The frames a relay event sends, each on its socket. */
  function RelaySends(s: World, e: Event): seq<R.Sent>
    requires Legal(s) && Enabled(s, e)
  {
    match e
    case RelayReceives(ws, f) => R.OnMessage(s.relay, ws, Some(f)).sends
    case RelayResumes(ws, origin, f, newToken) =>
      R.OnResume(s.relay, ws, f.sessionId, origin, f.token, f.clientAck, f.serverAck, newToken).sends
    case RelayFlushes(n) => R.ToAttached(s.relay, R.SendData(s.relay, n).1)
    case WriteDone => R.OnWriteDone(s.relay).sends
    case RelayRevokes(code) => R.Revoke(s.relay, code, Ended).sends
    case _ => []
  }

  predicate IsClientEvent(e: Event) {
    e.ClientWrites? || e.ClientReads? || e.AckTimer? || e.ClientPings? || e.ClientDrops? || e.ClientReopens? ||
    e.ClientDetaches? || e.ClientResumes? || e.ClientCloses? || e.ClientReceives?
  }

  function Next(s: World, e: Event): World
    requires Legal(s) && Enabled(s, e)
  {
    if IsClientEvent(e) then ClientStep(s, e) else RelayStep(s, e)
  }

  /** s' is where the events lead from s. */
  ghost predicate Reaches(s: World, events: seq<Event>, s': World)
    decreases |events|
  {
    if events == [] then s' == s
    else Legal(s) && Enabled(s, events[0]) && Reaches(Next(s, events[0]), events[1..], s')
  }

  // ---- What travels is honest ----

  /** A client frame carries true bytes of W, or offsets the client has reached. */
  ghost predicate UpHonest(f: V2Frame, W: seq<byte>, clientAck: nat, serverAck: nat) {
    match f
    case Data(Client, offset, p) => 0 <= offset && offset + |p| <= |W| && p == W[offset..offset + |p|]
    case Ack(Server, offset) => 0 <= offset <= serverAck
    case Resume(_, _, ca, sa) => 0 <= ca <= clientAck && 0 <= sa <= serverAck
    case Detach => true
    case Close => true
    case Ping => true
    case _ => false
  }

  /** A relay frame carries true bytes of T, or an offset the target has confirmed. */
  ghost predicate DownHonest(f: V2Frame, T: seq<byte>, clientAck: nat) {
    match f
    case Data(Server, offset, p) => 0 <= offset && offset + |p| <= |T| && p == T[offset..offset + |p|]
    case Ack(Client, offset) => 0 <= offset <= clientAck
    case Resumed(ca, _, _) => 0 <= ca <= clientAck
    case Ready(_, _, _, _, _) => true
    case Pong => true
    case Error(_) => true
    case _ => false
  }

  ghost predicate AllUpHonest(up: set<V2Frame>, W: seq<byte>, clientAck: nat, serverAck: nat) {
    forall f :: f in up ==> UpHonest(f, W, clientAck, serverAck)
  }

  ghost predicate AllDownHonest(down: set<V2Frame>, T: seq<byte>, serverOffset: nat, clientAck: nat) {
    serverOffset <= |T| &&
    forall f :: f in down ==> DownHonest(f, T[..serverOffset], clientAck)
  }

  /** The client-to-target stream: what W, the client's window, the relay's history and the target agree on. */
  ghost predicate UpStream(s: World)
    requires Legal(s)
  {
    var c, r := s.client, s.relay;
    |s.W| == c.clientOffset && c.pending == s.W[c.clientAck..] &&
    c.clientAck <= r.clientAck && r.clientOffset <= |s.W| &&
    s.delivered == s.W[..r.clientOffset] &&
    r.clientHistory == s.W[r.clientHistoryStart..r.clientOffset]
  }

  /** The target-to-client stream: what T, the relay's retained window, the client's buffer and its reads agree on. */
  ghost predicate DownStream(s: World)
    requires Legal(s)
  {
    var c, r := s.client, s.relay;
    r.serverAck <= c.serverAck && c.serverOffset <= r.serverOffset <= |s.T| &&
    s.read == s.T[..c.serverAck] && c.received == s.T[c.serverAck..c.serverOffset] &&
    (r.live ==> r.retained == s.T[r.serverAck..r.serverOffset])
  }

  ghost predicate Inv(s: World) {
    Legal(s) && UpStream(s) && DownStream(s) &&
    AllUpHonest(s.up, s.W, s.client.clientAck, s.client.serverAck) &&
    AllDownHonest(s.down, s.T, s.relay.serverOffset, s.relay.clientAck)
  }

  lemma UpHonestGrows(f: V2Frame, W: seq<byte>, ca: nat, sa: nat, W': seq<byte>, ca': nat, sa': nat)
    requires UpHonest(f, W, ca, sa) && W <= W' && ca <= ca' && sa <= sa'
    ensures UpHonest(f, W', ca', sa')
  {
  }

  lemma AllUpHonestGrows(up: set<V2Frame>, W: seq<byte>, ca: nat, sa: nat, W': seq<byte>, ca': nat, sa': nat)
    requires AllUpHonest(up, W, ca, sa) && W <= W' && ca <= ca' && sa <= sa'
    ensures AllUpHonest(up, W', ca', sa')
  {
    forall f | f in up ensures UpHonest(f, W', ca', sa') {
      UpHonestGrows(f, W, ca, sa, W', ca', sa');
    }
  }

  lemma DownHonestGrows(f: V2Frame, T: seq<byte>, ca: nat, T': seq<byte>, ca': nat)
    requires DownHonest(f, T, ca) && T <= T' && ca <= ca'
    ensures DownHonest(f, T', ca')
  {
  }

  lemma AllDownHonestGrows(down: set<V2Frame>, T: seq<byte>, so: nat, ca: nat, T': seq<byte>, so': nat, ca': nat)
    requires AllDownHonest(down, T, so, ca) && T <= T' && so <= so' <= |T'| && ca <= ca'
    ensures AllDownHonest(down, T', so', ca')
  {
    forall f | f in down ensures DownHonest(f, T'[..so'], ca') {
      assert T[..so] <= T'[..so'];
      DownHonestGrows(f, T[..so], ca, T'[..so'], ca');
    }
  }

  /** A run of client data frames over true bytes is honest. */
  lemma {:induction false} DataRunHonest(frames: seq<V2Frame>, from: nat, to: nat, bytes: seq<byte>, W: seq<byte>,
                                         ca: nat, sa: nat)
    requires DataRun(frames, Client, from, to, bytes) && from <= to <= |W| && bytes == W[from..to]
    ensures AllUpHonest(SetOf(frames), W, ca, sa)
    decreases |frames|
  {
    if frames != [] {
      var n := |frames[0].payload|;
      SliceSplits(W, from, from + n, to);
      DataRunHonest(frames[1..], from + n, to, bytes[n..], W, ca, sa);
      assert UpHonest(frames[0], W, ca, sa);
      assert frames == [frames[0]] + frames[1..];
      assert SetOf(frames) == {frames[0]} + SetOf(frames[1..]);
    }
  }

  /** The frames a client flush sends are honest. */
  lemma FlushHonest(c: C.Transport, W: seq<byte>, ca: nat, sa: nat)
    requires c.Valid() && |W| == c.clientOffset && c.pending == W[c.clientAck..]
    ensures AllUpHonest(SetOf(C.Flush(c).1), W, ca, sa)
  {
    if c.open {
      var unsent := c.pending[c.clientSent - c.clientAck..];
      assert unsent == W[c.clientSent..c.clientOffset];
      C.ChunksCarryAll(c.clientSent, unsent);
      DataRunHonest(C.ChunkFrames(c.clientSent, unsent), c.clientSent, c.clientOffset, unsent, W, ca, sa);
    }
  }

  // ---- Every event keeps the streams ----

  lemma PrefixSlice(s: seq<byte>, tail: seq<byte>, a: nat, b: nat)
    requires a <= b <= |s|
    ensures (s + tail)[a..b] == s[a..b]
  {
  }

  lemma ClientWritesKeeps(s: World, p: seq<byte>)
    requires Inv(s)
    ensures var (c, n, frames) := C.Write(s.client, p);
      Inv(s.(client := c, W := s.W + p[..n], up := s.up + SetOf(frames)))
  {
    hide C.ChunkFrames, UpHonest, DownHonest, AllDownHonest, R.WriteChain;
    C.WriteKeepsWindows(s.client, p);
    var n := C.WriteRoom(s.client, p);
    if n > 0 {
      var c := s.client.(pending := s.client.pending + p[..n], clientOffset := s.client.clientOffset + n);
      var W := s.W + p[..n];
      assert c.pending == W[c.clientAck..];
      PrefixSlice(s.W, p[..n], 0, s.relay.clientOffset);
      PrefixSlice(s.W, p[..n], s.relay.clientHistoryStart, s.relay.clientOffset);
      assert s.up + SetOf([]) == s.up;
      AllUpHonestGrows(s.up, s.W, c.clientAck, c.serverAck, W, c.clientAck, c.serverAck);
      FlushHonest(c, W, c.clientAck, c.serverAck);
    } else {
      assert s.W + p[..0] == s.W && s.up + SetOf([]) == s.up;
    }
  }

  lemma ReadMovesKeeps(s: World, k: nat)
    requires Inv(s) && k <= |s.client.received|
    ensures var c := s.client;
      Inv(s.(client := c.(received := c.received[k..], serverAck := c.serverAck + k), read := s.read + c.received[..k]))
  {
    hide UpHonest, DownHonest, AllDownHonest, R.WriteChain;
    var c := s.client;
    SliceSplits(s.T, c.serverAck, c.serverAck + k, c.serverOffset);
    SlicesJoin(s.T, 0, c.serverAck, c.serverAck + k);
    AllUpHonestGrows(s.up, s.W, c.clientAck, c.serverAck, s.W, c.clientAck, c.serverAck + k);
  }

  lemma AckKeeps(s: World)
    requires Inv(s)
    ensures var (c, frames) := C.SendAck(s.client);
      Inv(s.(client := c, up := s.up + SetOf(frames)))
  {
    hide DownHonest, AllDownHonest, R.WriteChain;
  }

  lemma ClientReadsKeeps(s: World, n: nat)
    requires Inv(s)
    ensures var (c, bytes, frames) := C.Read(s.client, n);
      Inv(s.(client := c, read := s.read + bytes, up := s.up + SetOf(frames)))
  {
    hide UpHonest, DownHonest, AllDownHonest, AllUpHonest, R.WriteChain;
    var k := Min(n, |s.client.received|);
    var c := s.client.(received := s.client.received[k..], serverAck := s.client.serverAck + k);
    var moved := s.(client := c, read := s.read + s.client.received[..k]);
    ReadMovesKeeps(s, k);
    AckKeeps(moved);
    assert moved.up + SetOf([]) == moved.up;
  }

  lemma ClientReopensKeeps(s: World, ws: nat)
    requires Inv(s)
    ensures var (c, f) := C.Reopen(s.client, ws);
      Inv(s.(client := c, up := s.up + {f}))
  {
    hide DownHonest, AllDownHonest, R.WriteChain;
  }

  lemma ClientResumedKeeps(s: World, reconnect: bool, ca: int, sa: int, token: string)
    requires Inv(s) && ca <= s.relay.clientAck
    ensures var reply := C.OnResumed(s.client, reconnect, ca, sa, token);
      Inv(s.(client := reply.client, up := s.up + SetOf(reply.sends)))
  {
    hide C.ChunkFrames, UpHonest, DownHonest, IsHexOfLength;
    C.ResumedKeepsWindows(s.client, reconnect, ca, sa, token);
    var reply := C.OnResumed(s.client, reconnect, ca, sa, token);
    if reply.verdict.Taken? {
      var c := s.client.(token := token, ackSent := s.client.serverAck,
                         pending := s.client.pending[ca - s.client.clientAck..],
                         clientAck := ca, clientSent := ca, attached := true);
      assert c.pending == s.W[ca..];
      AllUpHonestGrows(s.up, s.W, s.client.clientAck, c.serverAck, s.W, ca, c.serverAck);
      FlushHonest(c, s.W, ca, c.serverAck);
    }
  }

  lemma ClientDataKeeps(s: World, direction: Direction, offset: int, payload: seq<byte>)
    requires Inv(s) && DownHonest(Data(direction, offset, payload), s.T[..s.relay.serverOffset], s.relay.clientAck)
    ensures Inv(s.(client := C.OnData(s.client, direction, offset, payload).client))
  {
    hide C.OnData, UpHonest, DownHonest, AllUpHonest, AllDownHonest, UpStream, R.WriteChain;
    C.DataKeepsWindows(s.client, direction, offset, payload);
    C.DataAppendsTail(s.client, direction, offset, payload);
    var c := s.client;
    if C.OnData(c, direction, offset, payload).verdict.Taken? {
      TrueServerData(offset, payload, s.T[..s.relay.serverOffset], s.relay.clientAck);
      ClientTook(s, offset, payload);
    }
  }

  /** The page's buffer grows by the part of a true chunk that it lacks. */
  lemma ClientTook(s: World, offset: nat, payload: seq<byte>)
    requires Inv(s) && s.client.serverAck <= offset <= s.client.serverOffset
    requires s.relay.serverOffset <= |s.T| && offset + |payload| <= s.relay.serverOffset
    requires payload == s.T[..s.relay.serverOffset][offset..offset + |payload|]
    requires Longer(s.client, offset, payload).Valid()
    ensures Inv(s.(client := Longer(s.client, offset, payload)))
  {
    hide R.Relay.Valid, C.Transport.Valid, UpHonest, AllUpHonest, AllDownHonest;
    var c, overlap := s.client, Min(|payload|, s.client.serverOffset - offset);
    assert payload == s.T[offset..offset + |payload|];
    Extends(s.T, c.serverAck, c.serverOffset, offset, offset + |payload|, overlap);
  }

  function Longer(c: C.Transport, offset: nat, payload: seq<byte>): C.Transport
    requires offset <= c.serverOffset
  {
    var overlap := Min(|payload|, c.serverOffset - offset);
    c.(received := c.received + payload[overlap..], serverOffset := c.serverOffset + |payload| - overlap)
  }

  lemma TrueServerData(offset: int, payload: seq<byte>, T: seq<byte>, clientAck: nat)
    requires DownHonest(Data(Server, offset, payload), T, clientAck)
    ensures 0 <= offset && offset + |payload| <= |T| && payload == T[offset..offset + |payload|]
  {
  }

  /** Appending the part of [from, to) past `end` to [start, end) gives a longer slice. */
  lemma Extends(s: seq<byte>, start: nat, end: nat, from: nat, to: nat, overlap: nat)
    requires start <= from <= end <= |s| && from <= to <= |s| && overlap == Min(to - from, end - from)
    ensures s[start..end] + s[from..to][overlap..] == s[start..end + (to - from) - overlap]
  {
  }

  lemma ClientAckKeeps(s: World, direction: Direction, offset: int)
    requires Inv(s) && offset <= s.relay.clientAck
    ensures Inv(s.(client := C.OnAck(s.client, direction, offset).client))
  {
    hide UpHonest, DownHonest;
    C.AckKeepsWindows(s.client, direction, offset);
    var c := s.client;
    if C.OnAck(c, direction, offset).verdict.Taken? {
      assert c.pending[offset - c.clientAck..] == s.W[offset..];
      AllUpHonestGrows(s.up, s.W, c.clientAck, c.serverAck, s.W, offset, c.serverAck);
    }
  }

  lemma RevokeKeeps(s: World, code: ErrorCode, outcome: Outcome)
    requires Inv(s)
    ensures Inv(RelayDid(s, R.Revoke(s.relay, code, outcome)))
  {
    hide UpHonest, AllUpHonest, R.WriteChain;
    assert s.delivered + [] == s.delivered;
  }

  lemma TrueClientData(offset: int, payload: seq<byte>, W: seq<byte>, clientAck: nat, serverAck: nat)
    requires UpHonest(Data(Client, offset, payload), W, clientAck, serverAck)
    ensures 0 <= offset && offset + |payload| <= |W| && payload == W[offset..offset + |payload|]
  {
  }

  /** The trimmed history is still the slice of W that ends at the new clientOffset. */
  lemma HistorySlice(W: seq<byte>, start: nat, end: nat, to: nat)
    requires start <= end <= to <= |W|
    ensures var trimmed := R.TrimHistory(W[start..end] + W[end..to]);
      trimmed == W[start + (to - start) - |trimmed|..to]
  {
    SlicesJoin(W, start, end, to);
  }

  lemma RelayDataKeeps(s: World, ws: nat, offset: int, payload: seq<byte>)
    requires Inv(s) && s.relay.live
    requires UpHonest(Data(Client, offset, payload), s.W, s.client.clientAck, s.client.serverAck)
    ensures Inv(RelayDid(s, R.OnClientData(s.relay, ws, offset, payload)))
  {
    hide UpHonest, AllUpHonest, AllDownHonest, DownStream, R.WriteChain, R.OnClientData, R.TakeClientBytes;
    var r := s.relay;
    R.ClientDataKeepsWindows(r, ws, offset, payload);
    R.ClientDataAppendsTail(r, ws, offset, payload);
    TrueClientData(offset, payload, s.W, s.client.clientAck, s.client.serverAck);
    var reply := R.OnClientData(r, ws, offset, payload);
    if reply.outcome.Rejected? {
      RevokeKeeps(s, reply.outcome.code, reply.outcome);
    } else if reply.written == [] {
      AckAgainKeeps(s, ws);
    } else {
      SliceSplits(s.W, offset, r.clientOffset, offset + |payload|);
      RelayTook(s, reply.written);
      assert FramesOf([]) == {} && s.down + {} == s.down;
    }
  }

  lemma AckAgainKeeps(s: World, ws: nat)
    requires Inv(s)
    ensures Inv(RelayDid(s, R.Reply(s.relay, Accepted, [R.Sent(ws, Ack(Client, s.relay.clientAck))], [])))
  {
    hide UpHonest, AllUpHonest, R.WriteChain;
    assert s.delivered + [] == s.delivered;
  }

  /** The relay takes the next bytes of W and hands them to the target. */
  lemma RelayTook(s: World, added: seq<byte>)
    requires Inv(s) && R.TakeClientBytes(s.relay, added).Valid()
    requires s.relay.clientOffset + |added| <= |s.W|
    requires added == s.W[s.relay.clientOffset..s.relay.clientOffset + |added|]
    ensures Inv(s.(relay := R.TakeClientBytes(s.relay, added), delivered := s.delivered + added))
  {
    hide R.WriteChain, C.Transport.Valid, UpHonest, AllUpHonest, AllDownHonest, R.TrimHistory;
    var r, to := s.relay, s.relay.clientOffset + |added|;
    SlicesJoin(s.W, 0, r.clientOffset, to);
    HistorySlice(s.W, r.clientHistoryStart, r.clientOffset, to);
  }

  lemma RelayAckKeeps(s: World, offset: int)
    requires Inv(s) && s.relay.live && offset <= s.client.serverAck
    ensures Inv(RelayDid(s, R.OnServerAck(s.relay, offset)))
  {
    hide UpHonest, AllUpHonest, R.WriteChain;
    R.ServerAckKeepsWindows(s.relay, offset);
    var r := s.relay;
    assert s.delivered + [] == s.delivered;
    if offset < r.serverAck || offset > r.serverSent {
      RevokeKeeps(s, OffsetMismatch, Rejected(OffsetMismatch));
    } else {
      SliceSplits(s.T, r.serverAck, offset, r.serverOffset);
      assert s.down + FramesOf([]) == s.down;
    }
  }

  lemma PongKeeps(s: World, ws: nat)
    requires Inv(s)
    ensures Inv(RelayDid(s, R.Reply(s.relay, Accepted, [R.Sent(ws, Pong)], [])))
  {
    hide UpHonest, AllUpHonest, R.WriteChain;
    assert s.delivered + [] == s.delivered;
  }

  lemma RelayMessageKeeps(s: World, ws: nat, f: V2Frame)
    requires Inv(s) && f in s.up
    ensures Inv(RelayDid(s, R.OnMessage(s.relay, ws, Some(f))))
  {
    hide R.WriteChain, R.OnClientData, R.OnServerAck, AllDownHonest;
    assert UpHonest(f, s.W, s.client.clientAck, s.client.serverAck);
    assert s.delivered + [] == s.delivered && s.down + FramesOf([]) == s.down;
    if s.relay.live && s.relay.attached == Some(ws) {
      var s1 := s.(relay := s.relay.(previousToken := None));
      assert Inv(s1);
      match f
      case Data(Client, offset, payload) => RelayDataKeeps(s1, ws, offset, payload);
      case Ack(Server, offset) => RelayAckKeeps(s1, offset);
      case Detach =>
      case Ping => PongKeeps(s1, ws);
      case _ => RevokeKeeps(s1, SessionClosed, Ended);
    }
  }

  lemma RelayResumesKeeps(s: World, ws: nat, origin: string, f: V2Frame, newToken: string)
    requires Inv(s) && f in s.up && f.Resume?
    ensures Inv(RelayStep(s, RelayResumes(ws, origin, f, newToken)))
  {
    hide R.WriteChain;
    var r := s.relay;
    assert UpHonest(f, s.W, s.client.clientAck, s.client.serverAck);
    hide UpHonest, AllUpHonest;
    R.ResumeKeepsWindows(r, ws, f.sessionId, origin, f.token, f.clientAck, f.serverAck, newToken);
    assert s.delivered + [] == s.delivered;
    if r.live && R.OffsetsFit(r, f.clientAck, f.serverAck) {
      SliceSplits(s.T, r.serverAck, f.serverAck, r.serverOffset);
    }
  }

  lemma TargetDataKeeps(s: World, n: nat)
    requires Inv(s) && Enabled(s, TargetData(n))
    ensures Inv(RelayStep(s, TargetData(n)))
  {
    hide R.WriteChain, UpHonest, AllUpHonest, AllDownHonest, UpStream;
    var r := s.relay;
    var room := R.TargetRoom(r, s.T[r.serverOffset..r.serverOffset + n]);
    R.TargetDataKeepsWindows(r, s.T[r.serverOffset..r.serverOffset + n]);
    SliceSplits(s.T, r.serverOffset, r.serverOffset + room, r.serverOffset + n);
    TargetTook(s, room);
  }

  /** The relay retains the next bytes of T. */
  lemma TargetTook(s: World, room: nat)
    requires Inv(s) && s.relay.live && s.relay.serverOffset + room <= |s.T|
    requires var r := s.relay;
      r.(serverOffset := r.serverOffset + room,
         retained := r.retained + s.T[r.serverOffset..r.serverOffset + room]).Valid()
    ensures var r := s.relay;
      Inv(s.(relay := r.(serverOffset := r.serverOffset + room,
                         retained := r.retained + s.T[r.serverOffset..r.serverOffset + room])))
  {
    hide R.WriteChain, C.Transport.Valid, UpHonest, AllUpHonest, AllDownHonest;
    var r := s.relay;
    SlicesJoin(s.T, r.serverAck, r.serverOffset, r.serverOffset + room);
    AllDownHonestGrows(s.down, s.T, r.serverOffset, r.clientAck, s.T, r.serverOffset + room, r.clientAck);
  }

  lemma TargetProducesKeeps(s: World, bytes: seq<byte>)
    requires Inv(s)
    ensures Inv(RelayStep(s, TargetProduces(bytes)))
  {
    hide R.WriteChain, UpHonest, AllUpHonest, DownHonest;
    var r := s.relay;
    AllDownHonestGrows(s.down, s.T, r.serverOffset, r.clientAck, s.T + bytes, r.serverOffset, r.clientAck);
  }

  lemma RelayFlushesKeeps(s: World, n: nat)
    requires Inv(s) && Enabled(s, RelayFlushes(n))
    ensures Inv(RelayStep(s, RelayFlushes(n)))
  {
    hide R.WriteChain, UpHonest, AllUpHonest;
    var r := s.relay;
    var at := r.serverSent - r.serverAck;
    assert r.retained[at..at + n] == s.T[r.serverSent..r.serverSent + n];
    assert s.T[..r.serverOffset][r.serverSent..r.serverSent + n] == s.T[r.serverSent..r.serverSent + n];
  }

  lemma WriteDoneKeeps(s: World)
    requires Inv(s) && s.relay.writes != []
    ensures Inv(RelayStep(s, WriteDone))
  {
    R.WriteDoneKeepsWindows(s.relay);
    hide R.WriteChain, UpHonest, AllUpHonest;
    assert s.delivered + [] == s.delivered && s.down + FramesOf([]) == s.down;
    if s.relay.live {
      AllDownHonestGrows(s.down, s.T, s.relay.serverOffset, s.relay.clientAck,
                         s.T, s.relay.serverOffset, R.OnWriteDone(s.relay).relay.clientAck);
    }
  }

  lemma ClientReceivesKeeps(s: World, ws: nat, reconnect: bool, f: V2Frame)
    requires Inv(s) && f in s.down
    ensures Inv(ClientStep(s, ClientReceives(ws, reconnect, f)))
  {
    hide R.WriteChain, C.OnResumed, C.OnData, C.OnAck, UpHonest, AllUpHonest;
    assert DownHonest(f, s.T[..s.relay.serverOffset], s.relay.clientAck);
    assert s.up + SetOf([]) == s.up;
    C.ReceiveKeepsWindows(s.client, ws, reconnect, f);
    if !s.client.closed && s.client.ws == ws {
      match f
      case Resumed(ca, sa, token) => ClientResumedKeeps(s, reconnect, ca, sa, token);
      case Data(direction, offset, payload) =>
        C.DataAppendsTail(s.client, direction, offset, payload);
        ClientDataKeeps(s, direction, offset, payload);
      case Ack(direction, offset) =>
        C.AckKeepsWindows(s.client, direction, offset);
        ClientAckKeeps(s, direction, offset);
      case _ =>
    }
  }

  lemma OfferedControl(s: World)
    ensures UpHonest(Detach, s.W, s.client.clientAck, s.client.serverAck)
    ensures UpHonest(Close, s.W, s.client.clientAck, s.client.serverAck)
    ensures UpHonest(Ping, s.W, s.client.clientAck, s.client.serverAck)
  {
  }

  lemma ClientStepKeeps(s: World, e: Event)
    requires Inv(s) && Enabled(s, e) && IsClientEvent(e)
    ensures Inv(ClientStep(s, e))
  {
    hide R.WriteChain, C.Write, C.Read, C.SendAck, C.Receive, UpHonest, AllDownHonest;
    match e
    case ClientWrites(p) => ClientWritesKeeps(s, p);
    case ClientReads(n) => ClientReadsKeeps(s, n);
    case AckTimer => AckKeeps(s);
    case ClientReopens(ws) => ClientReopensKeeps(s, ws);
    case ClientReceives(ws, reconnect, f) => ClientReceivesKeeps(s, ws, reconnect, f);
    case ClientPings => OfferedControl(s);
    case ClientDetaches => OfferedControl(s);
    case ClientCloses => OfferedControl(s);
    case ClientDrops =>
    case ClientResumes =>
  }

  lemma RelayStepKeeps(s: World, e: Event)
    requires Inv(s) && Enabled(s, e) && !IsClientEvent(e)
    ensures Inv(RelayStep(s, e))
  {
    hide R.WriteChain, R.OnMessage, R.OnResume, R.OnTargetData, R.SendData, R.OnWriteDone, R.Revoke;
    hide UpHonest, DownHonest;
    match e
    case RelayReceives(ws, f) => RelayMessageKeeps(s, ws, f);
    case RelayResumes(ws, origin, f, newToken) => RelayResumesKeeps(s, ws, origin, f, newToken);
    case TargetProduces(bytes) => TargetProducesKeeps(s, bytes);
    case TargetData(n) => TargetDataKeeps(s, n);
    case RelayFlushes(n) => RelayFlushesKeeps(s, n);
    case WriteDone => WriteDoneKeeps(s);
    case RelayRevokes(code) => RevokeKeeps(s, code, Ended);
    case RelayDetaches =>
  }

  /** One event, of either end or of the network, keeps both streams. */
  lemma StepKeepsStreams(s: World, e: Event)
    requires Inv(s) && Enabled(s, e)
    ensures Inv(Next(s, e))
  {
    hide ClientStep, RelayStep;
    if IsClientEvent(e) {
      ClientStepKeeps(s, e);
    } else {
      RelayStepKeeps(s, e);
    }
  }

  lemma InitHasStreams(id: string, origin: string, token: string, grace: Option<int>, cap: Option<int>)
    ensures Inv(Init(id, origin, token, grace, cap))
  {
    hide C.Transport.Valid, R.Relay.Valid, IsSessionId, IsToken, IsHexOfLength, R.WriteChain;
    InitIsValid(id, origin, token, grace, cap);
    var s := Init(id, origin, token, grace, cap);
    assert UpStream(s) && DownStream(s);
  }

  lemma InitIsValid(id: string, origin: string, token: string, grace: Option<int>, cap: Option<int>)
    ensures Init(id, origin, token, grace, cap).client.Valid() && Init(id, origin, token, grace, cap).relay.Valid()
  {
    hide C.Transport.Valid, R.Relay.Valid, C.Fresh, R.Connected;
    C.FreshIsValid(0);
    R.ConnectedIsValid(id, origin, token, 0);
  }

  lemma {:induction false} RunKeepsStreams(s: World, events: seq<Event>, s': World)
    requires Inv(s) && Reaches(s, events, s')
    ensures Inv(s')
    decreases |events|
  {
    hide Inv, Next;
    if events != [] {
      StepKeepsStreams(s, events[0]);
      RunKeepsStreams(Next(s, events[0]), events[1..], s');
    }
  }

  /**
   * Exactly-once delivery, both ways, after every run: the target has got
   * exactly the prefix of W the relay counts, the client has read exactly the
   * prefix of T it acknowledges, and while the session lives every other byte is
   * still held by its sender.
   */
  lemma ExactlyOnce(id: string, origin: string, token: string, grace: Option<int>, cap: Option<int>,
                    events: seq<Event>, s: World)
    requires Reaches(Init(id, origin, token, grace, cap), events, s)
    ensures s.relay.clientOffset <= |s.W| && s.delivered == s.W[..s.relay.clientOffset]
    ensures s.client.serverAck <= |s.T| && s.read == s.T[..s.client.serverAck]
    ensures s.client.clientAck <= s.relay.clientOffset && s.client.pending == s.W[s.client.clientAck..]
    ensures s.relay.serverAck <= s.client.serverAck <= s.relay.serverOffset <= |s.T|
    ensures s.relay.live ==> s.relay.retained == s.T[s.relay.serverAck..s.relay.serverOffset]
  {
    hide Init, Reaches, R.WriteChain, AllUpHonest, AllDownHonest;
    InitHasStreams(id, origin, token, grace, cap);
    RunKeepsStreams(Init(id, origin, token, grace, cap), events, s);
  }

  /** The sets of frames ever sent are what the sends put there. */
  lemma StepSends(s: World, e: Event)
    requires Legal(s) && Enabled(s, e)
    ensures Next(s, e).up == s.up + SetOf(ClientSends(s, e))
    ensures Next(s, e).down == s.down + FramesOf(RelaySends(s, e))
  {
    hide C.Write, C.Read, C.SendAck, C.Receive, R.OnMessage, R.OnResume, R.OnTargetData, R.SendData, R.OnWriteDone,
         R.Revoke;
    hide Legal;
    assert SetOf([]) == {} && FramesOf([]) == {};
  }

  /** What one delivered frame does to the two ends. */
  lemma ReceiveIs(s: World, ws: nat, reconnect: bool, f: V2Frame)
    requires Legal(s) && Enabled(s, ClientReceives(ws, reconnect, f))
    ensures var e, reply := ClientReceives(ws, reconnect, f), C.Receive(s.client, ws, reconnect, f);
      Next(s, e).client == reply.client && Next(s, e).relay == s.relay && ClientSends(s, e) == reply.sends
  {
    hide C.Receive;
  }

  /** What the relay's flush loop sends is a run of single-frame events. */
  lemma {:induction false} FlushIsARun(s: World, frames: seq<V2Frame>, r: R.Relay) returns (events: seq<Event>)
    requires Legal(s) && s.relay.live && s.relay.attached.Some? && R.Flushed(s.relay, frames, r)
    ensures Reaches(s, events, s.(relay := r, down := s.down + SetOf(frames)))
    decreases |frames|
  {
    hide R.WriteChain;
    if frames == [] {
      events := [];
      assert s.down + SetOf([]) == s.down;
    } else {
      var n := |frames[0].payload|;
      var s1 := Next(s, RelayFlushes(n));
      var rest := FlushIsARun(s1, frames[1..], r);
      events := [RelayFlushes(n)] + rest;
      assert events[1..] == rest;
      assert frames == [frames[0]] + frames[1..];
      assert s1.down + SetOf(frames[1..]) == s.down + SetOf(frames);
    }
  }
}
