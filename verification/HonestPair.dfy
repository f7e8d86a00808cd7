/**
 * The honest pair's invariant, and one lemma for each of its moves.
 *
 * The frames in flight on the bound socket continue where the receiver stands:
 * data runs on without gaps, acknowledgements never go back and never pass what
 * was sent. Sockets the relay has not bound yet carry one resume request each,
 * with the page's present token and offsets. So the receiver accepts whatever
 * comes first, and the rest of the queue continues where it then stands. What
 * this means for whole runs is in HonestRuns.
 */
module HonestPair {
  import opened Frames
  import C = ClientNode
  import R = RelayNode
  import opened World
  import opened Wire

  // ---- The invariant ----

  ghost predicate Greeted(p: Pair) {
    var c, r := p.core.client, p.core.relay;
    c.sessionId == r.id && R.TokenFits(r, c.token) && c.maxUnackedBytes == MAX_UNACKED_BYTES
  }

  /** Before `ready` arrives the page has sent and taken nothing. */
  ghost predicate Ungreeted(p: Pair) {
    var c := p.core.client;
    |p.links| == 1 && p.bound == 0 && c.sessionId == "" && !c.attached && p.links[0].up == [] &&
    c.clientOffset == 0 && c.clientSent == 0 && c.clientAck == 0 && c.maxUnackedBytes == 0 &&
    c.serverOffset == 0 && c.serverAck == 0 && c.ackSent == 0 && c.received == []
  }

  ghost predicate Shape(p: Pair) {
    var c, r := p.core.client, p.core.relay;
    |p.links| > 0 && c.ws == |p.links| - 1 && p.bound < |p.links| &&
    (r.attached.Some? ==> r.attached.value == p.bound) &&
    c.serverOffset <= r.serverSent && IsSessionId(r.id) && IsToken(r.token)
  }

  /** Sockets the relay has not bound yet carry one resume request each, with the page's present token and offsets. */
  ghost predicate Waiting(p: Pair)
    requires Shape(p)
  {
    var c, r := p.core.client, p.core.relay;
    p.bound < |p.links| - 1 ==>
      !c.attached && c.received == [] && Greeted(p) &&
      forall k :: p.bound < k < |p.links| ==>
        p.links[k] == Link([Resume(r.id, c.token, c.clientAck, c.serverAck)], [])
  }

  /** An attached page uses the bound socket, has flushed everything and holds the current token. */
  ghost predicate AttachedOk(p: Pair)
    requires Shape(p)
  {
    var c, r := p.core.client, p.core.relay;
    c.attached ==>
      p.bound == |p.links| - 1 && c.open && c.clientSent == c.clientOffset && c.token == r.token && Greeted(p)
  }

  /** What is on its way up the bound socket continues where the relay stands. */
  ghost predicate UpOk(p: Pair)
    requires Shape(p)
  {
    var c, r := p.core.client, p.core.relay;
    var up := p.links[p.bound].up;
    (up != [] ==> Greeted(p) && c.token == r.token) &&
    (r.attached.Some? ==>
      r.clientHistoryStart <= p.upNext <= r.clientOffset && UpChain(up, p.upNext, r.serverAck, c.serverAck) &&
      (c.attached ==> UpEnd(up, p.upNext) == c.clientSent))
  }

  /** The first frame an unattached page gets on its bound socket. */
  ghost predicate HelloOk(p: Pair, f: V2Frame) {
    var c, r := p.core.client, p.core.relay;
    if |p.links| == 1 then
      f.Ready? && C.ReadyFits(f.sessionId, f.token, f.maxUnackedBytes, f.grantedGraceMs, f.capGraceMs) &&
      f.sessionId == r.id && f.token == r.token && f.maxUnackedBytes == MAX_UNACKED_BYTES &&
      Ungreeted(p) && p.upNext == 0
    else
      f.Resumed? && f.serverAck == c.serverAck && f.newToken == r.token &&
      c.clientAck <= f.clientAck == p.upNext && Greeted(p)
  }

  function HelloAck(f: V2Frame): int {
    if f.Resumed? then f.clientAck else 0
  }

  /** What is on its way down the bound socket continues where the page stands. */
  ghost predicate DownOk(p: Pair)
    requires Shape(p)
  {
    var c, r := p.core.client, p.core.relay;
    var link := p.links[|p.links| - 1];
    p.bound == |p.links| - 1 && c.open ==>
      if c.attached then DownChain(link.down, c.serverOffset, c.clientAck, r.serverSent, r.clientAck)
      else
        link.up == [] && c.received == [] && link.down != [] && HelloOk(p, link.down[0]) &&
        DownChain(link.down[1..], c.serverOffset, HelloAck(link.down[0]), r.serverSent, r.clientAck)
  }

  ghost predicate Good(p: Pair) {
    Shape(p) && (Greeted(p) || Ungreeted(p)) && Waiting(p) && AttachedOk(p) && UpOk(p) && DownOk(p)
  }

  /** The whole invariant: the streams of World, the queues, and Good while the session is alive. */
  ghost predicate PairInv(p: Pair) {
    WellFormed(p) && Inv(p.core) && (Alive(p) ==> Good(p))
  }

  // ---- Local client moves ----

  lemma PushUpNothing(links: seq<Link>, ws: nat)
    ensures PushUp(links, ws, []) == links
  {
    if ws < |links| {
      assert links[ws].up + [] == links[ws].up;
    }
  }

  /** An attached page sends more: the up-chain grows at its end. */
  lemma SendsUp(p: Pair, c: C.Transport, frames: seq<V2Frame>, core: World)
    requires Good(p) && p.core.client.attached && c.attached && c.open
    requires core.client == c && core.relay == p.core.relay
    requires c.ws == p.core.client.ws && c.token == p.core.client.token && c.sessionId == p.core.client.sessionId
    requires c.maxUnackedBytes == MAX_UNACKED_BYTES && c.clientAck == p.core.client.clientAck
    requires c.serverOffset == p.core.client.serverOffset && c.clientSent == c.clientOffset
    requires p.core.client.serverAck <= c.serverAck
    requires UpChain(frames, p.core.client.clientSent, p.core.client.serverAck, c.serverAck)
    requires UpEnd(frames, p.core.client.clientSent) == c.clientSent
    ensures Good(p.(core := core, links := PushUp(p.links, |p.links| - 1, frames)))
  {
    hide UpChain, UpEnd, DownChain, HelloOk;
    var up := p.links[p.bound].up;
    if p.core.relay.attached.Some? {
      UpChainAppend(up, frames, p.upNext, p.core.relay.serverAck, p.core.client.serverAck, p.core.client.serverAck,
                    c.serverAck);
    }
  }

  /** The pair after a local client event with these frames. */
  function ClientMoved(p: Pair, core: World, frames: seq<V2Frame>): Pair
    requires |p.links| > 0
  {
    p.(core := core, links := PushUp(p.links, |p.links| - 1, frames))
  }

  /** A page that is not attached sends nothing; it may take more from the application or hand more to it. */
  lemma StaysQuiet(p: Pair, core: World)
    requires Good(p) && !p.core.client.attached && core.relay == p.core.relay
    requires var c, c' := p.core.client, core.client;
      c' == c.(pending := c'.pending, clientOffset := c'.clientOffset, received := c'.received,
               serverAck := c'.serverAck) &&
      c.serverAck <= c'.serverAck &&
      (c.maxUnackedBytes == 0 ==> c'.clientOffset == c.clientOffset) &&
      (c.received == [] ==> c'.received == [] && c'.serverAck == c.serverAck)
    ensures Good(ClientMoved(p, core, []))
  {
    hide UpChain, UpEnd, DownChain, C.ReadyFits;
    PushUpNothing(p.links, |p.links| - 1);
    if p.core.relay.attached.Some? {
      UpChainRaises(p.links[p.bound].up, p.upNext, p.core.relay.serverAck, p.core.client.serverAck,
                    core.client.serverAck);
    }
  }

  lemma WritesKeep(p: Pair, bytes: seq<byte>, core: World)
    requires Good(p) && Legal(p.core) && Alive(p)
    requires core.client == C.Write(p.core.client, bytes).0 && core.relay == p.core.relay
    ensures Good(ClientMoved(p, core, C.Write(p.core.client, bytes).2))
  {
    hide UpChain, UpEnd, DownChain, R.WriteChain, C.Write, C.ReadyFits, Waiting, UpOk, DownOk;
    var c0, c := p.core.client, core.client;
    C.WriteSendsUnsent(c0, bytes);
    var n, frames := C.Write(c0, bytes).1, C.Write(c0, bytes).2;
    if !c0.attached {
      StaysQuiet(p, core);
    } else if n > 0 {
      var unsent := c.pending[c0.clientSent - c0.clientAck..];
      RunIsUpChain(frames, c0.clientSent, c.clientOffset, unsent, c0.serverAck, c.serverAck);
      SendsUp(p, c, frames, core);
    } else {
      ControlIsUpChain(c0.clientSent, c0.serverAck, c0.serverAck);
      SendsUp(p, c, [], core);
    }
  }

  lemma ControlIsUpChain(next: int, lo: int, ack: int)
    requires lo <= ack
    ensures UpChain([Ack(Server, ack)], next, lo, ack) && UpEnd([Ack(Server, ack)], next) == next
    ensures UpChain([], next, lo, ack) && UpEnd([], next) == next
    ensures UpChain([Detach], next, lo, ack) && UpEnd([Detach], next) == next
    ensures UpChain([Ping], next, lo, ack) && UpEnd([Ping], next) == next
  {
    assert [Ack(Server, ack)][1..] == [] && [Detach][1..] == [] && [Ping][1..] == [];
  }

  lemma ReadsKeep(p: Pair, n: nat, core: World)
    requires Good(p) && Legal(p.core) && Alive(p)
    requires core.client == C.Read(p.core.client, n).0 && core.relay == p.core.relay
    ensures Good(ClientMoved(p, core, C.Read(p.core.client, n).2))
  {
    hide UpChain, UpEnd, DownChain, R.WriteChain, C.ReadyFits, Waiting, UpOk, DownOk;
    var c0, c := p.core.client, core.client;
    C.ReadKeepsWindows(c0, n);
    if c0.attached {
      ControlIsUpChain(c0.clientSent, c0.serverAck, c.serverAck);
      SendsUp(p, c, C.Read(c0, n).2, core);
    } else {
      StaysQuiet(p, core);
    }
  }

  lemma AckTimerKeeps(p: Pair, core: World)
    requires Good(p) && Legal(p.core) && Alive(p)
    requires core.client == C.SendAck(p.core.client).0 && core.relay == p.core.relay
    ensures Good(ClientMoved(p, core, C.SendAck(p.core.client).1))
  {
    hide UpChain, UpEnd, DownChain, R.WriteChain, C.ReadyFits, Waiting, UpOk, DownOk;
    var c0, c := p.core.client, core.client;
    if c0.attached {
      ControlIsUpChain(c0.clientSent, c0.serverAck, c.serverAck);
      SendsUp(p, c, C.SendAck(c0).1, core);
    } else {
      StaysQuiet(p, core);
    }
  }

  lemma PingsKeep(p: Pair, core: World)
    requires Good(p) && Legal(p.core) && Alive(p)
    requires core.client == p.core.client && core.relay == p.core.relay
    ensures Good(ClientMoved(p, core, C.Heartbeat(p.core.client)))
  {
    hide UpChain, UpEnd, DownChain, R.WriteChain, C.ReadyFits, Waiting, UpOk, DownOk;
    var c := p.core.client;
    if c.attached {
      ControlIsUpChain(c.clientSent, c.serverAck, c.serverAck);
      SendsUp(p, c, C.Heartbeat(c), core);
    } else {
      StaysQuiet(p, core);
    }
  }

  lemma DropsKeep(p: Pair, core: World)
    requires PairInv(p) && Alive(p)
    requires core.client == C.Dropped(p.core.client) && core.relay == p.core.relay
    ensures Good(ClientMoved(p, core, []))
  {
    hide Inv, UpChain, UpEnd, DownChain, R.WriteChain, C.ReadyFits, IsSessionId, IsToken, R.TokenFits;
    PushUpNothing(p.links, |p.links| - 1);
  }

  /** The page asks to be detached, which it tells the relay while attached, or takes that back. */
  lemma DetachesKeep(p: Pair, core: World)
    requires PairInv(p) && Alive(p)
    requires core.client == p.core.client.(detached := core.client.detached) && core.relay == p.core.relay
    ensures var c := p.core.client;
      Good(ClientMoved(p, core, if c.attached && c.open then [Detach] else [])) && Good(ClientMoved(p, core, []))
  {
    hide UpChain, UpEnd, DownChain, R.WriteChain, C.ReadyFits;
    var c0 := p.core.client;
    PushUpNothing(p.links, |p.links| - 1);
    if c0.attached {
      ControlIsUpChain(c0.clientSent, c0.serverAck, c0.serverAck);
      SendsUp(p, core.client, [Detach], core);
    }
  }

  lemma LocalClientKeeps(p: Pair, e: Event)
    requires PairInv(p) && Alive(p) && MayMove(p, Local(e)) && IsClientEvent(e) && !e.ClientCloses?
    ensures Good(After(p, Local(e))) && Alive(After(p, Local(e)))
  {
    hide Good, C.Write, C.Read, C.SendAck, R.WriteChain;
    var p' := After(p, Local(e));
    assert p' == ClientMoved(p, ClientStep(p.core, e), ClientSends(p.core, e));
    match e
    case ClientWrites(bytes) =>
      WritesKeep(p, bytes, p'.core);
      CallsKeepSocket(p.core.client, bytes, 0);
    case ClientReads(n) =>
      ReadsKeep(p, n, p'.core);
      CallsKeepSocket(p.core.client, [], n);
    case AckTimer =>
      AckTimerKeeps(p, p'.core);
      CallsKeepSocket(p.core.client, [], 0);
    case ClientPings => PingsKeep(p, p'.core);
    case ClientDrops => DropsKeep(p, p'.core);
    case ClientDetaches => DetachesKeep(p, p'.core);
    case ClientResumes => DetachesKeep(p, p'.core);
  }

  /** Opening a new socket with an empty buffer queues one resume request behind the bound socket. */
  lemma ReopensKeeps(p: Pair)
    requires PairInv(p) && Alive(p) && MayMove(p, Reopens) && Drained(p, Reopens)
    ensures Good(After(p, Reopens)) && Alive(After(p, Reopens))
  {
    hide Inv, Good, After, Legal, QueuesSent;
    AfterReopens(p);
    ReopenedIsGood(p, After(p, Reopens));
  }

  lemma AfterReopens(p: Pair)
    requires MayMove(p, Reopens)
    ensures var (c, f) := C.Reopen(p.core.client, |p.links|);
      var p' := After(p, Reopens);
      p'.core.client == c && p'.core.relay == p.core.relay && p'.links == p.links + [Link([f], [])] &&
      p'.bound == p.bound && p'.upNext == p.upNext && p.core.client.sessionId != "" && !p.core.client.attached
  {
    hide Legal, QueuesSent;
  }

  lemma ReopenedIsGood(p: Pair, p': Pair)
    requires Good(p) && !p.core.client.attached && p.core.client.received == [] && p.core.client.sessionId != ""
    requires var (c, f) := C.Reopen(p.core.client, |p.links|);
      p'.core.client == c && p'.core.relay == p.core.relay && p'.links == p.links + [Link([f], [])] &&
      p'.bound == p.bound && p'.upNext == p.upNext
    ensures Good(p')
  {
    hide UpChain, UpEnd, DownChain, C.ReadyFits, IsSessionId, IsToken, R.TokenFits, HelloOk;
    assert forall k :: 0 <= k < |p.links| ==> p'.links[k] == p.links[k];
  }

  // ---- The page takes a frame ----

  /** The pair after the page took the head of its queue and answered with these frames. */
  function PageMoved(p: Pair, core: World, frames: seq<V2Frame>): Pair
    requires |p.links| > 0 && p.links[|p.links| - 1].down != []
  {
    var cur := |p.links| - 1;
    p.(core := core, links := PushUp(p.links[cur := p.links[cur].(down := p.links[cur].down[1..])], cur, frames))
  }

  ghost predicate PageMay(p: Pair) {
    PairInv(p) && Alive(p) && p.core.client.open && p.links[|p.links| - 1].down != []
  }

  lemma PageIsBound(p: Pair)
    requires PageMay(p)
    ensures p.bound == |p.links| - 1
  {
    hide UpOk, DownOk;
  }

  lemma PageMovedLink(p: Pair, core: World, frames: seq<V2Frame>)
    requires |p.links| > 0 && p.links[|p.links| - 1].down != []
    ensures var p', cur := PageMoved(p, core, frames), |p.links| - 1;
      p'.core == core && p'.bound == p.bound && p'.upNext == p.upNext && |p'.links| == |p.links| &&
      p'.links[cur].down == p.links[cur].down[1..] && p'.links[cur].up == p.links[cur].up + frames
  {
  }

  lemma EmptyUpChain(next: int, lo: int, hi: int)
    requires lo <= hi
    ensures UpChain([], next, lo, hi) && UpEnd([], next) == next
  {
  }

  lemma ReadyAccepted(p: Pair)
    requires PageMay(p) && !p.core.client.attached && |p.links| == 1
    ensures var c, r, f := p.core.client, p.core.relay, p.links[0].down[0];
      f.Ready? && Ungreeted(p) && p.upNext == 0 &&
      C.OnReady(c, false, f) == C.Reply(
        c.(sessionId := r.id, token := r.token, maxUnackedBytes := MAX_UNACKED_BYTES, attached := true), C.Taken, [])
    ensures DownChain(p.links[0].down[1..], 0, 0, p.core.relay.serverSent, p.core.relay.clientAck)
  {
    hide DownChain, UpChain, UpEnd, R.WriteChain, C.ReadyFits, IsSessionId, IsToken, Waiting, UpOk, Inv, Legal;
    PageIsBound(p);
  }

  lemma ReadyTaken(p: Pair, core: World)
    requires PageMay(p) && !p.core.client.attached && |p.links| == 1
    requires p.links[0].down[0].Ready?
    requires core.client == C.OnReady(p.core.client, false, p.links[0].down[0]).client && core.relay == p.core.relay
    ensures C.OnReady(p.core.client, false, p.links[0].down[0]).verdict == C.Taken
    ensures Good(PageMoved(p, core, []))
  {
    ReadyAccepted(p);
    PageIsBound(p);
    RelayOk(p);
    PageMovedLink(p, core, []);
    hide DownChain, C.OnReady, PageMoved, IsSessionId, IsToken, PageMay;
    FirstAttached(PageMoved(p, core, []));
  }

  lemma RelayOk(p: Pair)
    requires PageMay(p)
    ensures var c, r := p.core.client, p.core.relay;
      Shape(p) && c.open && r.serverAck <= c.serverAck <= c.serverOffset &&
      (r.attached.Some? && p.upNext == 0 ==> r.clientHistoryStart == 0)
  {
    hide DownChain, UpChain, UpEnd, R.WriteChain, IsSessionId, IsToken, Greeted, Ungreeted, Waiting, DownOk,
         AttachedOk, AllUpHonest, AllDownHonest;
  }

  /** A page attached on the first socket that has sent and taken nothing. */
  lemma FirstAttached(p: Pair)
    requires Shape(p) && |p.links| == 1 && p.upNext == 0 && p.links[0].up == []
    requires var c, r := p.core.client, p.core.relay;
      c.attached && c.open && c.sessionId == r.id && c.token == r.token && c.maxUnackedBytes == MAX_UNACKED_BYTES &&
      c.clientSent == 0 && c.clientOffset == 0 && r.serverAck <= c.serverAck &&
      (r.attached.Some? ==> r.clientHistoryStart == 0) &&
      DownChain(p.links[0].down, c.serverOffset, c.clientAck, r.serverSent, r.clientAck)
    ensures Good(p)
  {
    hide DownChain, UpChain, UpEnd, IsSessionId, IsToken;
    EmptyUpChain(p.upNext, p.core.relay.serverAck, p.core.client.serverAck);
    LastIsBound(p);
  }

  /** Nothing waits, and the page's chains are as given: the two clauses about the last socket hold. */
  lemma LastIsBound(p: Pair)
    requires Shape(p) && p.bound == |p.links| - 1 && p.core.client.attached
    requires DownChain(p.links[p.bound].down, p.core.client.serverOffset, p.core.client.clientAck,
                       p.core.relay.serverSent, p.core.relay.clientAck)
    ensures Waiting(p) && DownOk(p)
  {
  }

  lemma ResumedTaken(p: Pair, core: World)
    requires PageMay(p) && !p.core.client.attached && |p.links| > 1
    requires p.links[|p.links| - 1].down[0].Resumed?
    requires var f := p.links[|p.links| - 1].down[0];
      core.client == C.OnResumed(p.core.client, true, f.clientAck, f.serverAck, f.newToken).client &&
      core.relay == p.core.relay
    ensures var f := p.links[|p.links| - 1].down[0];
      var reply := C.OnResumed(p.core.client, true, f.clientAck, f.serverAck, f.newToken);
      reply.verdict == C.Taken && Good(PageMoved(p, core, reply.sends))
  {
    hide DownChain, R.WriteChain, C.ReadyFits, C.OnResumed, UpChain, UpEnd, DataRun, PageMoved;
    PageIsBound(p);
    var c, r := p.core.client, p.core.relay;
    var f := p.links[|p.links| - 1].down[0];
    DownChainBounds(p.links[|p.links| - 1].down[1..], c.serverOffset, f.clientAck, r.serverSent, r.clientAck);
    C.ResumedReplays(c, f.clientAck, f.newToken);
    var reply := C.OnResumed(c, true, f.clientAck, f.serverAck, f.newToken);
    RunIsUpChain(reply.sends, f.clientAck, c.clientOffset, reply.client.pending, r.serverAck, c.serverAck);
    PageMovedLink(p, core, reply.sends);
    assert [] + reply.sends == reply.sends;
  }

  lemma DataAccepted(p: Pair)
    requires PageMay(p) && p.core.client.attached && p.links[|p.links| - 1].down[0].Data?
    ensures var c, down := p.core.client, p.links[|p.links| - 1].down;
      var bytes := down[0].payload;
      C.OnData(c, down[0].direction, down[0].offset, bytes)
        == C.Reply(c.(received := c.received + bytes, serverOffset := c.serverOffset + |bytes|), C.Taken, []) &&
      c.serverOffset + |bytes| <= p.core.relay.serverSent &&
      DownChain(down[1..], c.serverOffset + |bytes|, c.clientAck, p.core.relay.serverSent, p.core.relay.clientAck)
  {
    hide R.WriteChain, C.OnData, UpChain, UpEnd, Waiting, UpOk, HelloOk, IsSessionId, IsToken, R.TokenFits;
    PageIsBound(p);
    var c, r := p.core.client, p.core.relay;
    var down := p.links[|p.links| - 1].down;
    DownChainBounds(down[1..], c.serverOffset + |down[0].payload|, c.clientAck, r.serverSent, r.clientAck);
    C.NextDataFits(c, down[0].payload);
  }

  lemma DataTaken(p: Pair, core: World)
    requires PageMay(p) && p.core.client.attached
    requires p.links[|p.links| - 1].down[0].Data?
    requires var f := p.links[|p.links| - 1].down[0];
      core.client == C.OnData(p.core.client, f.direction, f.offset, f.payload).client && core.relay == p.core.relay
    ensures var f := p.links[|p.links| - 1].down[0];
      C.OnData(p.core.client, f.direction, f.offset, f.payload).verdict == C.Taken
    ensures Good(PageMoved(p, core, []))
  {
    DataAccepted(p);
    hide R.WriteChain, C.OnData, C.ReadyFits, UpChain, UpEnd, DownChain, PageMoved, Waiting, DownOk, IsSessionId,
         IsToken, R.TokenFits;
    PageIsBound(p);
    PageMovedLink(p, core, []);
    assert p.links[|p.links| - 1].up + [] == p.links[|p.links| - 1].up;
    LastIsBound(PageMoved(p, core, []));
  }

  lemma AckTaken(p: Pair, core: World)
    requires PageMay(p) && p.core.client.attached
    requires p.links[|p.links| - 1].down[0].Ack?
    requires var f := p.links[|p.links| - 1].down[0];
      core.client == C.OnAck(p.core.client, f.direction, f.offset).client && core.relay == p.core.relay
    ensures var f := p.links[|p.links| - 1].down[0];
      C.OnAck(p.core.client, f.direction, f.offset).verdict == C.Taken
    ensures Good(PageMoved(p, core, []))
  {
    hide R.WriteChain, C.ReadyFits, UpChain, UpEnd, PageMoved, IsSessionId, IsToken;
    PageIsBound(p);
    PageMovedLink(p, core, []);
    assert p.links[|p.links| - 1].up + [] == p.links[|p.links| - 1].up;
    var c, r := p.core.client, p.core.relay;
    var down := p.links[|p.links| - 1].down;
    DownChainBounds(down[1..], c.serverOffset, down[0].offset, r.serverSent, r.clientAck);
    hide DownChain;
  }

  lemma PongTaken(p: Pair, core: World)
    requires PageMay(p) && p.core.client.attached && p.links[|p.links| - 1].down[0].Pong?
    requires core.client == p.core.client && core.relay == p.core.relay
    ensures Good(PageMoved(p, core, []))
  {
    hide R.WriteChain, C.ReadyFits, UpChain, UpEnd, PageMoved, IsSessionId, IsToken;
    PageIsBound(p);
    PageMovedLink(p, core, []);
    assert p.links[|p.links| - 1].up + [] == p.links[|p.links| - 1].up;
  }

  /** What one delivered frame does to the queues. */
  lemma AfterPageGets(p: Pair)
    requires MayMove(p, PageGets)
    ensures var cur := |p.links| - 1;
      var e := ClientReceives(cur, cur > 0, p.links[cur].down[0]);
      Enabled(p.core, e) && Legal(p.core) &&
      After(p, PageGets) == PageMoved(p, Next(p.core, e), ClientSends(p.core, e))
  {
    hide Next, ClientSends, Legal, QueuesSent;
  }

  lemma PageMovedCore(p: Pair, core: World, frames: seq<V2Frame>)
    requires |p.links| > 0 && p.links[|p.links| - 1].down != []
    ensures PageMoved(p, core, frames).core == core
  {
  }

  /** The page takes the first frame of its queue: the reply's state, its frames and nothing else. */
  lemma PageGetsIs(p: Pair)
    requires PairInv(p) && Alive(p) && MayMove(p, PageGets)
    ensures var cur := |p.links| - 1;
      var reply := C.Message(p.core.client, cur > 0, p.links[cur].down[0]);
      reply.verdict == C.Taken &&
      C.Receive(p.core.client, cur, cur > 0, p.links[cur].down[0]) == reply &&
      After(p, PageGets) == PageMoved(p, After(p, PageGets).core, reply.sends) &&
      After(p, PageGets).core.client == reply.client && After(p, PageGets).core.relay == p.core.relay
  {
    hide Good, Inv, C.Message, C.Receive, Legal, QueuesSent, Next, ClientSends, After, PageMoved, Enabled;
    TakenNow(p);
    AfterPageGets(p);
    var cur := |p.links| - 1;
    var e := ClientReceives(cur, cur > 0, p.links[cur].down[0]);
    ReceiveIs(p.core, cur, cur > 0, p.links[cur].down[0]);
    PageMovedCore(p, Next(p.core, e), ClientSends(p.core, e));
  }

  lemma TakenNow(p: Pair)
    requires PageMay(p)
    ensures var cur := |p.links| - 1;
      var reply := C.Message(p.core.client, cur > 0, p.links[cur].down[0]);
      reply.verdict == C.Taken && C.Receive(p.core.client, cur, cur > 0, p.links[cur].down[0]) == reply
  {
    hide Inv, Good, C.Message, R.WriteChain;
    var cur := |p.links| - 1;
    PageTakes(p, p.core.(client := C.Message(p.core.client, cur > 0, p.links[cur].down[0]).client));
  }

  lemma PageGetsKeeps(p: Pair)
    requires PairInv(p) && Alive(p) && MayMove(p, PageGets)
    ensures !Refuses(p, PageGets)
    ensures Good(After(p, PageGets)) && Alive(After(p, PageGets))
  {
    PageGetsIs(p);
    hide Good, Inv, C.Message, C.Receive, Legal, QueuesSent, After, PageMoved;
    var cur := |p.links| - 1;
    Unclosed(p.core.client, cur > 0, p.links[cur].down[0]);
    PageTakes(p, After(p, PageGets).core);
  }

  /** Whatever is first in the queue, the page takes it, and the invariant holds afterwards. */
  lemma PageTakes(p: Pair, core: World)
    requires PageMay(p)
    requires var reply := C.Message(p.core.client, |p.links| > 1, p.links[|p.links| - 1].down[0]);
      core.client == reply.client && core.relay == p.core.relay
    ensures var reply := C.Message(p.core.client, |p.links| > 1, p.links[|p.links| - 1].down[0]);
      reply.verdict == C.Taken && Good(PageMoved(p, core, reply.sends))
  {
    HeadOfDown(p);
    hide Good, Inv, PageMoved, C.OnReady, C.OnResumed, C.OnData, C.OnAck, R.WriteChain, DownChain;
    var f := p.links[|p.links| - 1].down[0];
    if !p.core.client.attached {
      if |p.links| == 1 {
        ReadySendsNothing(p.core.client, f);
        ReadyTaken(p, core);
      } else {
        ResumedTaken(p, core);
      }
    } else if f.Data? {
      C.DataAppendsTail(p.core.client, f.direction, f.offset, f.payload);
      DataTaken(p, core);
    } else if f.Ack? {
      C.AckKeepsWindows(p.core.client, f.direction, f.offset);
      AckTaken(p, core);
    } else {
      PongTaken(p, core);
    }
  }

  lemma ReadySendsNothing(c: C.Transport, f: V2Frame)
    requires f.Ready?
    ensures C.OnReady(c, false, f).sends == []
  {
  }

  /** Which frames can be first in the page's queue. */
  lemma HeadOfDown(p: Pair)
    requires PageMay(p)
    ensures var f := p.links[|p.links| - 1].down[0];
      if p.core.client.attached then f.Data? || f.Ack? || f.Pong?
      else if |p.links| == 1 then f.Ready? else f.Resumed?
  {
    hide Inv, Legal, UpChain, UpEnd, C.ReadyFits, R.TokenFits, IsSessionId, IsToken;
    PageIsBound(p);
  }

  lemma Unclosed(c: C.Transport, reconnect: bool, f: V2Frame)
    requires c.Valid() && C.Message(c, reconnect, f).verdict == C.Taken
    ensures C.Message(c, reconnect, f).client.closed == c.closed
  {
    hide C.ChunkFrames, C.ReadyFits, IsHexOfLength;
  }

  // ---- Local relay moves ----

  /** The pair after a relay event that sends at most one frame on the bound socket. */
  function RelayMoved(p: Pair, core: World, frames: seq<V2Frame>): Pair
    requires p.bound < |p.links|
  {
    p.(core := core, links := p.links[p.bound := p.links[p.bound].(down := p.links[p.bound].down + frames)])
  }

  lemma PushDownToAttached(p: Pair, f: V2Frame, core: World)
    requires Shape(p)
    ensures p.(core := core, links := PushDown(p.links, R.ToAttached(p.core.relay, f)))
         == RelayMoved(p, core, if p.core.relay.attached.Some? then [f] else [])
  {
    var sends := R.ToAttached(p.core.relay, f);
    assert p.links[p.bound].down + [] == p.links[p.bound].down;
    assert sends != [] ==> sends[1..] == [];
  }

  /** A relay that only takes more from the target, or lets go of the socket, disturbs no queue. */
  lemma RelayQuiet(p: Pair, core: World)
    requires Good(p) && core.client == p.core.client
    requires var r, r' := p.core.relay, core.relay;
      r' == r.(serverOffset := r'.serverOffset, retained := r'.retained, attached := r'.attached) &&
      (r'.attached == r.attached || r'.attached == None)
    ensures Good(p.(core := core))
  {
    hide UpChain, UpEnd, DownChain, C.ReadyFits, IsSessionId, IsToken;
  }

  /** A relay event that moves only serverSent and clientAck forward keeps all but, perhaps, what is on its way down. */
  lemma RelayAdvances(p: Pair, core: World, frames: seq<V2Frame>)
    requires Good(p) && core.client == p.core.client
    requires var r, r' := p.core.relay, core.relay;
      r' == r.(serverSent := r'.serverSent, clientAck := r'.clientAck, pendingClientBytes := r'.pendingClientBytes,
               writes := r'.writes) && r.serverSent <= r'.serverSent
    requires DownMoves(p, core, frames)
    ensures Good(RelayMoved(p, core, frames))
  {
    hide UpChain, UpEnd, DownChain, C.ReadyFits, IsSessionId, IsToken;
    var p' := RelayMoved(p, core, frames);
    if p.bound == |p.links| - 1 && p.core.client.open && !p.core.client.attached {
      var down := p.links[p.bound].down;
      assert (down + frames)[1..] == down[1..] + frames && (down + frames)[0] == down[0];
    }
  }

  /** The frames continue the down-chain to where the relay now stands. */
  ghost predicate DownMoves(p: Pair, core: World, frames: seq<V2Frame>)
    requires Good(p)
  {
    var c, r, r', down := p.core.client, p.core.relay, core.relay, p.links[p.bound].down;
    p.bound == |p.links| - 1 && c.open ==>
      if c.attached then DownChain(down + frames, c.serverOffset, c.clientAck, r'.serverSent, r'.clientAck)
      else DownChain(down[1..] + frames, c.serverOffset, HelloAck(down[0]), r'.serverSent, r'.clientAck)
  }

  /** The relay sends the next n retained bytes. */
  ghost predicate Flushing(p: Pair, n: nat, core: World, f: V2Frame) {
    Legal(p.core) && Enabled(p.core, RelayFlushes(n)) &&
    core.client == p.core.client && (core.relay, f) == R.SendData(p.core.relay, n)
  }

  lemma RelayFlushesGood(p: Pair, n: nat, core: World, f: V2Frame)
    requires Shape(p) && Flushing(p, n, core, f) && PairInv(p) && Alive(p)
    ensures Good(RelayMoved(p, core, [f]))
  {
    hide UpChain, UpEnd, DownChain, C.ReadyFits, IsSessionId, IsToken, R.TokenFits, R.WriteChain, Waiting, UpOk,
         UpStream;
    var c, r := p.core.client, p.core.relay;
    var down := p.links[p.bound].down;
    assert |f.payload| == n;
    if p.bound == |p.links| - 1 && c.open {
      if c.attached {
        DownChainData(down, c.serverOffset, c.clientAck, r.serverSent, r.clientAck, f.payload);
      } else {
        DownChainData(down[1..], c.serverOffset, HelloAck(down[0]), r.serverSent, r.clientAck, f.payload);
      }
    }
    assert DownMoves(p, core, [f]);
    hide Inv;
    RelayAdvances(p, core, [f]);
  }

  lemma WriteDoneGood(p: Pair, core: World)
    requires PairInv(p) && Alive(p) && p.core.relay.writes != []
    requires core.client == p.core.client && core.relay == R.OnWriteDone(p.core.relay).relay
    ensures var f := Ack(Client, core.relay.clientAck);
      R.OnWriteDone(p.core.relay).sends == R.ToAttached(p.core.relay, f) &&
      Good(RelayMoved(p, core, if p.core.relay.attached.Some? then [f] else []))
  {
    hide UpChain, UpEnd, DownChain, C.ReadyFits, IsSessionId, IsToken, R.TokenFits, Waiting, UpOk, UpStream, DownStream;
    var c, r := p.core.client, p.core.relay;
    R.WriteDoneKeepsWindows(r);
    hide R.WriteChain;
    var ack := core.relay.clientAck;
    var down := p.links[p.bound].down;
    assert down + [] == down;
    if p.bound == |p.links| - 1 && c.open {
      if c.attached {
        DownChainAck(down, c.serverOffset, c.clientAck, r.serverSent, r.clientAck, ack);
      } else {
        assert down[1..] + [] == down[1..];
        DownChainAck(down[1..], c.serverOffset, HelloAck(down[0]), r.serverSent, r.clientAck, ack);
      }
    }
    RelayAdvances(p, core, if r.attached.Some? then [Ack(Client, ack)] else []);
  }

  lemma LocalRelayKeeps(p: Pair, e: Event)
    requires PairInv(p) && Alive(p) && MayMove(p, Local(e)) && !IsClientEvent(e) && !e.RelayRevokes?
    ensures Good(After(p, Local(e))) && Alive(After(p, Local(e)))
  {
    hide R.WriteChain, Waiting, UpOk, DownOk, AttachedOk, Greeted, Ungreeted, R.OnWriteDone, R.SendData, R.OnTargetData;
    var core := RelayStep(p.core, e);
    var r := p.core.relay;
    match e
    case TargetProduces(bytes) => RelayQuiet(p, core);
    case TargetData(n) =>
      TargetDataFrame(r, p.core.T[r.serverOffset..r.serverOffset + n]);
      RelayQuiet(p, core);
    case RelayDetaches => RelayQuiet(p, core);
    case RelayFlushes(n) =>
      PushDownToAttached(p, R.SendData(r, n).1, core);
      RelayFlushesGood(p, n, core, R.SendData(r, n).1);
      SendDataLives(r, n);
    case WriteDone =>
      WriteDoneGood(p, core);
      WriteDoneLives(r);
      PushDownToAttached(p, Ack(Client, core.relay.clientAck), core);
  }

  lemma TargetDataFrame(r: R.Relay, chunk: seq<byte>)
    requires r.live && r.Valid()
    ensures var r' := R.OnTargetData(r, chunk).0;
      r' == r.(serverOffset := r'.serverOffset, retained := r'.retained)
  {
  }

  lemma SendDataLives(r: R.Relay, n: nat)
    requires r.live && r.Valid() && r.serverSent + n <= r.serverOffset
    ensures R.SendData(r, n).0.live
  {
  }

  lemma WriteDoneLives(r: R.Relay)
    requires r.live && r.Valid() && r.writes != []
    ensures R.OnWriteDone(r).relay.live
  {
  }

  // ---- The relay takes a frame ----

  /** The pair after the relay took the head of socket ws and answered on the bound socket. */
  function TookUp(p: Pair, ws: nat): Pair
    requires ws < |p.links| && p.links[ws].up != []
  {
    p.(links := p.links[ws := p.links[ws].(up := p.links[ws].up[1..])])
  }

  /** A frame on a socket that is not attached is dropped and nothing else changes. */
  lemma IgnoredKeeps(p: Pair, ws: nat)
    requires Good(p) && ws < |p.links| && p.links[ws].up != [] && !p.links[ws].up[0].Resume?
    requires p.core.relay.attached != Some(ws)
    ensures Good(TookUp(p, ws))
    ensures forall next: int :: ws == p.bound ==> Good(TookUp(p, ws).(upNext := next))
  {
    hide UpChain, UpEnd, DownChain, C.ReadyFits, IsSessionId, IsToken, R.TokenFits;
    assert ws <= p.bound;
  }

  /** An attached relay that takes the next frame of its up-chain. */
  lemma UpTaken(p: Pair, core: World, next: int, frames: seq<V2Frame>)
    requires Good(p) && p.core.relay.attached.Some? && p.links[p.bound].up != []
    requires core.client == p.core.client
    requires var r, r', up := p.core.relay, core.relay, p.links[p.bound].up;
      r'.id == r.id && r'.token == r.token && r'.previousToken == None && r'.clientAck == r.clientAck &&
      r'.serverSent == r.serverSent && (r'.attached == r.attached || r'.attached == None) &&
      r'.clientHistoryStart <= next <= r'.clientOffset &&
      UpChain(up[1..], next, r'.serverAck, p.core.client.serverAck) &&
      UpEnd(up[1..], next) == UpEnd(up, p.upNext)
    requires frames == [] || frames == [Ack(Client, p.core.relay.clientAck)] || frames == [Pong]
    ensures Good(RelayMoved(TookUp(p, p.bound), core, frames).(upNext := next))
  {
    hide UpChain, UpEnd, DownChain, C.ReadyFits, IsSessionId, IsToken;
    var c, r := p.core.client, p.core.relay;
    var down := p.links[p.bound].down;
    assert down + [] == down;
    if c.attached {
      DownChainAck(down, c.serverOffset, c.clientAck, r.serverSent, r.clientAck, r.clientAck);
      DownChainPong(down, c.serverOffset, c.clientAck, r.serverSent, r.clientAck);
    }
  }

  ghost predicate RelayMay(p: Pair) {
    PairInv(p) && Alive(p) && p.core.relay.attached.Some? && p.links[p.bound].up != [] &&
    p.links[p.bound].up[0] in p.core.up
  }

  /** The next data frame starts at upNext, and the rest of the queue continues behind it. */
  lemma NextDataContinues(p: Pair)
    requires RelayMay(p) && p.links[p.bound].up[0].Data?
    ensures var r, f, up := p.core.relay, p.links[p.bound].up[0], p.links[p.bound].up;
      var end := f.offset + |f.payload|;
      f.direction == Client && r.clientHistoryStart <= f.offset <= r.clientOffset &&
      UpChain(up[1..], end, r.serverAck, p.core.client.serverAck) && UpEnd(up[1..], end) == UpEnd(up, p.upNext)
  {
    hide DownChain, DownOk, Waiting, C.ReadyFits, IsSessionId, IsToken, R.TokenFits, Inv, WellFormed, Greeted;
  }

  /** It agrees with the history where they overlap: both are the same bytes of W. */
  lemma NextDataMatches(p: Pair)
    requires RelayMay(p) && p.links[p.bound].up[0].Data?
    ensures var r, f := p.core.relay, p.links[p.bound].up[0];
      R.ReplayMatches(r, f.offset, f.payload) && f.offset + |f.payload| <= p.core.client.clientOffset
  {
    hide Inv, Good, UpHonest, WellFormed, R.ReplayMatches;
    GoodIsShaped(p);
    NextDataContinues(p);
    HistoryIsW(p.core);
    SentIsHonest(p.core, p.links[p.bound].up[0]);
    var c, r, f := p.core.client, p.core.relay, p.links[p.bound].up[0];
    TrueClientData(f.offset, f.payload, p.core.W, c.clientAck, c.serverAck);
    SameBytesMatch(r, p.core.W, f.offset, f.payload);
  }

  lemma HistoryIsW(s: World)
    requires Inv(s)
    ensures var r := s.relay;
      r.Valid() && |s.W| == s.client.clientOffset && r.clientOffset <= |s.W| &&
      r.clientHistory == s.W[r.clientHistoryStart..r.clientOffset]
  {
    hide UpHonest, AllUpHonest, AllDownHonest, DownStream, R.WriteChain;
  }

  lemma SentIsHonest(s: World, f: V2Frame)
    requires Inv(s) && f in s.up
    ensures UpHonest(f, s.W, s.client.clientAck, s.client.serverAck)
  {
    hide UpHonest, AllDownHonest, UpStream, DownStream, Legal;
  }

  lemma SameBytesMatch(r: R.Relay, W: seq<byte>, offset: nat, payload: seq<byte>)
    requires r.ClientWindow() && r.clientHistoryStart <= offset <= r.clientOffset <= |W| && offset + |payload| <= |W|
    requires r.clientHistory == W[r.clientHistoryStart..r.clientOffset] && payload == W[offset..offset + |payload|]
    ensures R.ReplayMatches(r, offset, payload)
  {
    hide R.WriteChain;
    var overlap := R.Overlap(r, offset, payload);
    if overlap > 0 {
      SliceOfSlice(W, r.clientHistoryStart, r.clientOffset, offset, overlap);
      SliceOfSlice(W, offset, offset + |payload|, offset, overlap);
    }
  }

  /** So it is accepted, and it cannot overrun the window: the page keeps no more than that unacknowledged. */
  lemma NextDataAccepted(p: Pair, r: R.Relay)
    requires RelayMay(p) && p.links[p.bound].up[0].Data? && r == p.core.relay.(previousToken := None)
    ensures var f := p.links[p.bound].up[0];
      var end := f.offset + |f.payload|;
      var reply := R.OnClientData(r, p.bound, f.offset, f.payload);
      reply.outcome == Accepted &&
      (reply.sends == [] || reply.sends == [R.Sent(p.bound, Ack(Client, r.clientAck))]) &&
      (reply.relay == r || reply.relay == R.TakeClientBytes(r, reply.written)) &&
      reply.relay.clientHistoryStart <= end <= reply.relay.clientOffset
  {
    NextDataMatches(p);
    hide Good, UpHonest, AllUpHonest, DownStream, R.WriteChain, R.TakeClientBytes;
    var f := p.links[p.bound].up[0];
    assert R.ReplayMatches(r, f.offset, f.payload);
    TakenHistory(r, R.OnClientData(r, p.bound, f.offset, f.payload).written);
  }

  lemma TakenHistory(r: R.Relay, added: seq<byte>)
    requires r.Valid()
    ensures R.TakeClientBytes(r, added).clientOffset == r.clientOffset + |added|
    ensures R.TakeClientBytes(r, added).clientHistoryStart <= r.clientOffset + |added|
  {
    hide R.WriteChain;
  }

  lemma NextAckAccepted(p: Pair, r: R.Relay)
    requires RelayMay(p) && p.links[p.bound].up[0].Ack? && r == p.core.relay.(previousToken := None)
    ensures var f, up := p.links[p.bound].up[0], p.links[p.bound].up;
      f.direction == Server && r.serverAck <= f.offset <= r.serverSent &&
      UpChain(up[1..], p.upNext, f.offset, p.core.client.serverAck) && UpEnd(up[1..], p.upNext) == UpEnd(up, p.upNext)
  {
    hide DownChain, DownOk, Waiting, C.ReadyFits, IsSessionId, IsToken, R.TokenFits, R.WriteChain;
    var c, f := p.core.client, p.links[p.bound].up[0];
    assert UpHonest(f, p.core.W, c.clientAck, c.serverAck);
  }

  /** Which frames can be first on the bound socket's way up. */
  lemma HeadOfUp(p: Pair)
    requires RelayMay(p)
    ensures var f, up := p.links[p.bound].up[0], p.links[p.bound].up;
      f.Data? || f.Ack? || f.Detach? || f.Ping?
    ensures var up := p.links[p.bound].up;
      (up[0].Detach? || up[0].Ping? ==>
         UpChain(up[1..], p.upNext, p.core.relay.serverAck, p.core.client.serverAck) &&
         UpEnd(up[1..], p.upNext) == UpEnd(up, p.upNext))
  {
    hide DownChain, DownOk, Waiting, C.ReadyFits, IsSessionId, IsToken, R.TokenFits, Inv;
  }

  /** A relay event on the bound socket that sends nothing, or one frame there. */
  lemma PushDownBound(p: Pair, core: World, sends: seq<R.Sent>)
    requires p.bound < |p.links| && (sends == [] || (|sends| == 1 && sends[0].ws == p.bound))
    ensures p.(core := core, links := PushDown(p.links, sends)) == RelayMoved(p, core, Answered(sends))
  {
    assert p.links[p.bound].down + [] == p.links[p.bound].down;
    assert sends != [] ==> sends[1..] == [];
  }

  /** The frames of an answer on one socket. */
  function Answered(sends: seq<R.Sent>): seq<V2Frame> {
    if sends == [] then [] else [sends[0].frame]
  }

  /** Whatever is first on its way up the attached socket, the relay accepts it. */
  lemma RelayTakes(p: Pair, core: World, next: int)
    requires RelayMay(p)
    requires var f := p.links[p.bound].up[0];
      core.client == p.core.client && core.relay == R.OnMessage(p.core.relay, p.bound, Some(f)).relay &&
      next == (if f.Data? then f.offset + |f.payload| else p.upNext)
    ensures var f := p.links[p.bound].up[0];
      var reply := R.OnMessage(p.core.relay, p.bound, Some(f));
      !reply.outcome.Rejected? && reply.relay.live &&
      (reply.sends == [] || reply.sends == [R.Sent(p.bound, Ack(Client, p.core.relay.clientAck))] ||
       reply.sends == [R.Sent(p.bound, Pong)]) &&
      Good(RelayMoved(TookUp(p, p.bound), core, Answered(reply.sends)).(upNext := next))
  {
    HeadOfUp(p);
    var r, f := p.core.relay.(previousToken := None), p.links[p.bound].up[0];
    var reply := R.OnMessage(p.core.relay, p.bound, Some(f));
    if f.Data? {
      NextDataContinues(p);
      NextDataAccepted(p, r);
      hide R.OnClientData, R.WriteChain, UpChain, UpEnd, DownChain, Inv, Waiting, UpOk, DownOk, R.ReplayMatches,
         Greeted, R.TrimHistory;
      UpTaken(p, core, next, Answered(reply.sends));
    } else if f.Ack? {
      NextAckAccepted(p, r);
      hide R.WriteChain, UpChain, UpEnd, DownChain, Waiting, DownOk, Greeted, UpStream, AllUpHonest, AllDownHonest,
         IsSessionId, IsToken;
      UpTaken(p, core, next, []);
    } else {
      hide R.WriteChain, UpChain, UpEnd, DownChain, Waiting, DownOk, Greeted, UpStream, AllUpHonest, AllDownHonest,
         IsSessionId, IsToken;
      UpTaken(p, core, next, Answered(reply.sends));
    }
  }

  // ---- The relay serves a resume request ----

  /** A waiting resume request is admissible, whatever happened to earlier ones. */
  lemma ResumeAdmissible(p: Pair, ws: nat)
    requires PairInv(p) && Alive(p) && p.bound < ws < |p.links| && p.links[ws].up != []
    ensures var c, r := p.core.client, p.core.relay;
      p.links[ws] == Link([Resume(r.id, c.token, c.clientAck, c.serverAck)], []) &&
      R.TokenFits(r, c.token) && R.OffsetsFit(r, c.clientAck, c.serverAck) && c.serverOffset == c.serverAck
  {
    hide R.WriteChain, UpChain, UpEnd, DownChain, DownOk, UpOk, IsSessionId, IsToken;
  }

  ghost predicate SameBeyond(a: seq<Link>, b: seq<Link>, ws: nat) {
    ws < |a| == |b| && forall k :: ws < k < |a| ==> a[k] == b[k]
  }

  /** The pair after serving it: the old attachment is told, the new socket carries `resumed`. */
  lemma ResumeServed(p: Pair, ws: nat, newToken: string, core: World, links: seq<Link>)
    requires PairInv(p) && Alive(p) && p.bound < ws < |p.links| && p.links[ws].up != [] && IsToken(newToken)
    requires var c, r := p.core.client, p.core.relay;
      core.client == c &&
      core.relay == R.OnResume(r, ws, r.id, r.origin, c.token, c.clientAck, c.serverAck, newToken).relay
    requires ws < |links| &&
      links[ws] == Link([], [Resumed(p.core.relay.clientAck, p.core.client.serverAck, newToken)]) &&
      SameBeyond(links, p.links, ws)
    ensures Good(Pair(core, links, ws, p.core.relay.clientAck))
    ensures core.relay.live
  {
    ResumeAdmissible(p, ws);
    var c, r := p.core.client, p.core.relay;
    hide R.WriteChain, UpChain, UpEnd, DownChain, DownOk, UpOk, IsSessionId, IsToken, DownStream;
    var p' := Pair(core, links, ws, r.clientAck);
    assert Shape(p') && Greeted(p') && Waiting(p') && AttachedOk(p');
    ResumeServedChains(p');
  }

  lemma ResumeServedChains(p: Pair)
    requires Shape(p) && Legal(p.core) && p.core.client.received == [] && !p.core.client.attached && Greeted(p)
    requires var c, r := p.core.client, p.core.relay;
      |p.links| > 1 && p.upNext == r.clientAck && c.clientAck <= r.clientAck && r.serverAck <= c.serverAck &&
      r.serverSent == c.serverAck && p.bound > 0 &&
      p.links[p.bound] == Link([], [Resumed(r.clientAck, c.serverAck, r.token)])
    ensures UpOk(p) && DownOk(p)
  {
    assert p.links[p.bound].down[1..] == [];
    hide R.WriteChain;
  }

  lemma PushDownOne(links: seq<Link>, ws: nat, f: V2Frame)
    requires ws < |links|
    ensures PushDown(links, [R.Sent(ws, f)]) == links[ws := links[ws].(down := links[ws].down + [f])]
  {
    assert [R.Sent(ws, f)][1..] == [];
  }

  lemma PushDownTwo(links: seq<Link>, ws: nat, was: Option<nat>, superseded: V2Frame, resumed: V2Frame)
    requires ws < |links| && (was.Some? ==> was.value < ws)
    ensures var sends := (if was.Some? then [R.Sent(was.value, superseded)] else []) + [R.Sent(ws, resumed)];
      var links' := PushDown(links, sends);
      SameBeyond(links', links, ws) && links'[ws] == links[ws].(down := links[ws].down + [resumed])
  {
    var last := [R.Sent(ws, resumed)];
    if was.Some? {
      var sends := [R.Sent(was.value, superseded)] + last;
      assert sends[1..] == last;
      var first := links[was.value := links[was.value].(down := links[was.value].down + [superseded])];
      assert PushDown(links, sends) == PushDown(first, last);
      PushDownOne(first, ws, resumed);
    } else {
      assert [] + last == last;
      PushDownOne(links, ws, resumed);
    }
  }

  lemma ResumeSends(r: R.Relay, ws: nat, token: string, clientAck: nat, serverAck: nat, newToken: string)
    requires r.live && r.Valid() && R.TokenFits(r, token) && R.OffsetsFit(r, clientAck, serverAck)
    ensures var reply := R.OnResume(r, ws, r.id, r.origin, token, clientAck, serverAck, newToken);
      reply.outcome == Accepted &&
      reply.sends == (if r.attached.Some? then [R.Sent(r.attached.value, Error(Superseded))] else [])
                     + [R.Sent(ws, Resumed(r.clientAck, serverAck, newToken))]
  {
    hide R.WriteChain;
  }

  predicate HeadIsResume(p: Pair, ws: nat) {
    ws < |p.links| && p.links[ws].up != [] && p.links[ws].up[0].Resume?
  }

  lemma ResumeKeeps(p: Pair, ws: nat, newToken: string)
    requires MayMove(p, RelayGets(ws, newToken)) && HeadIsResume(p, ws) && PairInv(p) && Alive(p)
    ensures !Refuses(p, RelayGets(ws, newToken))
    ensures Good(After(p, RelayGets(ws, newToken))) && Alive(After(p, RelayGets(ws, newToken)))
  {
    ResumeAdmissible(p, ws);
    var c, r, m := p.core.client, p.core.relay, RelayGets(ws, newToken);
    ResumeSends(r, ws, c.token, c.clientAck, c.serverAck, newToken);
    hide R.WriteChain, Inv, IsToken, R.OnResume, Waiting, UpOk, DownOk, Greeted, Ungreeted;
    var took := TookUp(p, ws);
    var resumed := Resumed(r.clientAck, c.serverAck, newToken);
    assert took.links[ws] == Link([], []) && [] + [resumed] == [resumed];
    PushDownTwo(took.links, ws, r.attached, Error(Superseded), resumed);
    assert SameBeyond(took.links, p.links, ws);
    hide PushDown;
    var p' := After(p, m);
    ResumeServed(p, ws, newToken, p'.core, p'.links);
  }

  /** What a frame other than a resume does to the relay and to the queues. */
  lemma AfterFrame(p: Pair, ws: nat, newToken: string)
    requires MayMove(p, RelayGets(ws, newToken)) && !HeadIsResume(p, ws)
    ensures var f, p' := p.links[ws].up[0], After(p, RelayGets(ws, newToken));
      var reply := R.OnMessage(p.core.relay, ws, Some(f));
      p' == TookUp(p, ws).(core := p'.core, links := PushDown(TookUp(p, ws).links, reply.sends),
                           upNext := if f.Data? && ws == p.bound then f.offset + |f.payload| else p.upNext) &&
      p'.core.client == p.core.client && p'.core.relay == reply.relay &&
      (Refuses(p, RelayGets(ws, newToken)) <==> reply.outcome.Rejected?)
  {
    hide R.OnMessage, QueuesSent, PushDown;
  }

  lemma FrameKeeps(p: Pair, ws: nat, newToken: string)
    requires MayMove(p, RelayGets(ws, newToken)) && !HeadIsResume(p, ws) && PairInv(p) && Alive(p)
    ensures !Refuses(p, RelayGets(ws, newToken))
    ensures Good(After(p, RelayGets(ws, newToken))) && Alive(After(p, RelayGets(ws, newToken)))
  {
    AfterFrame(p, ws, newToken);
    GoodIsShaped(p);
    hide Good, Inv, Shape, After, Refuses, Legal, QueuesSent, PushDown, TookUp, R.OnMessage;
    if p.core.relay.attached == Some(ws) {
      AttachedFrameKeeps(p, ws, newToken);
    } else {
      IgnoredFrameKeeps(p, ws, newToken);
    }
  }

  lemma GoodIsShaped(p: Pair)
    requires PairInv(p) && Alive(p)
    ensures Good(p) && Shape(p)
  {
    hide Inv, WellFormed, Shape, Waiting, UpOk, DownOk, AttachedOk, Greeted, Ungreeted;
  }

  lemma AttachedFrameKeeps(p: Pair, ws: nat, newToken: string)
    requires MayMove(p, RelayGets(ws, newToken)) && !HeadIsResume(p, ws) && PairInv(p) && Alive(p)
    requires Shape(p) && p.core.relay.attached == Some(ws)
    ensures !Refuses(p, RelayGets(ws, newToken))
    ensures Good(After(p, RelayGets(ws, newToken))) && Alive(After(p, RelayGets(ws, newToken)))
  {
    AfterFrame(p, ws, newToken);
    AttachedIsBound(p);
    HeadWasSent(p, ws);
    var p', sends := After(p, RelayGets(ws, newToken)), R.OnMessage(p.core.relay, ws, Some(p.links[ws].up[0])).sends;
    hide Good, Inv, Shape, After, Refuses, WellFormed, PushDown, R.OnMessage;
    RelayTakes(p, p'.core, p'.upNext);
    PushDownBound(TookUp(p, ws), p'.core, sends);
  }

  lemma HeadWasSent(p: Pair, ws: nat)
    requires WellFormed(p) && ws < |p.links| && p.links[ws].up != []
    ensures p.links[ws].up[0] in p.core.up
  {
    hide Legal;
  }

  /** A relay whose session is not attached to this socket ignores the frame. */
  lemma IgnoredFrameKeeps(p: Pair, ws: nat, newToken: string)
    requires MayMove(p, RelayGets(ws, newToken)) && !HeadIsResume(p, ws) && Alive(p)
    requires Good(p) && p.core.relay.attached != Some(ws)
    ensures !Refuses(p, RelayGets(ws, newToken))
    ensures Good(After(p, RelayGets(ws, newToken))) && Alive(After(p, RelayGets(ws, newToken)))
  {
    AfterFrame(p, ws, newToken);
    IgnoredKeeps(p, ws);
    var p' := After(p, RelayGets(ws, newToken));
    IgnoredReply(p.core.relay, ws, p.links[ws].up[0]);
    hide Good, After, Refuses, WellFormed, R.OnMessage;
    GoodReadsEnds(TookUp(p, ws).(upNext := p'.upNext), p'.core);
  }

  lemma IgnoredReply(r: R.Relay, ws: nat, f: V2Frame)
    requires r.Valid() && r.attached != Some(ws)
    ensures R.OnMessage(r, ws, Some(f)) == R.Reply(r, Ignored, [], [])
  {
    hide R.WriteChain;
  }

  lemma AttachedIsBound(p: Pair)
    requires Shape(p) && p.core.relay.attached.Some?
    ensures p.core.relay.attached.value == p.bound
  {
  }

  /** Good speaks only of the two ends and the queues. */
  lemma GoodReadsEnds(p: Pair, core: World)
    requires Good(p) && core.client == p.core.client && core.relay == p.core.relay
    ensures Good(p.(core := core))
  {
    hide UpChain, UpEnd, DownChain, C.ReadyFits, IsSessionId, IsToken, R.TokenFits;
  }

  // ---- Every run ----

  /** The streams, the queues and, while alive, Good: kept by every move that resumes only when drained. */
  lemma MoveKeeps(p: Pair, m: Move)
    requires PairInv(p) && MayMove(p, m) && Drained(p, m)
    ensures PairInv(After(p, m))
    ensures Alive(p) ==> !Refuses(p, m) && (!EndsSession(m) ==> Alive(After(p, m)))
  {
    var e := EventOf(p, m);
    StepKeepsStreams(p.core, e);
    assert Legal(Next(p.core, e));
    QueuesStaySent(p, m);
    AfterCore(p, m);
    hide Good, Inv, After, Next, WellFormed, MayMove;
    if Alive(p) && !EndsSession(m) {
      AliveMoveKeeps(p, m);
    } else {
      DeadStaysDead(p, m);
    }
  }

  lemma AfterCore(p: Pair, m: Move)
    requires MayMove(p, m)
    ensures After(p, m).core == Next(p.core, EventOf(p, m)) && After(p, m).links == NextLinks(p, m)
  {
    hide Next, Legal, NextLinks;
  }

  /** The page closes its transport, or the relay ends the session: expiry, eviction, a failed target. */
  predicate EndsSession(m: Move) {
    m.Local? && (m.e.ClientCloses? || m.e.RelayRevokes?)
  }

  lemma AliveMoveKeeps(p: Pair, m: Move)
    requires MayMove(p, m) && Drained(p, m) && PairInv(p) && Alive(p) && !EndsSession(m)
    ensures !Refuses(p, m) && Good(After(p, m)) && Alive(After(p, m))
  {
    hide Good, Inv, After;
    match m
    case Reopens => ReopensKeeps(p);
    case PageGets => PageGetsKeeps(p);
    case RelayGets(ws, newToken) =>
      if HeadIsResume(p, ws) {
        ResumeKeeps(p, ws, newToken);
      } else {
        FrameKeeps(p, ws, newToken);
      }
    case Local(e) =>
      if IsClientEvent(e) {
        LocalClientKeeps(p, e);
      } else {
        LocalRelayKeeps(p, e);
      }
  }

  lemma SetOfAppend(a: seq<V2Frame>, b: seq<V2Frame>)
    ensures SetOf(a + b) == SetOf(a) + SetOf(b)
  {
  }

  lemma SetOfTail(a: seq<V2Frame>)
    requires a != []
    ensures SetOf(a[1..]) <= SetOf(a)
  {
  }

  ghost predicate LinksSent(links: seq<Link>, up: set<V2Frame>, down: set<V2Frame>) {
    forall k :: 0 <= k < |links| ==> SetOf(links[k].up) <= up && SetOf(links[k].down) <= down
  }

  lemma PushUpSent(links: seq<Link>, ws: nat, frames: seq<V2Frame>, up: set<V2Frame>, down: set<V2Frame>)
    requires LinksSent(links, up, down) && SetOf(frames) <= up
    ensures LinksSent(PushUp(links, ws, frames), up, down) && |PushUp(links, ws, frames)| == |links|
  {
    if ws < |links| {
      SetOfAppend(links[ws].up, frames);
    }
  }

  lemma {:induction false} PushDownSent(links: seq<Link>, sends: seq<R.Sent>, up: set<V2Frame>, down: set<V2Frame>)
    requires LinksSent(links, up, down) && FramesOf(sends) <= down
    ensures LinksSent(PushDown(links, sends), up, down) && |PushDown(links, sends)| == |links|
    decreases |sends|
  {
    if sends != [] {
      var s := sends[0];
      assert s.frame in FramesOf(sends);
      assert FramesOf(sends[1..]) <= FramesOf(sends);
      if s.ws < |links| {
        SetOfAppend(links[s.ws].down, [s.frame]);
        PushDownSent(links[s.ws := links[s.ws].(down := links[s.ws].down + [s.frame])], sends[1..], up, down);
      } else {
        PushDownSent(links, sends[1..], up, down);
      }
    }
  }

  /** The queues of the next state hold only frames that were sent. */
  lemma NextLinksSent(p: Pair, m: Move, up: set<V2Frame>, down: set<V2Frame>)
    requires MayMove(p, m) && LinksSent(p.links, up, down)
    requires SetOf(ClientSends(p.core, EventOf(p, m))) <= up && FramesOf(RelaySends(p.core, EventOf(p, m))) <= down
    ensures LinksSent(NextLinks(p, m), up, down)
    ensures |NextLinks(p, m)| == |p.links| + if m.Reopens? then 1 else 0
  {
    hide ClientSends, RelaySends, Legal, Enabled, FramesOf, LinksSent, PushUp, PushDown;
    var e, cur := EventOf(p, m), |p.links| - 1;
    match m
    case Reopens => AddedLinkSent(p.links, ClientSends(p.core, e), up, down);
    case PageGets =>
      TookDownSent(p.links, cur, up, down);
      PushUpSent(p.links[cur := p.links[cur].(down := p.links[cur].down[1..])], cur, ClientSends(p.core, e), up, down);
    case RelayGets(ws, _) =>
      TookUpSent(p.links, ws, up, down);
      PushDownSent(p.links[ws := p.links[ws].(up := p.links[ws].up[1..])], RelaySends(p.core, e), up, down);
    case Local(_) =>
      PushUpSent(p.links, cur, ClientSends(p.core, e), up, down);
      PushDownSent(p.links, RelaySends(p.core, e), up, down);
  }

  lemma AddedLinkSent(links: seq<Link>, frames: seq<V2Frame>, up: set<V2Frame>, down: set<V2Frame>)
    requires LinksSent(links, up, down) && SetOf(frames) <= up
    ensures LinksSent(links + [Link(frames, [])], up, down)
  {
  }

  lemma TookDownSent(links: seq<Link>, k: nat, up: set<V2Frame>, down: set<V2Frame>)
    requires LinksSent(links, up, down) && k < |links| && links[k].down != []
    ensures LinksSent(links[k := links[k].(down := links[k].down[1..])], up, down)
  {
    SetOfTail(links[k].down);
  }

  lemma TookUpSent(links: seq<Link>, k: nat, up: set<V2Frame>, down: set<V2Frame>)
    requires LinksSent(links, up, down) && k < |links| && links[k].up != []
    ensures LinksSent(links[k := links[k].(up := links[k].up[1..])], up, down)
  {
    SetOfTail(links[k].up);
  }

  /** After any move the queues still hold only frames that were sent, and the page's socket is still the last. */
  lemma QueuesStaySent(p: Pair, m: Move)
    requires MayMove(p, m) && Inv(p.core) && Legal(Next(p.core, EventOf(p, m)))
    ensures WellFormed(After(p, m))
  {
    var e := EventOf(p, m);
    StepSends(p.core, e);
    SocketOnlyChangesOnReopen(p.core, e);
    var up, down := Next(p.core, e).up, Next(p.core, e).down;
    assert LinksSent(p.links, up, down);
    hide Next, ClientSends, RelaySends, Inv, Legal, After, NextLinks, LinksSent;
    NextLinksSent(p, m, up, down);
    AfterCore(p, m);
    assert QueuesSent(After(p, m)) by { SentMeans(After(p, m)); }
  }

  lemma SentMeans(p: Pair)
    requires LinksSent(p.links, p.core.up, p.core.down)
    ensures QueuesSent(p)
  {
  }

  lemma SocketOnlyChangesOnReopen(s: World, e: Event)
    requires Legal(s) && Enabled(s, e)
    ensures Next(s, e).client.ws == (if e.ClientReopens? then e.ws else s.client.ws)
    ensures s.client.closed ==> Next(s, e).client.closed
    ensures e.ClientCloses? ==> Next(s, e).client.closed
  {
    hide C.Write, C.Read, C.SendAck, C.Receive, R.OnMessage, R.OnResume, R.OnTargetData, R.OnWriteDone, R.SendData,
         R.Revoke, Legal;
    LegalClient(s);
    match e
    case ClientReceives(ws, reconnect, f) => FrameKeepsSocket(s.client, ws, reconnect, f);
    case ClientWrites(p) => CallsKeepSocket(s.client, p, 0);
    case ClientReads(n) => CallsKeepSocket(s.client, [], n);
    case AckTimer => CallsKeepSocket(s.client, [], 0);
    case _ =>
  }

  lemma LegalClient(s: World)
    requires Legal(s)
    ensures s.client.Valid()
  {
  }

  lemma CallsKeepSocket(c: C.Transport, p: seq<byte>, n: nat)
    requires c.Valid()
    ensures C.Write(c, p).0.ws == c.ws && C.Write(c, p).0.closed == c.closed
    ensures C.Read(c, n).0.ws == c.ws && C.Read(c, n).0.closed == c.closed
    ensures C.SendAck(c).0.ws == c.ws && C.SendAck(c).0.closed == c.closed
  {
    hide C.ChunkFrames;
  }

  lemma FrameKeepsSocket(c: C.Transport, ws: nat, reconnect: bool, f: V2Frame)
    requires c.Valid()
    ensures var after := C.Receive(c, ws, reconnect, f).client;
      after.ws == c.ws && (c.closed ==> after.closed)
  {
    hide C.ChunkFrames, C.ReadyFits, IsHexOfLength, C.DataFits;
  }

  lemma RelayStaysRevoked(s: World, e: Event)
    requires Legal(s) && Enabled(s, e)
    ensures !s.relay.live ==> !Next(s, e).relay.live
    ensures e.RelayRevokes? ==> !Next(s, e).relay.live
  {
    hide C.ChunkFrames, R.WriteChain, C.ReadyFits, IsHexOfLength, C.DataFits, R.OnClientData, R.OnServerAck,
         C.Write, C.Read, C.SendAck, C.Receive, C.Reopen, C.Dropped;
  }

  lemma DeadStaysDead(p: Pair, m: Move)
    requires MayMove(p, m) && (!Alive(p) || EndsSession(m))
    ensures !Alive(After(p, m))
    ensures EndsSession(m) ==> !Refuses(p, m)
  {
    SocketOnlyChangesOnReopen(p.core, EventOf(p, m));
    RelayStaysRevoked(p.core, EventOf(p, m));
    hide Next, Legal;
  }
}
