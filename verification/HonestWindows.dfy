/**
 * A second invariant of the honest pair, on top of the first: what each end has
 * last been told, or will be told by the frames in flight, is where the other
 * end stands.
 *
 * The page hears of every byte the target confirmed, because each confirmation
 * is queued behind the ones before it; the relay hears of every acknowledgement
 * the page counts as sent. A page that waits for the answer to its resume starts
 * from what that answer carries. HonestRuns concludes that flow control never
 * leaks.
 */
module HonestWindows {
  import opened Frames
  import C = ClientNode
  import R = RelayNode
  import opened World
  import opened Wire
  import opened HonestPair

  /** The last offset acknowledged in these frames, or the one known before them. */
  function LastAck(frames: seq<V2Frame>, known: int): int
    decreases |frames|
  {
    if frames == [] then known
    else LastAck(frames[1..], if frames[0].Ack? then frames[0].offset else known)
  }

  lemma {:induction false} LastAckAppends(a: seq<V2Frame>, b: seq<V2Frame>, known: int)
    ensures LastAck(a + b, known) == LastAck(b, LastAck(a, known))
    decreases |a|
  {
    if a == [] {
      assert a + b == b;
    } else {
      assert (a + b)[1..] == a[1..] + b;
      LastAckAppends(a[1..], b, if a[0].Ack? then a[0].offset else known);
    }
  }

  lemma LastAckOfOne(f: V2Frame, known: int)
    ensures LastAck([f], known) == if f.Ack? then f.offset else known
    ensures LastAck([], known) == known
  {
    assert [f][1..] == [];
  }

  lemma {:induction false} DataRunHasNoAck(frames: seq<V2Frame>, d: Direction, from: int, to: int, bytes: seq<byte>,
                                           known: int)
    requires DataRun(frames, d, from, to, bytes)
    ensures LastAck(frames, known) == known
    decreases |frames|
  {
    if frames != [] {
      var n := |frames[0].payload|;
      DataRunHasNoAck(frames[1..], d, from + n, to, bytes[n..], known);
    }
  }

  /**
   * While the page's open socket is the attached one: an attached page will have
   * heard of every byte the target confirmed, the relay of every acknowledgement
   * the page sent; a page still waiting for its answer will start from both.
   */
  ghost predicate Told(p: Pair) {
    var c, r := p.core.client, p.core.relay;
    p.links != [] && p.bound == |p.links| - 1 && c.open && r.attached.Some? ==>
      var link := p.links[|p.links| - 1];
      if c.attached then LastAck(link.down, c.clientAck) == r.clientAck && LastAck(link.up, r.serverAck) == c.ackSent
      else
        link.down != [] && LastAck(link.down[1..], HelloAck(link.down[0])) == r.clientAck && r.serverAck == c.serverAck
  }

  // ---- The page's own moves ----

  /** The page sends frames that carry its acknowledgement to where ackSent now is, and hears nothing new. */
  lemma ToldUp(p: Pair, core: World, frames: seq<V2Frame>)
    requires |p.links| > 0 && Told(p) && core.relay == p.core.relay
    requires core.client.clientAck == p.core.client.clientAck
    requires core.client.open ==> p.core.client.open
    requires core.client.attached == p.core.client.attached
    requires core.client.attached ==> LastAck(frames, p.core.client.ackSent) == core.client.ackSent
    requires !core.client.attached ==> core.client.serverAck == p.core.client.serverAck
    ensures Told(ClientMoved(p, core, frames))
  {
    hide LastAck, HelloAck;
    LastAckAppends(p.links[|p.links| - 1].up, frames, p.core.relay.serverAck);
  }

  lemma WriteTells(c: C.Transport, bytes: seq<byte>, known: int)
    requires c.Valid()
    ensures var (after, n, frames) := C.Write(c, bytes);
      LastAck(frames, known) == known && after.ackSent == c.ackSent && after.clientAck == c.clientAck &&
      after.open == c.open && after.attached == c.attached && after.serverAck == c.serverAck
  {
    hide C.ChunkFrames, DataRun;
    var (after, n, frames) := C.Write(c, bytes);
    LastAckOfOne(Detach, known);
    C.WriteSendsUnsent(c, bytes);
    if frames != [] {
      DataRunHasNoAck(frames, Client, c.clientSent, after.clientOffset,
                      after.pending[c.clientSent - c.clientAck..], known);
    }
  }

  lemma AckTells(c: C.Transport)
    requires c.Valid()
    ensures var (after, frames) := C.SendAck(c);
      LastAck(frames, c.ackSent) == after.ackSent && after == c.(ackSent := after.ackSent)
  {
    LastAckOfOne(Ack(Server, c.serverAck), c.ackSent);
  }

  lemma ReadTells(c: C.Transport, n: nat)
    requires c.Valid()
    ensures var (after, bytes, frames) := C.Read(c, n);
      LastAck(frames, c.ackSent) == after.ackSent && after.clientAck == c.clientAck &&
      after.open == c.open && after.attached == c.attached &&
      (c.received == [] ==> after.serverAck == c.serverAck)
  {
    hide C.SendAck;
    var k := Min(n, |c.received|);
    var read := c.(received := c.received[k..], serverAck := c.serverAck + k);
    LastAckOfOne(Detach, c.ackSent);
    AckTells(read);
  }

  lemma LocalClientTells(p: Pair, e: Event)
    requires PairInv(p) && Alive(p) && Told(p) && MayMove(p, Local(e)) && IsClientEvent(e) && !e.ClientCloses?
    ensures Told(After(p, Local(e)))
  {
    WaitingIsDrained(p);
    hide Inv, Good, Told, LastAck, C.Write, C.Read, C.SendAck, R.WriteChain;
    var c := p.core.client;
    var core := ClientStep(p.core, e);
    assert After(p, Local(e)) == ClientMoved(p, core, ClientSends(p.core, e));
    LastAckOfOne(Detach, c.ackSent);
    match e
    case ClientWrites(bytes) =>
      WriteTells(c, bytes, c.ackSent);
      ToldUp(p, core, C.Write(c, bytes).2);
    case ClientReads(n) =>
      ReadTells(c, n);
      if c.attached || c.received == [] {
        ToldUp(p, core, C.Read(c, n).2);
      } else {
        NotOpenIsTold(p, core, C.Read(c, n).2);
      }
    case AckTimer =>
      AckTells(c);
      ToldUp(p, core, C.SendAck(c).1);
    case ClientPings =>
      LastAckOfOne(Ping, c.ackSent);
      ToldUp(p, core, C.Heartbeat(c));
    case ClientDrops => NotOpenIsTold(p, core, []);
    case ClientDetaches => ToldUp(p, core, ClientSends(p.core, e));
    case ClientResumes => ToldUp(p, core, []);
  }

  /** An unattached page whose socket is bound and open has an empty receive buffer. */
  lemma WaitingIsDrained(p: Pair)
    requires PairInv(p) && Alive(p)
    ensures var c := p.core.client;
      p.bound == |p.links| - 1 && c.open && !c.attached ==> c.received == []
  {
    hide Inv, UpOk, AttachedOk, Waiting, UpChain, DownChain, HelloOk, Greeted, Ungreeted, R.WriteChain;
  }

  lemma NotOpenIsTold(p: Pair, core: World, frames: seq<V2Frame>)
    requires |p.links| > 0 && (!core.client.open || p.bound != |p.links| - 1)
    ensures Told(ClientMoved(p, core, frames))
  {
  }

  // ---- The page takes a frame ----

  lemma PageGetsTells(p: Pair)
    requires PairInv(p) && Alive(p) && Told(p) && MayMove(p, PageGets)
    ensures Told(After(p, PageGets))
  {
    HeadOfDown(p);
    PageIsBound(p);
    hide Good, Inv, C.Message, R.WriteChain, Told, MayMove, PageMoved, After;
    PageGetsIs(p);
    TakenNow(p);
    var core := After(p, PageGets).core;
    if !p.core.client.attached {
      HelloTells(p, core);
    } else {
      NewsTells(p, core);
    }
  }

  lemma HelloTells(p: Pair, core: World)
    requires PageMay(p) && Told(p) && !p.core.client.attached
    requires var f := p.links[|p.links| - 1].down[0];
      (if |p.links| == 1 then f.Ready? else f.Resumed?) && core.relay == p.core.relay &&
      core.client == C.Message(p.core.client, |p.links| > 1, f).client
    ensures Told(PageMoved(p, core, C.Message(p.core.client, |p.links| > 1, p.links[|p.links| - 1].down[0]).sends))
  {
    PageIsBound(p);
    HelloStarts(p);
    hide Inv, Good, DownChain, R.WriteChain, C.Message, LastAck, PageMoved;
    var f := p.links[|p.links| - 1].down[0];
    var sends := C.Message(p.core.client, |p.links| > 1, f).sends;
    PageMovedLink(p, core, sends);
    assert [] + sends == sends;
  }

  /** The answer sets clientAck and ackSent to what the relay knows; what is sent at once carries no acknowledgement. */
  lemma HelloStarts(p: Pair)
    requires PageMay(p) && !p.core.client.attached
    requires var f := p.links[|p.links| - 1].down[0];
      if |p.links| == 1 then f.Ready? else f.Resumed?
    ensures var c, f := p.core.client, p.links[|p.links| - 1].down[0];
      var reply := C.Message(c, |p.links| > 1, f);
      p.links[|p.links| - 1].up == [] && reply.client.attached && reply.client.open == c.open &&
      reply.client.clientAck == HelloAck(f) && reply.client.ackSent == c.serverAck &&
      forall known :: LastAck(reply.sends, known) == known
  {
    hide Inv, DownChain, R.WriteChain, C.ReadyFits, C.OnReady, C.OnResumed, UpChain, UpEnd, DataRun, LastAck;
    PageIsBound(p);
    var c, f := p.core.client, p.links[|p.links| - 1].down[0];
    var reply := C.Message(c, |p.links| > 1, f);
    if |p.links| == 1 {
      ReadyAccepted(p);
      LastAckOfNothing();
    } else {
      var next, r := c.serverOffset, p.core.relay;
      DownChainBounds(p.links[|p.links| - 1].down[1..], next, f.clientAck, r.serverSent, r.clientAck);
      LegalNow(p);
      C.ResumedReplays(c, f.clientAck, f.newToken);
      forall known ensures LastAck(reply.sends, known) == known {
        DataRunHasNoAck(reply.sends, Client, f.clientAck, c.clientOffset, reply.client.pending, known);
      }
    }
  }

  lemma LegalNow(p: Pair)
    requires PairInv(p)
    ensures Legal(p.core) && p.core.relay.clientAck <= p.core.client.clientOffset
  {
    hide Good, AllUpHonest, AllDownHonest, DownStream, R.WriteChain;
  }

  lemma LastAckOfNothing()
    ensures forall known :: LastAck([], known) == known
  {
  }

  lemma NewsTells(p: Pair, core: World)
    requires PageMay(p) && Told(p) && p.core.client.attached
    requires var f := p.links[|p.links| - 1].down[0];
      (f.Data? || f.Ack? || f.Pong?) && core.relay == p.core.relay &&
      core.client == C.Message(p.core.client, |p.links| > 1, f).client &&
      C.Message(p.core.client, |p.links| > 1, f).verdict == C.Taken
    ensures Told(PageMoved(p, core, C.Message(p.core.client, |p.links| > 1, p.links[|p.links| - 1].down[0]).sends))
  {
    var f := p.links[|p.links| - 1].down[0];
    LegalNow(p);
    NewsEffect(p.core.client, |p.links| > 1, f);
    PageIsBound(p);
    hide Inv, Good, R.WriteChain, C.Message, PageMoved, HelloAck;
    PageMovedLink(p, core, []);
    assert p.links[|p.links| - 1].up + [] == p.links[|p.links| - 1].up;
  }

  lemma NewsEffect(c: C.Transport, reconnect: bool, f: V2Frame)
    requires c.Valid() && (f.Data? || f.Ack? || f.Pong?) && C.Message(c, reconnect, f).verdict == C.Taken
    ensures var reply := C.Message(c, reconnect, f);
      reply.sends == [] && reply.client.clientAck == (if f.Ack? then f.offset else c.clientAck) &&
      reply.client.ackSent == c.ackSent && reply.client.attached == c.attached && reply.client.open == c.open
  {
  }

  // ---- The relay's own moves ----

  /** The relay sends frames on the bound socket that carry its acknowledgement to where clientAck now is. */
  lemma ToldDown(p: Pair, core: World, frames: seq<V2Frame>)
    requires p.bound < |p.links| && Told(p) && core.client == p.core.client
    requires core.relay.attached.Some? ==> p.core.relay.attached.Some?
    requires core.relay.serverAck == p.core.relay.serverAck
    requires core.relay.attached.Some? ==> LastAck(frames, p.core.relay.clientAck) == core.relay.clientAck
    ensures Told(RelayMoved(p, core, frames))
  {
    hide LastAck, HelloAck;
    var c, down := p.core.client, p.links[p.bound].down;
    LastAckAppends(down, frames, c.clientAck);
    if down != [] {
      assert (down + frames)[1..] == down[1..] + frames && (down + frames)[0] == down[0];
      LastAckAppends(down[1..], frames, HelloAck(down[0]));
    }
  }

  lemma LocalRelayTells(p: Pair, e: Event)
    requires PairInv(p) && Alive(p) && Told(p) && MayMove(p, Local(e)) && !IsClientEvent(e) && !e.RelayRevokes?
    ensures Told(After(p, Local(e)))
  {
    BoundIsALink(p);
    LegalNow(p);
    hide R.WriteChain, Inv, Good, R.OnWriteDone, R.SendData, R.OnTargetData, Told, LastAck;
    var core := RelayStep(p.core, e);
    var r := p.core.relay;
    assert p.links[p.bound].down + [] == p.links[p.bound].down;
    LastAckOfOne(Detach, r.clientAck);
    match e
    case TargetProduces(bytes) => ToldDown(p, core, []);
    case TargetData(n) =>
      TargetDataFrame(r, p.core.T[r.serverOffset..r.serverOffset + n]);
      ToldDown(p, core, []);
    case RelayDetaches => ToldDown(p, core, []);
    case RelayFlushes(n) =>
      PushDownToAttached(p, R.SendData(r, n).1, core);
      SendTells(r, n);
      ToldDown(p, core, [R.SendData(r, n).1]);
    case WriteDone =>
      DoneTells(r);
      PushDownToAttached(p, Ack(Client, core.relay.clientAck), core);
      ToldDown(p, core, if r.attached.Some? then [Ack(Client, core.relay.clientAck)] else []);
  }

  lemma BoundIsALink(p: Pair)
    requires PairInv(p) && Alive(p)
    ensures Shape(p) && p.bound < |p.links|
  {
    hide Inv, Waiting, UpOk, DownOk, AttachedOk, Greeted, Ungreeted;
  }

  lemma SendTells(r: R.Relay, n: nat)
    requires r.live && r.Valid() && r.serverSent + n <= r.serverOffset
    ensures var (after, f) := R.SendData(r, n);
      LastAck([f], r.clientAck) == after.clientAck && after.serverAck == r.serverAck && after.attached == r.attached
  {
    LastAckOfOne(R.SendData(r, n).1, r.clientAck);
  }

  lemma DoneTells(r: R.Relay)
    requires r.live && r.Valid() && r.writes != []
    ensures var reply := R.OnWriteDone(r);
      reply.sends == R.ToAttached(r, Ack(Client, reply.relay.clientAck)) &&
      LastAck([Ack(Client, reply.relay.clientAck)], r.clientAck) == reply.relay.clientAck &&
      reply.relay.serverAck == r.serverAck && reply.relay.attached == r.attached
  {
    LastAckOfOne(Ack(Client, R.OnWriteDone(r).relay.clientAck), r.clientAck);
  }

  // ---- The relay takes a frame ----

  /** The relay takes a frame: serverAck follows the queue, and an acknowledgement in answer repeats clientAck. */
  lemma FrameTells(p: Pair)
    requires RelayMay(p)
    ensures var r, up := p.core.relay, p.links[p.bound].up;
      var reply := R.OnMessage(r, p.bound, Some(up[0]));
      LastAck(up, r.serverAck) == LastAck(up[1..], reply.relay.serverAck) && reply.relay.clientAck == r.clientAck
  {
    HeadOfUp(p);
    hide Good, Inv, R.WriteChain, R.OnClientData;
    LegalNow(p);
    var r, f := p.core.relay.(previousToken := None), p.links[p.bound].up[0];
    if f.Data? {
      DataKeepsAcks(r, p.bound, f.offset, f.payload);
    }
  }

  lemma DataKeepsAcks(r: R.Relay, ws: nat, offset: int, payload: seq<byte>)
    requires r.live && r.Valid() && r.attached == Some(ws)
    ensures var reply := R.OnClientData(r, ws, offset, payload);
      reply.relay.serverAck == r.serverAck && reply.relay.clientAck == r.clientAck
  {
    hide R.WriteChain, R.ReplayMatches, R.TrimHistory;
  }

  lemma FrameMoveTells(p: Pair, ws: nat, newToken: string)
    requires MayMove(p, RelayGets(ws, newToken)) && !HeadIsResume(p, ws) && PairInv(p) && Alive(p) && Told(p)
    ensures Told(After(p, RelayGets(ws, newToken)))
  {
    BoundIsALink(p);
    hide R.WriteChain, Good, Inv, Told, R.OnMessage;
    var p' := After(p, RelayGets(ws, newToken));
    if p.core.relay.attached == Some(ws) {
      AttachedIsBound(p);
      AttachedFrameTells(p, newToken);
    } else {
      IgnoredTells(p, ws, newToken);
    }
  }

  lemma AttachedFrameTells(p: Pair, newToken: string)
    requires Shape(p) && PairInv(p) && Alive(p) && Told(p) && p.core.relay.attached == Some(p.bound)
    requires MayMove(p, RelayGets(p.bound, newToken)) && !HeadIsResume(p, p.bound)
    ensures Told(After(p, RelayGets(p.bound, newToken)))
  {
    var r, f := p.core.relay, p.links[p.bound].up[0];
    var p' := After(p, RelayGets(p.bound, newToken));
    var took := TookUp(p, p.bound);
    FrameTells(p);
    RelayTakes(p, p'.core, p'.upNext);
    OpenUnattachedSentNothing(p);
    var sends := R.OnMessage(r, p.bound, Some(f)).sends;
    var frames := Answered(sends);
    PushDownBound(took, p'.core, sends);
    hide Good, Inv, R.WriteChain, R.OnMessage, PushDown;
    assert p' == RelayMoved(took, p'.core, frames).(upNext := p'.upNext);
    LastAckOfOne(Ack(Client, r.clientAck), r.clientAck);
    LastAckOfOne(Pong, r.clientAck);
    RelayTookTells(p, p'.core, frames, p'.upNext);
  }

  /** The relay took the head of the bound socket's queue; its serverAck is where the rest of the queue continues. */
  lemma RelayTookTells(p: Pair, core: World, frames: seq<V2Frame>, next: int)
    requires p.bound < |p.links| && p.links[p.bound].up != [] && Told(p) && core.client == p.core.client
    requires p.core.relay.attached.Some?
    requires LastAck(p.links[p.bound].up, p.core.relay.serverAck) ==
      LastAck(p.links[p.bound].up[1..], core.relay.serverAck)
    requires core.relay.clientAck == p.core.relay.clientAck
    requires LastAck(frames, p.core.relay.clientAck) == p.core.relay.clientAck
    requires p.core.client.open && !p.core.client.attached ==> p.bound != |p.links| - 1
    ensures Told(RelayMoved(TookUp(p, p.bound), core, frames).(upNext := next))
  {
    hide LastAck, HelloAck;
    LastAckAppends(p.links[p.bound].down, frames, p.core.client.clientAck);
  }

  /** A page that waits on its bound socket has sent nothing there. */
  lemma OpenUnattachedSentNothing(p: Pair)
    requires PairInv(p) && Alive(p)
    ensures var c := p.core.client;
      c.open && !c.attached && p.bound == |p.links| - 1 ==> p.links[p.bound].up == []
  {
    hide Inv, UpOk, AttachedOk, Waiting, UpChain, DownChain, HelloOk, Greeted, Ungreeted, R.WriteChain;
  }

  lemma IgnoredTells(p: Pair, ws: nat, newToken: string)
    requires Shape(p) && Told(p) && Alive(p) && p.core.relay.attached != Some(ws)
    requires MayMove(p, RelayGets(ws, newToken)) && !HeadIsResume(p, ws)
    ensures Told(After(p, RelayGets(ws, newToken)))
  {
    hide R.WriteChain, LastAck, HelloAck, Legal, QueuesSent;
    var p' := After(p, RelayGets(ws, newToken));
    assert p'.core.client == p.core.client && p'.core.relay == p.core.relay;
    assert ws != |p.links| - 1 ==> p'.links[|p.links| - 1] == p.links[|p.links| - 1];
  }

  /** Serving a resume: the answer carries the relay's clientAck, and the relay adopts the page's serverAck. */
  lemma ResumeTells(p: Pair, ws: nat, newToken: string)
    requires MayMove(p, RelayGets(ws, newToken)) && HeadIsResume(p, ws) && PairInv(p) && Alive(p)
    ensures Told(After(p, RelayGets(ws, newToken)))
  {
    ResumeAdmissible(p, ws);
    ResumeWaits(p, ws);
    var c, r, m := p.core.client, p.core.relay, RelayGets(ws, newToken);
    ResumeSends(r, ws, c.token, c.clientAck, c.serverAck, newToken);
    ResumeAdopts(r, ws, c.token, c.clientAck, c.serverAck, newToken);
    hide R.WriteChain, Inv, Good, IsToken, R.OnResume, R.OffsetsFit, R.TokenFits;
    var took := TookUp(p, ws);
    var resumed := Resumed(r.clientAck, c.serverAck, newToken);
    assert took.links[ws] == Link([], []) && [] + [resumed] == [resumed];
    PushDownTwo(took.links, ws, r.attached, Error(Superseded), resumed);
    hide PushDown;
    var p' := After(p, m);
    assert p'.links[ws].down == [resumed] && p'.bound == ws;
    assert [resumed][1..] == [];
    LastAckOfOne(resumed, r.clientAck);
  }

  lemma ResumeWaits(p: Pair, ws: nat)
    requires PairInv(p) && Alive(p) && p.bound < ws < |p.links|
    ensures !p.core.client.attached && (p.core.relay.attached.Some? ==> p.core.relay.attached.value < ws)
  {
    hide Inv, UpOk, DownOk, AttachedOk, R.WriteChain, Greeted, Ungreeted;
  }

  lemma ResumeAdopts(r: R.Relay, ws: nat, token: string, clientAck: nat, serverAck: nat, newToken: string)
    requires r.live && r.Valid() && R.TokenFits(r, token) && R.OffsetsFit(r, clientAck, serverAck)
    ensures var after := R.OnResume(r, ws, r.id, r.origin, token, clientAck, serverAck, newToken).relay;
      after.serverAck == serverAck && after.clientAck == r.clientAck
  {
    hide R.WriteChain;
  }

  // ---- Every run ----

  lemma MoveTells(p: Pair, m: Move)
    requires PairInv(p) && Alive(p) && Told(p) && MayMove(p, m) && Drained(p, m) && !EndsSession(m)
    ensures Told(After(p, m))
  {
    hide PairInv, Told, MayMove, After;
    match m
    case Reopens => ReopenTells(p);
    case PageGets => PageGetsTells(p);
    case RelayGets(ws, newToken) =>
      if HeadIsResume(p, ws) {
        ResumeTells(p, ws, newToken);
      } else {
        FrameMoveTells(p, ws, newToken);
      }
    case Local(e) =>
      if IsClientEvent(e) {
        LocalClientTells(p, e);
      } else {
        LocalRelayTells(p, e);
      }
  }

  lemma ReopenTells(p: Pair)
    requires PairInv(p) && Alive(p) && MayMove(p, Reopens)
    ensures Told(After(p, Reopens))
  {
    BoundIsALink(p);
    hide Inv, Good, LastAck, R.WriteChain;
  }
}
