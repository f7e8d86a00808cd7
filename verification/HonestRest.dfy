/**
 * The honest pair comes to rest. Deliveries, flushes, completions, reads and due
 * acknowledgements are its work; each of them takes from a measure, and while
 * something is owed or in flight one of them is possible. So in whatever order the
 * work is done, an attached pair that is not disturbed settles after a bounded number
 * of moves, with every byte where it belongs.
 */
module HonestRest {
  import opened Frames
  import C = ClientNode
  import R = RelayNode
  import opened World
  import opened Wire
  import opened HonestPair
  import opened HonestWindows
  import opened HonestRuns

  /** Both ends attached, and the page has not asked to be detached. */
  ghost predicate Working(p: Pair) {
    PairInv(p) && Alive(p) && p.core.client.attached && p.core.relay.attached.Some? &&
    p.bound < |p.links| && Detach !in p.links[p.bound].up
  }

  /**
   * What is still to be done: unsent and unread bytes, an acknowledgement that is due,
   * frames in flight and target writes. Each kind of work costs less than what it takes.
   */
  ghost function Work(p: Pair): int
    requires p.bound < |p.links|
  {
    var c, r, link := p.core.client, p.core.relay, p.links[p.bound];
    10 * (r.serverOffset - r.serverSent) + 8 * (r.serverSent - c.serverAck) +
    (if c.ackSent != c.serverAck then 4 else 0) + 3 * |link.up| + 2 * |r.writes| + |link.down|
  }

  /** The moves that are work. */
  predicate IsWork(p: Pair, m: Move) {
    match m
    case PageGets => true
    case RelayGets(ws, _) => ws == p.bound
    case Reopens => false
    case Local(e) =>
      match e
      case RelayFlushes(_) => true
      case WriteDone => true
      case ClientReads(n) => n > 0 && p.core.client.received != []
      case AckTimer => p.core.client.ackSent != p.core.client.serverAck
      case _ => false
  }

  /** What the pair's invariant says while both ends are attached. */
  lemma AttachedFacts(p: Pair)
    requires Working(p)
    ensures var c, r := p.core.client, p.core.relay;
      c.open && p.bound == |p.links| - 1 && r.attached == Some(p.bound) && IsToken(r.token) &&
      c.ackSent <= c.serverAck <= c.serverOffset <= r.serverSent <= r.serverOffset &&
      |c.received| == c.serverOffset - c.serverAck
    ensures Work(p) >= 0
  {
    hide UpStream, DownStream, AllUpHonest, AllDownHonest, Waiting, UpOk, DownOk, Greeted, Ungreeted, R.WriteChain,
         QueuesSent, IsToken, IsSessionId;
  }

  lemma WorkIsMove(p: Pair, m: Move)
    requires Working(p) && MayMove(p, m) && IsWork(p, m)
    ensures Drained(p, m) && !EndsSession(m)
    ensures PairInv(After(p, m)) && Alive(After(p, m))
  {
    hide PairInv, MayMove, After;
    MoveKeeps(p, m);
  }

  /** After the move the pair is still working, with less to do, and no byte was added to either stream. */
  ghost predicate Eased(p: Pair, p': Pair)
    requires p.bound < |p.links|
  {
    p'.bound == p.bound && |p'.links| == |p.links| &&
    p'.core.client.attached && p'.core.relay.attached.Some? && Detach !in p'.links[p'.bound].up &&
    Work(p') < Work(p) &&
    p'.core.W == p.core.W && p'.core.T == p.core.T && p'.core.relay.serverOffset == p.core.relay.serverOffset
  }

  // ---- The page takes a frame ----

  lemma NewsCosts(c: C.Transport, reconnect: bool, f: V2Frame)
    requires c.Valid() && (f.Data? || f.Ack? || f.Pong?) && C.Message(c, reconnect, f).verdict == C.Taken
    ensures var after := C.Message(c, reconnect, f).client;
      after.serverAck == c.serverAck && after.ackSent == c.ackSent && after.attached == c.attached &&
      C.Message(c, reconnect, f).sends == []
  {
  }

  lemma PageGetsEases(p: Pair)
    requires Working(p) && MayMove(p, PageGets)
    ensures Eased(p, After(p, PageGets))
  {
    hide C.Message, C.Receive, Inv, Good, After, Next, PageMoved, Work;
    AttachedFacts(p);
    HeadOfDown(p);
    PageGetsIs(p);
    LegalNow(p);
    AfterCore(p, PageGets);
    var cur := |p.links| - 1;
    NewsCosts(p.core.client, cur > 0, p.links[cur].down[0]);
    PageMovedLink(p, After(p, PageGets).core, []);
    SameStreams(p.core, EventOf(p, PageGets));
    var p' := After(p, PageGets);
    assert p'.links[cur].up == p.links[cur].up + [];
    PageMovedCount(p, p'.core);
    LessWork(p, p');
  }

  lemma PageMovedCount(p: Pair, core: World)
    requires |p.links| > 0 && p.links[|p.links| - 1].down != []
    ensures |PageMoved(p, core, []).links| == |p.links|
    ensures |PageMoved(p, core, []).links[|p.links| - 1].down| == |p.links[|p.links| - 1].down| - 1
  {
  }

  lemma SameStreams(s: World, e: Event)
    requires Legal(s) && Enabled(s, e)
    requires e.ClientReceives? || e.ClientReads? || e.AckTimer? || e.RelayReceives? || e.RelayFlushes? || e.WriteDone?
    ensures Next(s, e).W == s.W && Next(s, e).T == s.T
  {
    hide C.Receive, C.Read, C.SendAck, R.OnMessage, R.SendData, R.OnWriteDone, Legal;
  }

  /** One frame less on the way down and nothing else is less work. */
  lemma LessWork(p: Pair, p': Pair)
    requires p.bound < |p.links| && p'.bound == p.bound && |p'.links| == |p.links|
    requires p'.links[p.bound].up == p.links[p.bound].up && |p'.links[p.bound].down| == |p.links[p.bound].down| - 1
    requires p'.core.relay == p.core.relay
    requires p'.core.client.serverAck == p.core.client.serverAck && p'.core.client.ackSent == p.core.client.ackSent
    ensures Work(p') < Work(p)
  {
  }

  // ---- The relay takes a frame ----

  lemma FrameCosts(r: R.Relay, ws: nat, f: V2Frame)
    requires r.live && r.Valid() && r.attached == Some(ws) && (f.Data? || f.Ack? || f.Ping?)
    requires !R.OnMessage(r, ws, Some(f)).outcome.Rejected?
    ensures var reply := R.OnMessage(r, ws, Some(f));
      reply.relay.attached == r.attached && reply.relay.serverSent == r.serverSent &&
      reply.relay.serverOffset == r.serverOffset && |reply.relay.writes| + |reply.sends| <= |r.writes| + 1
  {
    hide R.WriteChain, R.ReplayMatches, R.TrimHistory;
  }

  lemma RelayGetsEases(p: Pair, newToken: string)
    requires Working(p) && MayMove(p, RelayGets(p.bound, newToken))
    ensures Eased(p, After(p, RelayGets(p.bound, newToken)))
  {
    hide Inv, Good, After, Next, R.OnMessage, PushDown, Work, TookUp, RelayMoved;
    AttachedFacts(p);
    LegalNow(p);
    var m, f := RelayGets(p.bound, newToken), p.links[p.bound].up[0];
    HeadWasSent(p, p.bound);
    HeadOfUp(p);
    AfterFrame(p, p.bound, newToken);
    AfterCore(p, m);
    var p' := After(p, m);
    RelayTakes(p, p'.core, p'.upNext);
    GoodIsShaped(p);
    var sends := R.OnMessage(p.core.relay, p.bound, Some(f)).sends;
    FrameCosts(p.core.relay, p.bound, f);
    TookUpLink(p);
    PushDownBound(TookUp(p, p.bound), p'.core, sends);
    RelayMovedLink(TookUp(p, p.bound), p'.core, Answered(sends));
    SameStreams(p.core, EventOf(p, m));
    FrameLessWork(p, p', |sends|);
  }

  lemma TookUpLink(p: Pair)
    requires p.bound < |p.links| && p.links[p.bound].up != []
    ensures var q := TookUp(p, p.bound);
      q.core == p.core && q.bound == p.bound && |q.links| == |p.links| &&
      q.links[p.bound].up == p.links[p.bound].up[1..] && q.links[p.bound].down == p.links[p.bound].down
  {
  }

  lemma RelayMovedLink(p: Pair, core: World, frames: seq<V2Frame>)
    requires p.bound < |p.links|
    ensures var q := RelayMoved(p, core, frames);
      q.core == core && q.bound == p.bound && |q.links| == |p.links| &&
      q.links[p.bound].up == p.links[p.bound].up && q.links[p.bound].down == p.links[p.bound].down + frames
  {
  }

  lemma FrameLessWork(p: Pair, p': Pair, answers: nat)
    requires p.bound < |p.links| && p'.bound == p.bound && |p'.links| == |p.links|
    requires p.links[p.bound].up != [] && p'.links[p.bound].up == p.links[p.bound].up[1..]
    requires |p'.links[p.bound].down| == |p.links[p.bound].down| + answers
    requires var r, r' := p.core.relay, p'.core.relay;
      r'.serverSent == r.serverSent && r'.serverOffset == r.serverOffset && |r'.writes| + answers <= |r.writes| + 1
    requires p'.core.client == p.core.client
    ensures Work(p') < Work(p)
  {
  }

  // ---- The relay's own work ----

  lemma AfterLocal(p: Pair, e: Event)
    requires MayMove(p, Local(e))
    ensures var p' := After(p, Local(e));
      p'.core == Next(p.core, e) && p'.bound == p.bound && p'.upNext == p.upNext &&
      p'.links == if IsClientEvent(e) then PushUp(p.links, |p.links| - 1, ClientSends(p.core, e))
                  else PushDown(p.links, RelaySends(p.core, e))
  {
    hide Next, ClientSends, RelaySends, Legal, QueuesSent, PushUp, PushDown;
  }

  lemma RelayEventIs(s: World, e: Event)
    requires Legal(s) && Enabled(s, e) && (e.RelayFlushes? || e.WriteDone?)
    ensures Next(s, e).client == s.client
    ensures e.RelayFlushes? ==>
      (Next(s, e).relay == R.SendData(s.relay, e.n).0 &&
       RelaySends(s, e) == R.ToAttached(s.relay, R.SendData(s.relay, e.n).1))
    ensures e.WriteDone? ==>
      Next(s, e).relay == R.OnWriteDone(s.relay).relay && RelaySends(s, e) == R.OnWriteDone(s.relay).sends
  {
    hide R.OnWriteDone, R.SendData;
  }

  lemma FlushCosts(r: R.Relay, n: nat)
    requires r.live && r.Valid() && r.serverSent + n <= r.serverOffset
    ensures var after := R.SendData(r, n).0;
      after.attached == r.attached && after.serverOffset == r.serverOffset && after.writes == r.writes &&
      after.serverSent == r.serverSent + n
  {
  }

  lemma DoneCosts(r: R.Relay)
    requires r.live && r.Valid() && r.writes != []
    ensures var reply := R.OnWriteDone(r);
      reply.relay.attached == r.attached && reply.relay.serverOffset == r.serverOffset &&
      reply.relay.serverSent == r.serverSent && |reply.relay.writes| == |r.writes| - 1 &&
      reply.sends == R.ToAttached(r, Ack(Client, reply.relay.clientAck))
  {
  }

  lemma RelayWorkEases(p: Pair, e: Event)
    requires Working(p) && MayMove(p, Local(e)) && (e.RelayFlushes? || e.WriteDone?)
    ensures Eased(p, After(p, Local(e)))
  {
    hide Inv, Good, After, Next, RelaySends, PushDown, Work, RelayMoved, R.SendData, R.OnWriteDone;
    AttachedFacts(p);
    LegalNow(p);
    AfterLocal(p, e);
    RelayEventIs(p.core, e);
    GoodIsShaped(p);
    SameStreams(p.core, e);
    var p', r := After(p, Local(e)), p.core.relay;
    var f := if e.RelayFlushes? then R.SendData(r, e.n).1 else Ack(Client, p'.core.relay.clientAck);
    if e.RelayFlushes? {
      FlushCosts(r, e.n);
    } else {
      DoneCosts(r);
    }
    PushDownToAttached(p, f, p'.core);
    RelayMovedLink(p, p'.core, [f]);
    assert p' == RelayMoved(p, p'.core, [f]);
    RelayLessWork(p, p');
  }

  lemma RelayLessWork(p: Pair, p': Pair)
    requires p.bound < |p.links| && p'.bound == p.bound && |p'.links| == |p.links| && p'.core.client == p.core.client
    requires p'.links[p.bound].up == p.links[p.bound].up
    requires |p'.links[p.bound].down| == |p.links[p.bound].down| + 1
    requires var r, r' := p.core.relay, p'.core.relay;
      r'.serverOffset == r.serverOffset &&
      ((r'.serverSent > r.serverSent && r'.writes == r.writes) ||
       (r'.serverSent == r.serverSent && |r'.writes| == |r.writes| - 1))
    ensures Work(p') < Work(p)
  {
  }

  // ---- The page's own work ----

  lemma ClientEventIs(s: World, e: Event)
    requires Legal(s) && Enabled(s, e) && (e.ClientReads? || e.AckTimer?)
    ensures Next(s, e).relay == s.relay
    ensures e.ClientReads? ==>
      Next(s, e).client == C.Read(s.client, e.n).0 && ClientSends(s, e) == C.Read(s.client, e.n).2
    ensures e.AckTimer? ==>
      Next(s, e).client == C.SendAck(s.client).0 && ClientSends(s, e) == C.SendAck(s.client).1
  {
    hide C.Read, C.SendAck;
  }

  /** Reading takes more off the rest than the acknowledgement it makes due, or sends. */
  lemma ReadCosts(c: C.Transport, n: nat)
    requires c.Valid() && c.attached && c.open && n > 0 && c.received != []
    ensures var (after, _, frames) := C.Read(c, n);
      after.attached && after.serverAck > c.serverAck &&
      (frames == [] || (frames == [Ack(Server, after.serverAck)] && after.ackSent == after.serverAck))
  {
  }

  lemma AckCosts(c: C.Transport)
    requires c.Valid() && c.attached && c.open && !c.closed && c.ackSent != c.serverAck
    ensures var (after, frames) := C.SendAck(c);
      after.attached && after.serverAck == c.serverAck && after.ackSent == c.serverAck &&
      frames == [Ack(Server, c.serverAck)]
  {
  }

  lemma PageWorkEases(p: Pair, e: Event)
    requires Working(p) && MayMove(p, Local(e)) && IsWork(p, Local(e)) && (e.ClientReads? || e.AckTimer?)
    ensures Eased(p, After(p, Local(e)))
  {
    hide Inv, Good, After, Next, ClientSends, PushUp, Work, C.Read, C.SendAck;
    AttachedFacts(p);
    LegalNow(p);
    AfterLocal(p, e);
    ClientEventIs(p.core, e);
    SameStreams(p.core, e);
    var p', c := After(p, Local(e)), p.core.client;
    var frames := ClientSends(p.core, e);
    if e.ClientReads? {
      ReadCosts(c, e.n);
    } else {
      AckCosts(c);
    }
    PushUpLink(p.links, p.bound, frames);
    PageLessWork(p, p', frames);
  }

  lemma PushUpLink(links: seq<Link>, k: nat, frames: seq<V2Frame>)
    requires k < |links|
    ensures var after := PushUp(links, k, frames);
      |after| == |links| && after[k].up == links[k].up + frames && after[k].down == links[k].down
  {
  }

  lemma PageLessWork(p: Pair, p': Pair, frames: seq<V2Frame>)
    requires p.bound < |p.links| && p'.bound == p.bound && |p'.links| == |p.links| && p'.core.relay == p.core.relay
    requires p'.links[p.bound].up == p.links[p.bound].up + frames && p'.links[p.bound].down == p.links[p.bound].down
    requires |frames| <= 1
    requires var c, c' := p.core.client, p'.core.client;
      (c'.serverAck > c.serverAck && (frames == [] || c'.ackSent == c'.serverAck)) ||
      (c'.serverAck == c.serverAck && c.ackSent != c.serverAck && c'.ackSent == c'.serverAck)
    ensures Work(p') < Work(p)
  {
  }

  // ---- All work ----

  /** Every piece of work that is possible leaves less to do and nothing undone that was done. */
  lemma WorkEases(p: Pair, m: Move)
    requires Working(p) && MayMove(p, m) && IsWork(p, m)
    ensures Working(After(p, m)) && Eased(p, After(p, m)) && Drained(p, m)
  {
    hide PairInv, MayMove, After, Eased;
    WorkIsMove(p, m);
    match m {
      case PageGets => PageGetsEases(p);
      case RelayGets(ws, newToken) => RelayGetsEases(p, newToken);
      case Local(e) =>
        if e.RelayFlushes? || e.WriteDone? {
          RelayWorkEases(p, e);
        } else {
          PageWorkEases(p, e);
        }
    }
    EasedWorks(p, After(p, m));
  }

  lemma EasedWorks(p: Pair, p': Pair)
    requires p.bound < |p.links| && Eased(p, p') && PairInv(p') && Alive(p')
    ensures Working(p')
  {
    hide PairInv, Work;
  }

  /** While something is owed or in flight, some work is possible. */
  lemma UnsettledHasWork(p: Pair) returns (m: Move)
    requires Working(p) && !Settled(p)
    ensures MayMove(p, m) && IsWork(p, m)
  {
    hide Inv, Good, R.WriteChain, UpChain, DownChain;
    AttachedFacts(p);
    LegalNow(p);
    var c, r, link := p.core.client, p.core.relay, p.links[p.bound];
    if link.down != [] {
      m := PageGets;
      DownWasSent(p);
    } else if link.up != [] {
      m := RelayGets(p.bound, r.token);
      HeadWasSent(p, p.bound);
      HeadOfUp(p);
    } else if r.serverSent < r.serverOffset {
      m := Local(RelayFlushes(1));
    } else if r.writes != [] {
      m := Local(WriteDone);
    } else if c.received != [] {
      m := Local(ClientReads(1));
    } else {
      m := Local(AckTimer);
    }
  }

  lemma DownWasSent(p: Pair)
    requires WellFormed(p) && p.links[|p.links| - 1].down != []
    ensures p.links[|p.links| - 1].down[0] in p.core.down
  {
    hide Legal;
  }

  /** The moves are all work. */
  ghost predicate AllWork(p: Pair, moves: seq<Move>)
    decreases |moves|
  {
    moves == [] || (MayMove(p, moves[0]) && IsWork(p, moves[0]) && AllWork(After(p, moves[0]), moves[1..]))
  }

  /** Whatever order the work is done in, there is no more of it than the measure says. */
  lemma {:induction false} WorkIsBounded(p: Pair, moves: seq<Move>, p': Pair)
    requires Working(p) && AllWork(p, moves) && Leads(p, moves, p')
    ensures Working(p') && |moves| <= Work(p) - Work(p')
    ensures p'.core.W == p.core.W && p'.core.T == p.core.T &&
      p'.core.relay.serverOffset == p.core.relay.serverOffset
    decreases |moves|
  {
    hide Working, MayMove, After, IsWork, Work;
    assert p.bound < |p.links| by { WorkingIsBound(p); }
    if moves != [] {
      WorkEases(p, moves[0]);
      WorkIsBounded(After(p, moves[0]), moves[1..], p');
    } else {
      WorkingIsBound(p');
    }
  }

  lemma WorkingIsBound(p: Pair)
    requires Working(p)
    ensures p.bound < |p.links|
  {
    hide PairInv;
  }

  /** And doing it settles the pair. */
  lemma {:induction false} WorkSettles(p: Pair) returns (moves: seq<Move>, p': Pair)
    requires Working(p)
    ensures AllWork(p, moves) && Leads(p, moves, p') && Working(p') && Settled(p')
    decreases Work(p)
  {
    hide PairInv, MayMove, After, IsWork, Work, Settled, Alive;
    if Settled(p) {
      return [], p;
    }
    var m := UnsettledHasWork(p);
    WorkEases(p, m);
    AttachedFacts(p);
    AttachedFacts(After(p, m));
    var rest, end := WorkSettles(After(p, m));
    moves, p' := [m] + rest, end;
    assert moves[1..] == rest;
  }

  /**
   * Every run of the honest pair that left it attached can be continued by deliveries,
   * flushes, completions, reads and acknowledgements alone until it is settled; then
   * the target has every byte the page wrote, the application every byte the relay
   * took, and both windows are fully open. No order of that work goes on for longer
   * than the measure, and none gets stuck before.
   */
  lemma EveryRunSettles(id: string, origin: string, token: string, grace: Option<int>, cap: Option<int>,
                        moves: seq<Move>, p: Pair) returns (more: seq<Move>, p': Pair)
    requires Opening(id, token, grace, cap) && Leads(Start(id, origin, token, grace, cap), moves, p)
    requires Alive(p) && p.core.client.attached && p.core.relay.attached.Some?
    requires p.bound < |p.links| && Detach !in p.links[p.bound].up
    ensures AllWork(p, more) && Leads(p, more, p') && |more| <= Work(p)
    ensures Alive(p') && Settled(p') && p'.core.W == p.core.W && p'.core.T == p.core.T
    ensures p'.core.delivered == p.core.W
    ensures p.core.relay.serverOffset <= |p.core.T| && p'.core.read == p.core.T[..p.core.relay.serverOffset]
    ensures p'.core.client.pending == [] && p'.core.relay.retained == [] && p'.core.relay.pendingClientBytes == 0
  {
    hide PairInv, Start, Leads, Opening, AllWork, Settled, Work;
    StartIsGood(id, origin, token, grace, cap);
    RunKeeps(Start(id, origin, token, grace, cap), moves, p);
    more, p' := WorkSettles(p);
    WorkIsBounded(p, more, p');
    AttachedFacts(p');
    LeadsJoin(Start(id, origin, token, grace, cap), moves, p, more, p');
    SettledIsAtRest(p');
    WindowsReopen(id, origin, token, grace, cap, moves + more, p');
    NothingStuckAtRest(id, origin, token, grace, cap, moves + more, p');
  }

  lemma SettledIsAtRest(p: Pair)
    requires Settled(p)
    ensures AtRest(p) && p.core.client.received == []
  {
  }

  lemma {:induction false} LeadsJoin(p: Pair, a: seq<Move>, p1: Pair, b: seq<Move>, p2: Pair)
    requires Leads(p, a, p1) && Leads(p1, b, p2)
    ensures Leads(p, a + b, p2)
    decreases |a|
  {
    hide MayMove, After;
    if a == [] {
      assert a + b == b;
    } else {
      assert (a + b)[1..] == a[1..] + b;
      LeadsJoin(After(p, a[0]), a[1..], p1, b, p2);
    }
  }
}
