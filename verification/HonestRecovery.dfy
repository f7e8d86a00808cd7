/**
 * Whatever state an honest session is in, it can recover: while it lives at the relay
 * and the page knows it, or can still learn of it, the page (resumed by the application
 * if it was detached) drops its socket, reads what it holds, opens another, is served
 * and is attached again; then it settles.
 */
module HonestRecovery {
  import opened Frames
  import C = ClientNode
  import R = RelayNode
  import opened World
  import opened Wire
  import opened HonestPair
  import opened HonestWindows
  import opened HonestRuns
  import opened HonestRest

  /** Nothing was added to either stream. */
  ghost predicate StreamsKept(p: Pair, p': Pair) {
    p'.core.W == p.core.W && p'.core.T == p.core.T && p'.core.relay.serverOffset == p.core.relay.serverOffset
  }

  ghost predicate Live(p: Pair) {
    PairInv(p) && Alive(p)
  }

  lemma EventKeepsStreams(s: World, e: Event)
    requires Legal(s) && Enabled(s, e)
    requires e.ClientResumes? || e.ClientDrops? || e.ClientReads? || e.ClientReopens? || e.ClientReceives? ||
      e.RelayResumes?
    ensures Next(s, e).W == s.W && Next(s, e).T == s.T
    ensures Next(s, e).relay.serverOffset == s.relay.serverOffset
    ensures !e.RelayResumes? ==> Next(s, e).relay == s.relay
    ensures e.RelayResumes? ==> Next(s, e).client == s.client
  {
    hide C.Receive, C.Read, R.WriteChain, C.Reopen;
  }

  // ---- The page lets go of its socket and reads what it holds ----

  lemma Drops(p: Pair)
    requires Live(p)
    ensures MayMove(p, Local(ClientDrops)) && Drained(p, Local(ClientDrops))
    ensures var p' := After(p, Local(ClientDrops));
      Live(p') && StreamsKept(p, p') && !p'.core.client.attached && p'.core.client.sessionId == p.core.client.sessionId
  {
    hide Inv, Good, Legal, QueuesSent, After, Next;
    MoveKeeps(p, Local(ClientDrops));
    AfterLocal(p, ClientDrops);
    EventKeepsStreams(p.core, ClientDrops);
    DropIs(p.core);
  }

  /** A page that was detached on purpose is resumed by the application. */
  lemma IsResumed(p: Pair)
    requires Live(p)
    ensures MayMove(p, Local(ClientResumes)) && Drained(p, Local(ClientResumes))
    ensures var p' := After(p, Local(ClientResumes));
      Live(p') && StreamsKept(p, p') && p'.core.client == p.core.client.(detached := false)
  {
    hide Inv, Good, Legal, QueuesSent, After, Next;
    MoveKeeps(p, Local(ClientResumes));
    AfterLocal(p, ClientResumes);
    EventKeepsStreams(p.core, ClientResumes);
    DropIs(p.core);
  }

  lemma DropIs(s: World)
    requires Legal(s)
    ensures Next(s, ClientDrops).client == C.Dropped(s.client)
    ensures Next(s, ClientResumes).client == s.client.(detached := false)
  {
    hide Legal;
  }

  lemma Reads(p: Pair)
    requires Live(p) && !p.core.client.attached
    ensures var m := Local(ClientReads(|p.core.client.received|));
      MayMove(p, m) && Drained(p, m) &&
      var p' := After(p, m);
      Live(p') && StreamsKept(p, p') && !p'.core.client.attached &&
      p'.core.client.sessionId == p.core.client.sessionId && p'.core.client.received == []
  {
    hide Inv, Good, Legal, QueuesSent, After, Next, C.Read;
    var e := ClientReads(|p.core.client.received|);
    LegalNow(p);
    MoveKeeps(p, Local(e));
    AfterLocal(p, e);
    EventKeepsStreams(p.core, e);
    ClientEventIs(p.core, e);
    LegalClient(p.core);
    ReadDries(p.core.client);
  }

  lemma ReadDries(c: C.Transport)
    requires c.Valid()
    ensures var after := C.Read(c, |c.received|).0;
      after.received == [] && after.attached == c.attached && after.sessionId == c.sessionId
  {
  }

  // ---- A new socket is opened, served and taken ----

  /** What a served request does to the queues. */
  lemma ResumeMove(p: Pair, ws: nat, newToken: string)
    requires MayMove(p, RelayGets(ws, newToken)) && HeadIsResume(p, ws)
    ensures var p', e := After(p, RelayGets(ws, newToken)), EventOf(p, RelayGets(ws, newToken));
      e == RelayResumes(ws, p.core.relay.origin, p.links[ws].up[0], newToken) &&
      p'.bound == ws && p'.core == Next(p.core, e) && |p'.links| == |p.links|
  {
    hide Next, RelaySends, Legal, QueuesSent, PushDown;
    var e := EventOf(p, RelayGets(ws, newToken));
    PushDownCount(TookUp(p, ws).links, RelaySends(p.core, e));
  }

  /** What it does to the two ends. */
  lemma ResumeIs(s: World, ws: nat, origin: string, f: V2Frame, newToken: string)
    requires Legal(s) && Enabled(s, RelayResumes(ws, origin, f, newToken))
    ensures var s' := Next(s, RelayResumes(ws, origin, f, newToken));
      s'.client == s.client &&
      s'.relay == R.OnResume(s.relay, ws, f.sessionId, origin, f.token, f.clientAck, f.serverAck, newToken).relay
  {
    hide R.OnResume;
  }

  lemma AfterResume(p: Pair, ws: nat, newToken: string)
    requires MayMove(p, RelayGets(ws, newToken)) && HeadIsResume(p, ws) && Live(p)
    ensures var p' := After(p, RelayGets(ws, newToken));
      p'.bound == ws && |p'.links| == |p.links| && p'.core.relay.attached == Some(ws) &&
      p'.core.client == p.core.client
  {
    hide Inv, Good, Legal, QueuesSent, After, Next, R.OnResume, R.TokenFits, R.OffsetsFit;
    BoundIsALink(p);
    ResumeAdmissible(p, ws);
    LegalNow(p);
    LegalClient(p.core);
    var c, r := p.core.client, p.core.relay;
    ResumeMove(p, ws, newToken);
    ResumeIs(p.core, ws, r.origin, p.links[ws].up[0], newToken);
    LegalRelay(p.core);
    ResumeAttaches(r, ws, c.token, c.clientAck, c.serverAck, newToken);
  }

  lemma LegalRelay(s: World)
    requires Legal(s)
    ensures s.relay.Valid()
  {
  }

  lemma ResumeAttaches(r: R.Relay, ws: nat, token: string, clientAck: nat, serverAck: nat, newToken: string)
    requires r.live && r.Valid() && R.TokenFits(r, token) && R.OffsetsFit(r, clientAck, serverAck)
    ensures R.OnResume(r, ws, r.id, r.origin, token, clientAck, serverAck, newToken).relay.attached == Some(ws)
  {
    hide R.WriteChain;
  }

  lemma {:induction false} PushDownCount(links: seq<Link>, sends: seq<R.Sent>)
    ensures |PushDown(links, sends)| == |links|
    decreases |sends|
  {
    if sends != [] {
      var ws := sends[0].ws;
      PushDownCount(if ws < |links| then links[ws := links[ws].(down := links[ws].down + [sends[0].frame])] else links,
                    sends[1..]);
    }
  }

  /** The page opened a socket that the relay has yet to serve. */
  ghost predicate Asked(p: Pair) {
    Live(p) && !p.core.client.attached && p.core.client.open && |p.links| > 1 && p.bound < |p.links| - 1 &&
    HeadIsResume(p, |p.links| - 1)
  }

  lemma Asks(p: Pair)
    requires Live(p) && !p.core.client.attached && p.core.client.received == [] && p.core.client.sessionId != ""
    ensures MayMove(p, Reopens) && Drained(p, Reopens)
    ensures Asked(After(p, Reopens)) && StreamsKept(p, After(p, Reopens))
  {
    hide Inv, Good, Legal, QueuesSent, After, Next;
    MoveKeeps(p, Reopens);
    AfterReopens(p);
    AfterCore(p, Reopens);
    EventKeepsStreams(p.core, ClientReopens(|p.links|));
    BoundIsALink(p);
  }

  /** The relay has served the page's socket and its answer is on its way. */
  ghost predicate Served(p: Pair) {
    Live(p) && !p.core.client.attached && p.core.client.open && |p.links| > 1 && p.bound == |p.links| - 1 &&
    p.core.relay.attached.Some?
  }

  lemma IsServed(p: Pair) returns (m: Move)
    requires Asked(p)
    ensures MayMove(p, m) && Drained(p, m) && Served(After(p, m)) && StreamsKept(p, After(p, m))
  {
    hide Inv, Good, Legal, QueuesSent, After, Next;
    var ws := |p.links| - 1;
    m := RelayGets(ws, p.core.relay.token);
    TokenIsToken(p);
    HeadWasSent(p, ws);
    MoveKeeps(p, m);
    AfterResume(p, ws, p.core.relay.token);
    AfterCore(p, m);
    EventKeepsStreams(p.core, EventOf(p, m));
  }

  lemma TokenIsToken(p: Pair)
    requires Live(p)
    ensures IsToken(p.core.relay.token)
  {
    hide Inv, Waiting, UpOk, DownOk, AttachedOk, Greeted, Ungreeted, WellFormed, IsToken, IsSessionId;
  }

  lemma Takes(p: Pair)
    requires Served(p)
    ensures MayMove(p, PageGets) && Drained(p, PageGets)
    ensures Working(After(p, PageGets)) && StreamsKept(p, After(p, PageGets))
  {
    AnswerWaits(p);
    hide Inv, Good, C.Message, C.Receive, After, Next, PageMoved, Legal, QueuesSent;
    var cur := |p.links| - 1;
    DownWasSent(p);
    HeadOfDown(p);
    MoveKeeps(p, PageGets);
    PageGetsIs(p);
    AfterCore(p, PageGets);
    EventKeepsStreams(p.core, EventOf(p, PageGets));
    HelloStarts(p);
    var sends := C.Message(p.core.client, cur > 0, p.links[cur].down[0]).sends;
    HelloSendsData(p);
    PageMovedLink(p, After(p, PageGets).core, sends);
    assert [] + sends == sends;
  }

  lemma AnswerWaits(p: Pair)
    requires Served(p)
    ensures p.links[|p.links| - 1].down != []
  {
    hide Inv, Waiting, UpOk, AttachedOk, Greeted, Ungreeted, WellFormed, DownChain, HelloOk;
  }

  /** What a page sends at once when its resume is answered is data. */
  lemma HelloSendsData(p: Pair)
    requires PageMay(p) && !p.core.client.attached && |p.links| > 1 && p.links[|p.links| - 1].down[0].Resumed?
    ensures Detach !in C.Message(p.core.client, true, p.links[|p.links| - 1].down[0]).sends
  {
    hide Inv, DownChain, R.WriteChain, C.OnReady, C.OnResumed, UpChain, UpEnd, DataRun;
    PageIsBound(p);
    var c, r, f := p.core.client, p.core.relay, p.links[|p.links| - 1].down[0];
    DownChainBounds(p.links[|p.links| - 1].down[1..], c.serverOffset, f.clientAck, r.serverSent, r.clientAck);
    LegalNow(p);
    C.ResumedReplays(c, f.clientAck, f.newToken);
    var reply := C.OnResumed(c, true, f.clientAck, f.serverAck, f.newToken);
    RunHasNoDetach(reply.sends, Client, f.clientAck, c.clientOffset, reply.client.pending);
  }

  lemma {:induction false} RunHasNoDetach(frames: seq<V2Frame>, d: Direction, from: int, to: int, bytes: seq<byte>)
    requires DataRun(frames, d, from, to, bytes)
    ensures Detach !in frames
    decreases |frames|
  {
    if frames != [] {
      var n := |frames[0].payload|;
      RunHasNoDetach(frames[1..], d, from + n, to, bytes[n..]);
      assert frames == [frames[0]] + frames[1..];
    }
  }

  // ---- Recovery ----

  lemma {:induction false} OneMoreMove(p: Pair, moves: seq<Move>, p1: Pair, m: Move)
    requires Leads(p, moves, p1) && MayMove(p1, m) && Drained(p1, m)
    ensures Leads(p, moves + [m], After(p1, m))
  {
    hide MayMove, After;
    assert [m][1..] == [];
    assert Leads(p1, [m], After(p1, m));
    LeadsJoin(p, moves, p1, [m], After(p1, m));
  }

  /** The page still has its first socket, or has heard from the relay. */
  predicate CanHear(p: Pair) {
    p.core.client.sessionId != "" || p.core.client.open
  }

  /** A page that has not heard from the relay takes `ready` from its first socket. */
  lemma Hears(p: Pair)
    requires Live(p) && p.core.client.sessionId == "" && p.core.client.open
    ensures MayMove(p, PageGets) && Drained(p, PageGets)
    ensures var p' := After(p, PageGets);
      Live(p') && StreamsKept(p, p') && p'.core.client.sessionId != ""
  {
    ReadyWaits(p);
    hide Inv, Good, C.Message, C.Receive, After, Next, PageMoved, Legal, QueuesSent, IsSessionId;
    DownWasSent(p);
    HeadOfDown(p);
    MoveKeeps(p, PageGets);
    PageGetsIs(p);
    ReadyAccepted(p);
    AfterCore(p, PageGets);
    EventKeepsStreams(p.core, EventOf(p, PageGets));
    MessageIsReady(p.core.client, p.links[0].down[0]);
    IdIsNotEmpty(p);
  }

  lemma ReadyWaits(p: Pair)
    requires Live(p) && p.core.client.sessionId == "" && p.core.client.open
    ensures |p.links| == 1 && !p.core.client.attached && p.links[0].down != []
  {
    hide Inv, Waiting, UpOk, AttachedOk, WellFormed, DownChain, HelloOk;
    IdIsNotEmpty(p);
  }

  lemma IdIsNotEmpty(p: Pair)
    requires Live(p)
    ensures p.core.relay.id != ""
  {
    hide Inv, Waiting, UpOk, DownOk, AttachedOk, Greeted, Ungreeted, WellFormed;
  }

  lemma MessageIsReady(c: C.Transport, f: V2Frame)
    requires c.Valid() && f.Ready?
    ensures C.Message(c, false, f) == C.OnReady(c, false, f)
  {
  }

  /** The page hears from the relay if it has not, lets go of its socket and reads all it holds. */
  lemma LetsGo(p: Pair) returns (moves: seq<Move>, p': Pair)
    requires Live(p) && CanHear(p)
    ensures Leads(p, moves, p') && Live(p') && StreamsKept(p, p')
    ensures !p'.core.client.attached && p'.core.client.received == [] && p'.core.client.sessionId != ""
  {
    hide Live, MayMove, After, Leads;
    moves, p' := [], p;
    assert Leads(p, moves, p') by { NoMoves(p); }
    IsResumed(p');
    OneMoreMove(p, moves, p', Local(ClientResumes));
    moves, p' := moves + [Local(ClientResumes)], After(p', Local(ClientResumes));
    if p.core.client.sessionId == "" {
      Hears(p');
      OneMoreMove(p, moves, p', PageGets);
      moves, p' := moves + [PageGets], After(p', PageGets);
    }
    Drops(p');
    OneMoreMove(p, moves, p', Local(ClientDrops));
    moves, p' := moves + [Local(ClientDrops)], After(p', Local(ClientDrops));
    var read := Local(ClientReads(|p'.core.client.received|));
    Reads(p');
    OneMoreMove(p, moves, p', read);
    moves, p' := moves + [read], After(p', read);
  }

  lemma NoMoves(p: Pair)
    ensures Leads(p, [], p)
  {
  }

  /** It opens a socket, the relay serves it, and it takes the answer. */
  lemma Rejoins(p: Pair) returns (moves: seq<Move>, p': Pair)
    requires Live(p) && !p.core.client.attached && p.core.client.received == [] && p.core.client.sessionId != ""
    ensures Leads(p, moves, p') && Working(p') && StreamsKept(p, p')
  {
    hide Live, MayMove, After, Leads, Asked, Served, Working;
    assert Leads(p, [], p) by { NoMoves(p); }
    Asks(p);
    OneMoreMove(p, [], p, Reopens);
    var p1 := After(p, Reopens);
    var m := IsServed(p1);
    OneMoreMove(p, [] + [Reopens], p1, m);
    var p2 := After(p1, m);
    Takes(p2);
    OneMoreMove(p, [] + [Reopens] + [m], p2, PageGets);
    return [] + [Reopens] + [m] + [PageGets], After(p2, PageGets);
  }

  /**
   * Every run of the honest pair can be continued, as long as the session lives at the
   * relay, the page has not closed, and the page knows the session or has its first
   * socket still: it is attached again, whatever had dropped or detached, and settles.
   * The target then has every byte the page wrote and the application every byte the
   * relay took before.
   */
  lemma EveryLivePairSettles(id: string, origin: string, token: string, grace: Option<int>, cap: Option<int>,
                             moves: seq<Move>, p: Pair) returns (more: seq<Move>, p': Pair)
    requires Opening(id, token, grace, cap) && Leads(Start(id, origin, token, grace, cap), moves, p)
    requires Alive(p) && CanHear(p)
    ensures Leads(p, more, p') && Alive(p') && Settled(p') && p'.core.W == p.core.W && p'.core.T == p.core.T
    ensures p'.core.delivered == p.core.W
    ensures p.core.relay.serverOffset <= |p.core.T| && p'.core.read == p.core.T[..p.core.relay.serverOffset]
    ensures p'.core.client.pending == [] && p'.core.relay.retained == [] && p'.core.relay.pendingClientBytes == 0
  {
    hide PairInv, Start, Leads, Opening, AllWork, Settled, Work, CanHear;
    var start := Start(id, origin, token, grace, cap);
    StartIsGood(id, origin, token, grace, cap);
    RunKeeps(start, moves, p);
    var gone, p1 := LetsGo(p);
    var back, p2 := Rejoins(p1);
    LeadsJoin(start, moves, p, gone, p1);
    LeadsJoin(start, moves + gone, p1, back, p2);
    var rest, p3 := EveryRunSettles(id, origin, token, grace, cap, moves + gone + back, p2);
    LeadsJoin(p, gone, p1, back, p2);
    LeadsJoin(p, gone + back, p2, rest, p3);
    return gone + back + rest, p3;
  }

  // ---- A page that can never recover ----

  /** The page lost its first socket before it had heard of the session. */
  predicate Deaf(p: Pair) {
    p.core.client.sessionId == "" && !p.core.client.open && !p.core.client.attached
  }

  lemma CallsKeepDeaf(c: C.Transport, bytes: seq<byte>, n: nat)
    requires c.Valid()
    ensures var w, r, a := C.Write(c, bytes).0, C.Read(c, n).0, C.SendAck(c).0;
      w.sessionId == r.sessionId == a.sessionId == c.sessionId && w.open == r.open == a.open == c.open &&
      w.attached == r.attached == a.attached == c.attached
  {
    hide C.ChunkFrames;
  }

  lemma StaysDeaf(p: Pair, m: Move)
    requires MayMove(p, m) && Deaf(p)
    ensures Deaf(After(p, m))
  {
    hide Legal, QueuesSent, After, C.Write, C.Read, C.SendAck, C.Receive, R.OnMessage, R.OnResume, R.OnTargetData,
         R.SendData, R.OnWriteDone, R.Revoke;
    AfterCore(p, m);
    LegalClient(p.core);
    match EventOf(p, m)
    case ClientWrites(bytes) => CallsKeepDeaf(p.core.client, bytes, 0);
    case ClientReads(n) => CallsKeepDeaf(p.core.client, [], n);
    case AckTimer => CallsKeepDeaf(p.core.client, [], 0);
    case _ =>
  }

  /** So the condition is exact: without it no continuation of any kind ever settles. */
  lemma {:induction false} DeafNeverSettles(p: Pair, more: seq<Move>, p': Pair)
    requires Deaf(p) && Leads(p, more, p')
    ensures Deaf(p') && !Settled(p')
    decreases |more|
  {
    hide MayMove, After;
    if more != [] {
      StaysDeaf(p, more[0]);
      DeafNeverSettles(After(p, more[0]), more[1..], p');
    }
  }

  lemma DeafOrHears(p: Pair)
    requires Live(p)
    ensures CanHear(p) <==> !Deaf(p)
  {
    hide Inv, Waiting, UpOk, DownOk, WellFormed;
    if p.core.client.sessionId == "" {
      IdIsNotEmpty(p);
    }
  }

  /** An alive pair can be continued until it settles if and only if the page can still hear of the session. */
  lemma SettlesExactlyWhenItHears(id: string, origin: string, token: string, grace: Option<int>, cap: Option<int>,
                                  moves: seq<Move>, p: Pair)
    requires Opening(id, token, grace, cap) && Leads(Start(id, origin, token, grace, cap), moves, p) && Alive(p)
    ensures CanHear(p) <==> exists more, p' :: Leads(p, more, p') && Alive(p') && Settled(p')
  {
    hide PairInv, Start, Leads, Opening, Settled, CanHear, Deaf;
    StartIsGood(id, origin, token, grace, cap);
    RunKeeps(Start(id, origin, token, grace, cap), moves, p);
    DeafOrHears(p);
    if CanHear(p) {
      var more, p' := EveryLivePairSettles(id, origin, token, grace, cap, moves, p);
      assert Leads(p, more, p') && Alive(p') && Settled(p');
    } else {
      forall more, p' | Leads(p, more, p') ensures !Settled(p') {
        DeafNeverSettles(p, more, p');
      }
    }
  }
}
