/**
 * Where the honest pair's assumptions come from: what happens to a resume when
 * the page still has unread bytes, and when an abandoned request arrives late;
 * and why the announced limit is safe with this relay.
 */
module ResumeLimits {
  import opened Frames
  import C = ClientNode
  import R = RelayNode
  import opened World

  /** The page after the application read n bytes at a time, in these steps. */
  function ReadAll(c: C.Transport, sizes: seq<nat>): (after: C.Transport)
    requires c.Valid()
    ensures after.Valid()
    decreases |sizes|
  {
    if sizes == [] then c
    else
      C.ReadKeepsWindows(c, sizes[0]);
      ReadAll(C.Read(c, sizes[0]).0, sizes[1..])
  }

  lemma {:induction false} ReadAllFromEmpty(c: C.Transport, sizes: seq<nat>)
    requires c.Valid() && c.received == [] && !c.attached
    ensures ReadAll(c, sizes) == c
    decreases |sizes|
  {
    if sizes != [] {
      assert C.Read(c, sizes[0]).0 == c;
      ReadAllFromEmpty(c, sizes[1..]);
    }
  }

  /**
   * The page sent `resume` with its serverAck, and the relay answered as it must.
   * Every schedule of reads in between leaves the answer acceptable exactly when
   * the receive buffer was empty when the request was sent: otherwise one read
   * moves serverAck and the page closes its own session.
   */
  lemma ResumeSafeExactlyWhenDrained(c: C.Transport, clientAck: int, newToken: string)
    requires c.Valid() && !c.closed && !c.attached
    requires c.clientAck <= clientAck <= c.clientOffset && IsHexOfLength(newToken, 64)
    ensures (forall sizes: seq<nat> ::
               C.Receive(ReadAll(c, sizes), c.ws, true, Resumed(clientAck, c.serverAck, newToken)).verdict == C.Taken)
        <==> c.received == []
  {
    hide IsHexOfLength, C.Receive, ReadAll;
    var answer := Resumed(clientAck, c.serverAck, newToken);
    if c.received == [] {
      forall sizes: seq<nat>
        ensures C.Receive(ReadAll(c, sizes), c.ws, true, answer).verdict == C.Taken
      {
        ReadAllFromEmpty(c, sizes);
        AnswerTaken(c, clientAck, newToken);
      }
    } else {
      OneReadRefuses(c, clientAck, newToken);
      var one: seq<nat> := [1];
      assert C.Receive(ReadAll(c, one), c.ws, true, answer).verdict != C.Taken;
    }
  }

  lemma AnswerTaken(c: C.Transport, clientAck: int, newToken: string)
    requires c.Valid() && !c.closed && c.clientAck <= clientAck <= c.clientOffset && IsHexOfLength(newToken, 64)
    ensures C.Receive(c, c.ws, true, Resumed(clientAck, c.serverAck, newToken)).verdict == C.Taken
  {
    hide IsHexOfLength, C.ChunkFrames;
  }

  lemma OneReadRefuses(c: C.Transport, clientAck: int, newToken: string)
    requires c.Valid() && !c.closed && !c.attached && c.received != []
    ensures C.Receive(ReadAll(c, [1]), c.ws, true, Resumed(clientAck, c.serverAck, newToken)).verdict
         == C.Failed(C.WindowMismatch)
  {
    var one: seq<nat> := [1];
    assert one[1..] == [];
    assert ReadAll(c, one) == C.Read(c, 1).0;
  }

  /** A buffered byte and one read of it: the relay's honest answer closes the transport. */
  lemma UnreadByteKillsResume() returns (c: C.Transport, answer: V2Frame)
    ensures c.Valid() && c.Bounded() && !c.closed && !c.attached && answer.Resumed? && answer.serverAck == c.serverAck
    ensures C.Receive(c, c.ws, true, answer).verdict == C.Taken
    ensures C.Receive(C.Read(c, 1).0, c.ws, true, answer).verdict == C.Failed(C.WindowMismatch)
    ensures C.Receive(C.Read(c, 1).0, c.ws, true, answer).client.closed
  {
    var token := seq(64, _ => '0');
    c := C.Transport(1, true, false, false, false, seq(32, _ => '0'), token, MAX_UNACKED_BYTES,
                     0, 0, 0, [], 1, 0, 0, [7]);
    answer := Resumed(0, 0, token);
    assert IsHexOfLength(token, 64);
    hide IsHexOfLength;
  }

  /**
   * A resume request on any socket but the attached one takes the session over
   * exactly when its token and offsets still fit, however late it arrives; the
   * page on the attached socket is then told `superseded` and closes.
   */
  lemma TakeoverExactlyWhenItFits(r: R.Relay, c: C.Transport, ws: nat, token: string,
                                  clientAck: int, serverAck: int, newToken: string)
    requires r.live && r.Valid() && r.attached == Some(c.ws) && ws != c.ws && c.Valid() && !c.closed
    ensures var reply := R.OnResume(r, ws, r.id, r.origin, token, clientAck, serverAck, newToken);
      (reply.relay.attached == Some(ws) <==> R.TokenFits(r, token) && R.OffsetsFit(r, clientAck, serverAck)) &&
      (reply.relay.attached == Some(ws) ==>
         reply.sends != [] && reply.sends[0] == R.Sent(c.ws, Error(Superseded)) &&
         C.Receive(c, c.ws, c.ws > 0, reply.sends[0].frame).client.closed)
  {
    hide R.WriteChain;
  }

  lemma {:induction false} OneMoreEvent(s: World, events: seq<Event>, s1: World, e: Event)
    requires Reaches(s, events, s1) && Legal(s1) && Enabled(s1, e)
    ensures Reaches(s, events + [e], Next(s1, e))
    decreases |events|
  {
    hide Legal, Enabled, Next;
    if events == [] {
      assert [e][1..] == [];
    } else {
      assert (events + [e])[1..] == events[1..] + [e];
      OneMoreEvent(Next(s, events[0]), events[1..], s1, e);
    }
  }

  /** A page that has sent and read nothing. */
  function Page(id: string, token: string, ws: nat, open_: bool, attached: bool): C.Transport {
    C.Fresh(ws).(open := open_, attached := attached, sessionId := id, token := token,
                 maxUnackedBytes := MAX_UNACKED_BYTES)
  }

  /** A relay session over which nothing has been sent. */
  function Session(id: string, origin: string, token: string, previous: Option<string>, ws: nat): R.Relay {
    R.Connected(id, origin, token, ws).(previousToken := previous)
  }

  lemma IdleIsLegal(s: World, id: string, token: string, open_: bool, origin: string, current: string,
                    previous: Option<string>, ws: nat)
    requires s.client == Page(id, token, s.client.ws, open_, s.client.attached)
    requires s.relay == Session(id, origin, current, previous, ws)
    ensures Legal(s)
  {
  }

  lemma MayReceive(s: World, ws: nat, reconnect: bool, f: V2Frame)
    requires f in s.down
    ensures Enabled(s, ClientReceives(ws, reconnect, f))
  {
  }

  /** The event leaves a page attached on its first socket, and the relay as it was. */
  ghost predicate Attaches(s: World, e: Event, id: string, token: string)
    requires Legal(s) && Enabled(s, e)
  {
    Next(s, e).client == Page(id, token, 0, true, true) && Next(s, e).relay == s.relay
  }

  lemma ReadyArrives(s: World, id: string, token: string, grace: Option<int>, cap: Option<int>)
    requires Legal(s) && s.client == C.Fresh(0) && C.ReadyFits(id, token, MAX_UNACKED_BYTES, grace, cap)
    requires Enabled(s, ClientReceives(0, false, Ready(id, token, MAX_UNACKED_BYTES, grace, cap)))
    ensures Attaches(s, ClientReceives(0, false, Ready(id, token, MAX_UNACKED_BYTES, grace, cap)), id, token)
  {
    hide C.ReadyFits, C.Receive, C.Message, Legal, Enabled, Next, ClientSends, Page, C.Fresh, C.Transport.Valid;
    var f := Ready(id, token, MAX_UNACKED_BYTES, grace, cap);
    FirstPage(id, token);
    ReceiveIs(s, 0, false, f);
    LegalEnds(s);
    MessageIsReady(s.client, id, token, grace, cap);
    TakenIsMessage(s.client, false, f);
  }

  lemma FirstPage(id: string, token: string)
    ensures C.Fresh(0).ws == 0 && !C.Fresh(0).closed
    ensures C.Fresh(0).(sessionId := id, token := token, maxUnackedBytes := MAX_UNACKED_BYTES, attached := true)
         == Page(id, token, 0, true, true)
  {
  }

  lemma TakenIsMessage(c: C.Transport, reconnect: bool, f: V2Frame)
    requires c.Valid() && !c.closed && C.Message(c, reconnect, f).verdict.Taken?
    ensures C.Receive(c, c.ws, reconnect, f) == C.Message(c, reconnect, f)
  {
    hide C.Message;
  }

  lemma MessageIsReady(c: C.Transport, id: string, token: string, grace: Option<int>, cap: Option<int>)
    requires c.Valid() && C.ReadyFits(id, token, MAX_UNACKED_BYTES, grace, cap)
    ensures C.Message(c, false, Ready(id, token, MAX_UNACKED_BYTES, grace, cap)) == C.Reply(
      c.(sessionId := id, token := token, maxUnackedBytes := MAX_UNACKED_BYTES, attached := true), C.Taken, [])
  {
    hide C.ReadyFits;
  }

  lemma TwoEvents(s: World, e1: Event, e2: Event)
    requires Legal(s) && Enabled(s, e1) && Legal(Next(s, e1)) && Enabled(Next(s, e1), e2)
    ensures Reaches(s, [e1, e2], Next(Next(s, e1), e2))
  {
    hide Legal, Enabled, Next;
    var events := [e1, e2];
    assert events[1..] == [e2] && [e2][1..] == [];
    assert Reaches(Next(s, e1), [e2], Next(Next(s, e1), e2));
  }

  lemma Drops(s: World, id: string, token: string, attached: bool)
    requires Legal(s) && s.client == Page(id, token, s.client.ws, true, attached)
    ensures Enabled(s, ClientDrops) && Next(s, ClientDrops).relay == s.relay && Next(s, ClientDrops).up == s.up
    ensures Next(s, ClientDrops).client == Page(id, token, s.client.ws, false, false)
  {
    hide Legal;
  }

  lemma Reopens(s: World, id: string, token: string, ws: nat)
    requires Legal(s) && s.client == Page(id, token, s.client.ws, false, false) && id != ""
    ensures var e := ClientReopens(ws);
      Enabled(s, e) && Next(s, e).relay == s.relay && Next(s, e).up == s.up + {Resume(id, token, 0, 0)} &&
      Next(s, e).client == Page(id, token, ws, true, false)
  {
    hide Legal;
  }

  /** The page's socket drops and it opens another, which carries its request. */
  lemma DropAndReopen(s: World, id: string, token: string, attached: bool, origin: string, ws: nat)
      returns (events: seq<Event>, s': World)
    requires s.client == Page(id, token, s.client.ws, true, attached) && s.client.attached == attached && id != ""
    requires s.relay == Session(id, origin, token, None, 0)
    ensures Reaches(s, events, s')
    ensures s'.client == Page(id, token, ws, true, false) && s'.relay == s.relay
    ensures Resume(id, token, 0, 0) in s'.up && s.up <= s'.up
  {
    hide Legal, Next, Enabled, Reaches;
    IdleIsLegal(s, id, token, true, origin, token, None, 0);
    Drops(s, id, token, attached);
    var s1 := Next(s, ClientDrops);
    IdleIsLegal(s1, id, token, false, origin, token, None, 0);
    Reopens(s1, id, token, ws);
    TwoEvents(s, ClientDrops, ClientReopens(ws));
    return [ClientDrops, ClientReopens(ws)], Next(s1, ClientReopens(ws));
  }

  lemma {:induction false} RunsJoin(s: World, a: seq<Event>, s1: World, b: seq<Event>, s2: World)
    requires Reaches(s, a, s1) && Reaches(s1, b, s2)
    ensures Reaches(s, a + b, s2)
    decreases |a|
  {
    hide Legal, Enabled, Next;
    if a == [] {
      assert a + b == b;
    } else {
      assert (a + b)[1..] == a[1..] + b;
      RunsJoin(Next(s, a[0]), a[1..], s1, b, s2);
    }
  }

  /** The page lost its first socket, gave up on a second and opened a third; both of those carry the same request. */
  lemma TwoRequests(id: string, origin: string, token: string, grace: Option<int>, cap: Option<int>)
      returns (events: seq<Event>, s: World)
    requires C.ReadyFits(id, token, MAX_UNACKED_BYTES, grace, cap)
    ensures Reaches(Init(id, origin, token, grace, cap), events, s)
    ensures s.relay == Session(id, origin, token, None, 0) && Resume(id, token, 0, 0) in s.up
    ensures s.client == Page(id, token, 2, true, false)
  {
    hide C.ReadyFits, Next, Enabled, Legal, Reaches;
    var s0, first, s1 := Opened(id, origin, token, grace, cap);
    var second, s2 := DropAndReopen(s1, id, token, true, origin, 1);
    var third, s3 := DropAndReopen(s2, id, token, false, origin, 2);
    RunsJoin(s0, first, s1, second, s2);
    RunsJoin(s0, first + second, s2, third, s3);
    return first + second + third, s3;
  }

  lemma Opened(id: string, origin: string, token: string, grace: Option<int>, cap: Option<int>)
      returns (s0: World, events: seq<Event>, s: World)
    requires C.ReadyFits(id, token, MAX_UNACKED_BYTES, grace, cap)
    ensures s0 == Init(id, origin, token, grace, cap) && Reaches(s0, events, s) && id != ""
    ensures s.client == Page(id, token, 0, true, true) && s.relay == Session(id, origin, token, None, 0)
  {
    hide Next, Enabled, Legal;
    s0 := Init(id, origin, token, grace, cap);
    StartsLegal(id, origin, token, grace, cap);
    MayReceive(s0, 0, false, Ready(id, token, MAX_UNACKED_BYTES, grace, cap));
    ReadyArrives(s0, id, token, grace, cap);
    var e := ClientReceives(0, false, Ready(id, token, MAX_UNACKED_BYTES, grace, cap));
    events, s := [e], Next(s0, e);
    assert events[1..] == [];
  }

  lemma StartsLegal(id: string, origin: string, token: string, grace: Option<int>, cap: Option<int>)
    ensures Legal(Init(id, origin, token, grace, cap))
  {
    hide Init;
    InitIsValid(id, origin, token, grace, cap);
  }

  /** The relay serves the request on this socket and tells the one it supersedes. */
  lemma RequestServed(s: World, id: string, origin: string, token: string, current: string, previous: Option<string>,
                      old_: nat, ws: nat, newToken: string)
    requires Legal(s) && s.relay == Session(id, origin, current, previous, old_) && Resume(id, token, 0, 0) in s.up
    requires token == current || previous == Some(token)
    ensures var e := RelayResumes(ws, origin, Resume(id, token, 0, 0), newToken);
      var s' := Next(s, e);
      Enabled(s, e) && s'.client == s.client && s'.up == s.up &&
      s'.relay == Session(id, origin, newToken, if token == current then Some(current) else previous, ws) &&
      Error(Superseded) in s'.down && Resumed(0, 0, newToken) in s'.down
  {
    hide Legal, R.OnResume;
    RequestReply(s.relay, id, origin, token, current, previous, old_, ws, newToken);
    var sends := [R.Sent(old_, Error(Superseded)), R.Sent(ws, Resumed(0, 0, newToken))];
    assert sends[0] in sends && sends[1] in sends;
  }

  lemma RequestReply(r: R.Relay, id: string, origin: string, token: string, current: string, previous: Option<string>,
                     old_: nat, ws: nat, newToken: string)
    requires r.Valid() && r == Session(id, origin, current, previous, old_)
    requires token == current || previous == Some(token)
    ensures R.OnResume(r, ws, id, origin, token, 0, 0, newToken) == R.Reply(
      Session(id, origin, newToken, if token == current then Some(current) else previous, ws), Accepted,
      [R.Sent(old_, Error(Superseded)), R.Sent(ws, Resumed(0, 0, newToken))], [])
  {
  }

  lemma AnswerArrives(s: World, id: string, token: string, token1: string)
    requires Legal(s) && s.client == Page(id, token, 2, true, false) && IsHexOfLength(token1, 64)
    requires Resumed(0, 0, token1) in s.down
    ensures var e := ClientReceives(2, true, Resumed(0, 0, token1));
      Enabled(s, e) && Next(s, e).client == Page(id, token1, 2, true, true) &&
      Next(s, e).relay == s.relay && s.up <= Next(s, e).up
  {
    hide Legal, IsHexOfLength;
    assert s.client.Valid();
  }

  lemma ErrorArrives(s: World, code: ErrorCode)
    requires Legal(s) && !s.client.closed && Error(code) in s.down
    ensures var e := ClientReceives(s.client.ws, true, Error(code));
      Enabled(s, e) && Next(s, e).client.closed && Next(s, e).relay == s.relay
  {
  }

  /**
   * It happens in every session: the request on the third socket is served and
   * the page is attached again; then the request on the second, which the page
   * gave up, arrives, takes the session, and the page closes.
   */
  lemma LateResumeTakesOver(id: string, origin: string, token: string, grace: Option<int>, cap: Option<int>,
                            token1: string, token2: string)
      returns (before: seq<Event>, held: World, later: seq<Event>, lost: World)
    requires C.ReadyFits(id, token, MAX_UNACKED_BYTES, grace, cap) && IsHexOfLength(token1, 64)
    ensures Reaches(Init(id, origin, token, grace, cap), before, held)
    ensures held.client.attached && !held.client.closed && held.relay.attached == Some(held.client.ws)
    ensures Reaches(held, later, lost) && lost.relay.live && lost.relay.attached == Some(1) && lost.client.closed
  {
    hide C.ReadyFits, IsHexOfLength, Next, Enabled, Legal, Init;
    var events, s := TwoRequests(id, origin, token, grace, cap);
    var s0 := Init(id, origin, token, grace, cap);
    var request := Resume(id, token, 0, 0);
    IdleIsLegal(s, id, token, true, origin, token, None, 0);
    RequestServed(s, id, origin, token, token, None, 0, 2, token1);
    var e1, e2 := RelayResumes(2, origin, request, token1), ClientReceives(2, true, Resumed(0, 0, token1));
    var s1 := Next(s, e1);
    IdleIsLegal(s1, id, token, true, origin, token1, Some(token), 2);
    AnswerArrives(s1, id, token, token1);
    held := Next(s1, e2);
    OneMoreEvent(s0, events, s, e1);
    OneMoreEvent(s0, events + [e1], s1, e2);
    before := events + [e1] + [e2];
    later, lost := TakenOver(held, id, origin, token, token1, token2);
  }

  lemma TakenOver(held: World, id: string, origin: string, token: string, token1: string, token2: string)
      returns (later: seq<Event>, lost: World)
    requires held.client == Page(id, token1, 2, true, true) && Resume(id, token, 0, 0) in held.up
    requires held.relay == Session(id, origin, token1, Some(token), 2)
    ensures Reaches(held, later, lost) && lost.relay.live && lost.relay.attached == Some(1) && lost.client.closed
  {
    hide Next, Enabled, Legal, Reaches;
    var e3, e4 := RelayResumes(1, origin, Resume(id, token, 0, 0), token2), ClientReceives(2, true, Error(Superseded));
    IdleIsLegal(held, id, token1, true, origin, token1, Some(token), 2);
    RequestServed(held, id, origin, token, token1, Some(token), 2, 1, token2);
    var s3 := Next(held, e3);
    var previous := if token == token1 then Some(token1) else Some(token);
    IdleIsLegal(s3, id, token1, true, origin, token2, previous, 1);
    ErrorArrives(s3, Superseded);
    TwoEvents(held, e3, e4);
    return [e3, e4], Next(s3, e4);
  }

  /**
   * So a token stops working once the page has spoken on a newer attachment: the
   * frame clears the previous token, and only the current one still fits.
   */
  lemma FirstFrameRetiresOldToken(r: R.Relay, ws: nat, frame: Option<V2Frame>, token: string)
    requires r.live && r.Valid() && r.attached == Some(ws)
    ensures var after := R.OnMessage(r, ws, frame).relay;
      after.token == r.token && (R.TokenFits(after, token) <==> token == r.token)
  {
    hide R.WriteChain, R.ReplayMatches, R.TrimHistory;
  }

  // ---- The announced limit ----

  /** Every `ready` on its way announces the full window. */
  ghost predicate FullReadies(s: World) {
    forall f :: f in s.down && f.Ready? ==> f.maxUnackedBytes == MAX_UNACKED_BYTES
  }

  lemma ClientStaysBounded(s: World, e: Event)
    requires Legal(s) && Enabled(s, e) && FullReadies(s) && s.client.Bounded()
    ensures Next(s, e).client.Bounded()
  {
    hide C.Write, C.Read, C.SendAck, C.Receive, R.OnMessage, R.OnResume, R.OnTargetData, R.SendData, R.OnWriteDone,
         R.Revoke, Legal;
    assert s.client.Valid() by { LegalEnds(s); }
    match e
    case ClientWrites(p) => C.WriteKeepsWindows(s.client, p);
    case ClientReads(n) => C.ReadKeepsWindows(s.client, n);
    case AckTimer => AckStaysBounded(s.client);
    case ClientReceives(ws, reconnect, f) => FrameStaysBounded(s.client, ws, reconnect, f);
    case _ =>
  }

  lemma LegalEnds(s: World)
    requires Legal(s)
    ensures s.client.Valid() && s.relay.Valid()
  {
  }

  lemma AckStaysBounded(c: C.Transport)
    requires c.Bounded()
    ensures C.SendAck(c).0.Bounded()
  {
  }

  lemma FrameStaysBounded(c: C.Transport, ws: nat, reconnect: bool, f: V2Frame)
    requires c.Valid() && c.Bounded() && (f.Ready? ==> f.maxUnackedBytes == MAX_UNACKED_BYTES)
    ensures C.Receive(c, ws, reconnect, f).client.Bounded()
  {
    C.ReceiveKeepsWindows(c, ws, reconnect, f);
    hide C.OnResumed, C.OnData, C.OnAck;
  }

  lemma RelaySendsNoReady(s: World, e: Event)
    requires Legal(s) && Enabled(s, e)
    ensures forall x :: x in RelaySends(s, e) ==> !x.frame.Ready?
  {
    hide R.WriteChain, R.ReplayMatches, R.TrimHistory;
  }

  lemma {:induction false} RunStaysBounded(s: World, events: seq<Event>, s': World)
    requires Inv(s) && FullReadies(s) && s.client.Bounded() && Reaches(s, events, s')
    ensures s'.client.Bounded()
    decreases |events|
  {
    hide Inv, Next, Enabled, RelaySends, Legal;
    if events != [] {
      ClientStaysBounded(s, events[0]);
      RelaySendsNoReady(s, events[0]);
      StepSends(s, events[0]);
      StepKeepsStreams(s, events[0]);
      RunStaysBounded(Next(s, events[0]), events[1..], s');
    }
  }

  /**
   * This relay announces the full window once, so a page that talks to it keeps
   * both buffers within the announced limit in every run, however the network
   * repeats that `ready`. Only another relay can make the bound fail.
   */
  lemma BoundHoldsWithThisRelay(id: string, origin: string, token: string, grace: Option<int>, cap: Option<int>,
                                events: seq<Event>, s: World)
    requires Reaches(Init(id, origin, token, grace, cap), events, s)
    ensures s.client.Bounded()
  {
    hide Reaches, Inv;
    InitHasStreams(id, origin, token, grace, cap);
    RunStaysBounded(Init(id, origin, token, grace, cap), events, s);
  }
}
