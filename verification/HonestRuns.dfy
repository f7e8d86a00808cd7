/** What every run of the honest pair guarantees. */
module HonestRuns {
  import opened Frames
  import C = ClientNode
  import R = RelayNode
  import opened World
  import opened Wire
  import opened HonestPair
  import opened HonestWindows

  // ---- Runs keep the invariants ----

  /** What the relay draws and grants when it accepts a connect frame. */
  predicate Opening(id: string, token: string, grace: Option<int>, cap: Option<int>) {
    IsSessionId(id) && IsToken(token) && C.ReadyFits(id, token, MAX_UNACKED_BYTES, grace, cap)
  }

  lemma StartIsGood(id: string, origin: string, token: string, grace: Option<int>, cap: Option<int>)
    requires Opening(id, token, grace, cap)
    ensures PairInv(Start(id, origin, token, grace, cap))
  {
    hide Inv, Good, Opening, Start, WellFormed;
    StartsWellFormed(id, origin, token, grace, cap);
    StartsGood(id, origin, token, grace, cap);
  }

  lemma StartsWellFormed(id: string, origin: string, token: string, grace: Option<int>, cap: Option<int>)
    ensures var p := Start(id, origin, token, grace, cap);
      WellFormed(p) && Inv(p.core)
  {
    hide Inv, Legal, SetOf;
    InitHasStreams(id, origin, token, grace, cap);
    InvIsLegal(Init(id, origin, token, grace, cap));
    SetOfOne(Ready(id, token, MAX_UNACKED_BYTES, grace, cap));
  }

  lemma SetOfOne(f: V2Frame)
    ensures SetOf([f]) == {f} && SetOf([]) == {}
  {
  }

  lemma StartsGood(id: string, origin: string, token: string, grace: Option<int>, cap: Option<int>)
    requires Opening(id, token, grace, cap)
    ensures Good(Start(id, origin, token, grace, cap))
  {
    hide C.ReadyFits, IsSessionId, IsToken;
    var p := Start(id, origin, token, grace, cap);
    assert p.links[0].down[1..] == [];
    assert Shape(p) && Ungreeted(p) && Waiting(p) && AttachedOk(p);
    hide Ungreeted, Shape;
    assert UpOk(p) && DownOk(p);
  }

  lemma InvIsLegal(s: World)
    requires Inv(s)
    ensures Legal(s)
  {
  }

  lemma {:induction false} RunKeeps(p: Pair, moves: seq<Move>, p': Pair)
    requires PairInv(p) && Leads(p, moves, p')
    ensures PairInv(p')
    decreases |moves|
  {
    hide PairInv, MayMove, After;
    if moves != [] {
      MoveKeeps(p, moves[0]);
      RunKeeps(After(p, moves[0]), moves[1..], p');
    }
  }

  /**
   * An honest pair never rejects itself. After every run in which sockets deliver
   * in order, no abandoned resume overtakes a later one and the page resumes with
   * an empty receive buffer, neither end refuses any frame the other sent, and
   * only a close by the page or a revocation by the relay ends the session.
   */
  lemma NeverRefuses(id: string, origin: string, token: string, grace: Option<int>, cap: Option<int>,
                     moves: seq<Move>, p: Pair, m: Move)
    requires Opening(id, token, grace, cap) && Leads(Start(id, origin, token, grace, cap), moves, p)
    requires Alive(p) && MayMove(p, m) && Drained(p, m)
    ensures !Refuses(p, m)
    ensures !EndsSession(m) ==> Alive(After(p, m))
  {
    hide PairInv, Start, Leads, After, Opening, MayMove;
    StartIsGood(id, origin, token, grace, cap);
    RunKeeps(Start(id, origin, token, grace, cap), moves, p);
    MoveKeeps(p, m);
  }

  /**
   * Token rotation never strands the page: after every such run the token it
   * holds is the current one or the one before, and the relay has forgotten the
   * one before only when the page holds the current one.
   */
  lemma TokenNeverStranded(id: string, origin: string, token: string, grace: Option<int>, cap: Option<int>,
                           moves: seq<Move>, p: Pair)
    requires Opening(id, token, grace, cap) && Leads(Start(id, origin, token, grace, cap), moves, p)
    requires Alive(p) && p.core.client.sessionId != ""
    ensures var c, r := p.core.client, p.core.relay;
      c.sessionId == r.id && (c.token == r.token || r.previousToken == Some(c.token)) &&
      (r.previousToken == None ==> c.token == r.token) &&
      (c.attached ==> c.token == r.token)
  {
    hide PairInv, Start, Leads, Opening, Good;
    StartIsGood(id, origin, token, grace, cap);
    RunKeeps(Start(id, origin, token, grace, cap), moves, p);
    assert Good(p) by { AliveIsGood(p); }
    GoodTokens(p);
  }

  lemma AliveIsGood(p: Pair)
    requires PairInv(p) && Alive(p)
    ensures Good(p)
  {
    hide Good, Inv, WellFormed;
  }

  lemma GoodTokens(p: Pair)
    requires Good(p) && p.core.client.sessionId != ""
    ensures var c, r := p.core.client, p.core.relay;
      c.sessionId == r.id && R.TokenFits(r, c.token) && (c.attached ==> c.token == r.token)
  {
    hide Waiting, UpOk, DownOk, IsSessionId, IsToken, R.TokenFits;
  }

  /** Both ends attached on the same socket, nothing in flight, everything retained has been sent. */
  predicate AtRest(p: Pair) {
    p.core.client.attached && p.core.relay.attached.Some? && p.links != [] &&
    p.links[|p.links| - 1] == Link([], []) && p.core.relay.serverSent == p.core.relay.serverOffset
  }

  /**
   * No byte is stuck: after every such run, drops and resumes included, once the
   * pair is attached with nothing in flight, the target has every byte the page
   * wrote and the page has every byte the relay took from the target.
   */
  lemma NothingStuckAtRest(id: string, origin: string, token: string, grace: Option<int>, cap: Option<int>,
                           moves: seq<Move>, p: Pair)
    requires Opening(id, token, grace, cap) && Leads(Start(id, origin, token, grace, cap), moves, p)
    requires Alive(p) && AtRest(p)
    ensures p.core.delivered == p.core.W
    ensures p.core.relay.serverOffset <= |p.core.T|
    ensures p.core.read + p.core.client.received == p.core.T[..p.core.relay.serverOffset]
  {
    hide PairInv, Start, Leads, Opening, Good, AtRest;
    StartIsGood(id, origin, token, grace, cap);
    RunKeeps(Start(id, origin, token, grace, cap), moves, p);
    AliveIsGood(p);
    RestReaches(p);
  }

  lemma RestReaches(p: Pair)
    requires PairInv(p) && Good(p) && AtRest(p)
    ensures p.core.delivered == p.core.W
    ensures p.core.relay.serverOffset <= |p.core.T|
    ensures p.core.read + p.core.client.received == p.core.T[..p.core.relay.serverOffset]
  {
    hide Waiting, HelloOk, AllUpHonest, AllDownHonest, Greeted, Ungreeted, IsSessionId, IsToken, R.WriteChain,
         QueuesSent;
    var c, r := p.core.client, p.core.relay;
    assert UpEnd([], p.upNext) == p.upNext;
    assert r.clientOffset == |p.core.W|;
    SlicesJoin(p.core.T, 0, c.serverAck, c.serverOffset);
  }

  /** Every run of the honest pair is a run of World, so its streams are exactly-once too. */
  lemma {:induction false} RunsAreWorldRuns(p: Pair, moves: seq<Move>, p': Pair) returns (events: seq<Event>)
    requires Leads(p, moves, p')
    ensures Reaches(p.core, events, p'.core)
    decreases |moves|
  {
    hide Next, After, Legal, Enabled;
    if moves == [] {
      events := [];
    } else {
      AfterCore(p, moves[0]);
      var rest := RunsAreWorldRuns(After(p, moves[0]), moves[1..], p');
      events := [EventOf(p, moves[0])] + rest;
      assert events[1..] == rest;
    }
  }

  // ---- Windows reopen ----

  lemma {:induction false} RunTells(p: Pair, moves: seq<Move>, p': Pair)
    requires PairInv(p) && (Alive(p) ==> Told(p)) && Leads(p, moves, p')
    ensures Alive(p') ==> Told(p')
    decreases |moves|
  {
    hide PairInv, MayMove, After, Told, Alive;
    if moves != [] {
      MoveKeeps(p, moves[0]);
      if Alive(p) && !EndsSession(moves[0]) {
        MoveTells(p, moves[0]);
      } else {
        DeadStaysDead(p, moves[0]);
      }
      RunTells(After(p, moves[0]), moves[1..], p');
    }
  }

  lemma StartTells(id: string, origin: string, token: string, grace: Option<int>, cap: Option<int>)
    ensures Told(Start(id, origin, token, grace, cap))
  {
    var f := Ready(id, token, MAX_UNACKED_BYTES, grace, cap);
    assert [f][1..] == [];
  }

  /** Nothing is in flight, the target confirmed every write, the application read and acknowledged everything. */
  predicate Settled(p: Pair) {
    AtRest(p) && p.core.relay.writes == [] && p.core.client.received == [] &&
    p.core.client.ackSent == p.core.client.serverAck
  }

  /**
   * Flow control never leaks: whatever dropped, resumed and repeated before, a
   * settled pair has both windows fully open, because each end knows that the
   * other has everything.
   */
  lemma WindowsReopen(id: string, origin: string, token: string, grace: Option<int>, cap: Option<int>,
                      moves: seq<Move>, p: Pair)
    requires Opening(id, token, grace, cap) && Leads(Start(id, origin, token, grace, cap), moves, p)
    requires Alive(p) && Settled(p)
    ensures p.core.client.pending == [] && p.core.client.clientAck == |p.core.W|
    ensures p.core.relay.retained == [] && p.core.relay.serverAck == p.core.relay.serverOffset
    ensures p.core.relay.pendingClientBytes == 0
  {
    hide PairInv, Start, Leads, Opening, Good, AtRest, Told;
    StartIsGood(id, origin, token, grace, cap);
    StartTells(id, origin, token, grace, cap);
    RunKeeps(Start(id, origin, token, grace, cap), moves, p);
    RunTells(Start(id, origin, token, grace, cap), moves, p);
    AliveIsGood(p);
    RestReaches(p);
    SettledReopens(p);
  }

  lemma SettledReopens(p: Pair)
    requires PairInv(p) && Alive(p) && Good(p) && Told(p) && Settled(p) && p.core.delivered == p.core.W
    ensures p.core.client.pending == [] && p.core.client.clientAck == |p.core.W|
    ensures p.core.relay.retained == [] && p.core.relay.serverAck == p.core.relay.serverOffset
    ensures p.core.relay.pendingClientBytes == 0
  {
    hide Waiting, HelloOk, AllUpHonest, AllDownHonest, Greeted, Ungreeted, IsSessionId, IsToken, QueuesSent, UpOk;
    var c, r := p.core.client, p.core.relay;
    assert R.WriteChain([], r.clientAck, r.clientOffset);
    assert p.bound == |p.links| - 1;
    LastAckOfOne(Detach, c.clientAck);
    LastAckOfOne(Detach, r.serverAck);
    assert |p.core.delivered| == r.clientOffset;
  }
}
