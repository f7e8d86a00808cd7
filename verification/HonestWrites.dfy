/**
 * Whatever the application writes, an honest pair gets all of it to the target.
 *
 * Write offers what is left again and again, as the window has room for it. In whatever
 * state a live session is, it can be continued so that all bytes offered are taken in
 * order, in turns of up to 262144 bytes with a settled pair in between, and delivered.
 */
module HonestWrites {
  import opened Frames
  import C = ClientNode
  import P = PageHandlers
  import R = RelayNode
  import H = RelayHandlers
  import opened World
  import opened Wire
  import opened HonestPair
  import opened HonestWindows
  import opened HonestRuns
  import opened HonestRest
  import opened HonestRecovery

  /** A settled page with nothing pending takes 262144 bytes, or all there are. */
  lemma SettledTakes(p: Pair, q: seq<byte>)
    requires Live(p) && Settled(p) && p.core.client.pending == []
    ensures var m := Local(ClientWrites(q));
      var n := if |q| < 262144 then |q| else 262144;
      MayMove(p, m) && Drained(p, m) &&
      var p' := After(p, m);
      Live(p') && CanHear(p') && p'.core.W == p.core.W + q[..n] && p'.core.T == p.core.T &&
      p'.core.relay == p.core.relay
  {
    hide Inv, Good, Legal, QueuesSent, After, Next, C.Write;
    var m := Local(ClientWrites(q));
    SettledIsOpen(p);
    LegalNow(p);
    LegalClient(p.core);
    EmptyTakes(p.core.client, q);
    MoveKeeps(p, m);
    AfterLocal(p, ClientWrites(q));
    WriteIs(p.core, q);
  }

  lemma SettledIsOpen(p: Pair)
    requires Live(p) && Settled(p)
    ensures p.core.client.open && !p.core.client.closed && p.core.client.maxUnackedBytes == 262144
  {
    hide Inv, Waiting, UpOk, DownOk, WellFormed, Ungreeted, IsSessionId, IsToken;
  }

  lemma EmptyTakes(c: C.Transport, q: seq<byte>)
    requires c.Valid() && !c.closed && c.maxUnackedBytes == 262144 && c.pending == []
    ensures C.Write(c, q).1 == if |q| < 262144 then |q| else 262144
    ensures C.Write(c, q).0.open == c.open
  {
    hide C.Write;
    P.WriteTakes(c, q);
    var n := C.Write(c, q).1;
    assert |c.pending + q[..n]| == n;
  }

  lemma WriteIs(s: World, q: seq<byte>)
    requires Legal(s)
    ensures var s' := Next(s, ClientWrites(q));
      s'.client == C.Write(s.client, q).0 && s'.W == s.W + q[..C.Write(s.client, q).1] &&
      s'.T == s.T && s'.relay == s.relay
  {
    hide Legal, C.Write;
  }

  /**
   * Every live run can be continued, with any bytes offered, to a settled pair whose
   * target has them all, after everything the page had written before and in order.
   */
  lemma {:induction false} EveryWriteArrives(id: string, origin: string, token: string, grace: Option<int>,
                                             cap: Option<int>, moves: seq<Move>, p: Pair, q: seq<byte>)
      returns (more: seq<Move>, p': Pair)
    requires Opening(id, token, grace, cap) && Leads(Start(id, origin, token, grace, cap), moves, p)
    requires Alive(p) && CanHear(p)
    ensures Leads(p, more, p') && Alive(p') && Settled(p') && p'.core.T == p.core.T
    ensures p'.core.W == p.core.W + q && p'.core.delivered == p.core.W + q
    decreases |q|
  {
    hide PairInv, Start, Leads, Opening, MayMove, After, Settled, CanHear, Alive;
    more, p' := EveryLivePairSettles(id, origin, token, grace, cap, moves, p);
    if q == [] {
      assert p.core.W + q == p.core.W;
      return;
    }
    var start, m := Start(id, origin, token, grace, cap), Local(ClientWrites(q));
    var n := if |q| < 262144 then |q| else 262144;
    LeadsJoin(start, moves, p, more, p');
    StartIsGood(id, origin, token, grace, cap);
    RunKeeps(start, moves + more, p');
    SettledTakes(p', q);
    OneMoreMove(start, moves + more, p', m);
    OneMoreMove(p, more, p', m);
    var p1 := After(p', m);
    var rest, end := EveryWriteArrives(id, origin, token, grace, cap, moves + more + [m], p1, q[n..]);
    LeadsJoin(p, more + [m], p1, rest, end);
    assert p.core.W + q[..n] + q[n..] == p.core.W + q;
    return more + [m] + rest, end;
  }

  // ---- The other direction ----

  /** A relay with nothing retained takes 262144 bytes of what the target has produced, or all there are. */
  lemma SettledRetains(p: Pair, n: nat)
    requires Live(p) && Settled(p) && p.core.relay.retained == []
    requires n <= 262144 && p.core.relay.serverOffset + n <= |p.core.T|
    ensures var m := Local(TargetData(n));
      MayMove(p, m) && Drained(p, m) &&
      var p' := After(p, m);
      Live(p') && CanHear(p') && p'.core.W == p.core.W && p'.core.T == p.core.T &&
      p'.core.relay.serverOffset == p.core.relay.serverOffset + n
  {
    hide Inv, Good, Legal, QueuesSent, After, Next, R.OnTargetData;
    var m := Local(TargetData(n));
    SettledIsOpen(p);
    LegalNow(p);
    LegalRelay(p.core);
    MoveKeeps(p, m);
    AfterLocal(p, TargetData(n));
    TargetDataIs(p.core, n);
    H.TargetChunk(p.core.relay, p.core.T[p.core.relay.serverOffset..p.core.relay.serverOffset + n]);
  }

  lemma TargetDataIs(s: World, n: nat)
    requires Legal(s) && s.relay.live && s.relay.serverOffset + n <= |s.T|
    ensures var s' := Next(s, TargetData(n));
      s'.relay == R.OnTargetData(s.relay, s.T[s.relay.serverOffset..s.relay.serverOffset + n]).0 &&
      s'.client == s.client && s'.T == s.T && s'.W == s.W
  {
    hide Legal, R.OnTargetData;
  }

  lemma SettledHasRead(p: Pair)
    requires Live(p) && Settled(p)
    ensures p.core.relay.serverOffset <= |p.core.T| && p.core.read == p.core.T[..p.core.relay.serverOffset]
  {
    hide PairInv, AtRest, Good;
    AliveIsGood(p);
    RestReaches(p);
  }

  /**
   * Every live run can be continued to a settled pair whose application has read
   * everything the target has ever produced, taken or not when the run ended.
   */
  lemma {:induction false} EverythingProducedIsRead(id: string, origin: string, token: string, grace: Option<int>,
                                                    cap: Option<int>, moves: seq<Move>, p: Pair)
      returns (more: seq<Move>, p': Pair)
    requires Opening(id, token, grace, cap) && Leads(Start(id, origin, token, grace, cap), moves, p)
    requires Alive(p) && CanHear(p)
    ensures Leads(p, more, p') && Alive(p') && Settled(p') && p'.core.W == p.core.W && p'.core.T == p.core.T
    ensures p'.core.delivered == p.core.W && p'.core.read == p.core.T
    decreases |p.core.T| - p.core.relay.serverOffset
  {
    hide PairInv, Start, Leads, Opening, MayMove, After, Settled, CanHear, Alive;
    more, p' := EveryLivePairSettles(id, origin, token, grace, cap, moves, p);
    var left := |p.core.T| - p'.core.relay.serverOffset;
    var start := Start(id, origin, token, grace, cap);
    LeadsJoin(start, moves, p, more, p');
    StartIsGood(id, origin, token, grace, cap);
    RunKeeps(start, moves + more, p');
    SettledHasRead(p');
    if left == 0 {
      return;
    }
    var n := if left < 262144 then left else 262144;
    var m := Local(TargetData(n));
    SettledRetains(p', n);
    OneMoreMove(start, moves + more, p', m);
    OneMoreMove(p, more, p', m);
    var rest, end := EverythingProducedIsRead(id, origin, token, grace, cap, moves + more + [m], After(p', m));
    LeadsJoin(p, more + [m], After(p', m), rest, end);
    return more + [m] + rest, end;
  }
}
