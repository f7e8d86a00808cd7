/**
 * The honest pair: the same two ends, but each socket delivers in order, and a
 * resume request that the page has abandoned does not arrive after a later one
 * was served. Every step is a step of World, so exactly-once holds here too;
 * what is proved on top is that the two ends never turn on each other.
 */
module Wire {
  import opened Frames
  import C = ClientNode
  import R = RelayNode
  import opened World

  /** One socket: frames on their way up to the relay and down to the page. */
  datatype Link = Link(up: seq<V2Frame>, down: seq<V2Frame>)

  /**
   * `links[k]` is socket k and the page uses the last one. `bound` is the last
   * socket the relay bound; `upNext` is the offset at which the next client data
   * frame on that socket starts.
   */
  datatype Pair = Pair(core: World, links: seq<Link>, bound: nat, upNext: int)

  datatype Move =
    | Local(e: Event)
    | Reopens
    | PageGets
    | RelayGets(ws: nat, newToken: string)

  function Start(id: string, origin: string, token: string, grace: Option<int>, cap: Option<int>): Pair {
    Pair(Init(id, origin, token, grace, cap), [Link([], [Ready(id, token, MAX_UNACKED_BYTES, grace, cap)])], 0, 0)
  }

  predicate IsLocal(e: Event) {
    !e.ClientReopens? && !e.ClientReceives? && !e.RelayReceives? && !e.RelayResumes?
  }

  /** Every frame in a queue was sent. */
  ghost predicate QueuesSent(p: Pair) {
    forall k :: 0 <= k < |p.links| ==> SetOf(p.links[k].up) <= p.core.up && SetOf(p.links[k].down) <= p.core.down
  }

  ghost predicate WellFormed(p: Pair) {
    Legal(p.core) && QueuesSent(p) && |p.links| > 0 && p.core.client.ws == |p.links| - 1
  }

  /** The event of World that a move is. */
  function EventOf(p: Pair, m: Move): Event
    requires CanMove(p, m)
  {
    match m
    case Local(e) => e
    case Reopens => ClientReopens(|p.links|)
    case PageGets => ClientReceives(|p.links| - 1, |p.links| > 1, p.links[|p.links| - 1].down[0])
    case RelayGets(ws, newToken) =>
      var f := p.links[ws].up[0];
      if f.Resume? then RelayResumes(ws, p.core.relay.origin, f, newToken) else RelayReceives(ws, f)
  }

  /** A socket has a next frame; a resume request on it is newer than the last one served. */
  predicate CanMove(p: Pair, m: Move) {
    match m
    case Local(e) => IsLocal(e) && Enabled(p.core, e)
    case Reopens => Enabled(p.core, ClientReopens(|p.links|))
    case PageGets => |p.links| > 0 && p.core.client.open && p.links[|p.links| - 1].down != []
    case RelayGets(ws, newToken) =>
      ws < |p.links| && p.links[ws].up != [] && IsToken(newToken) && (p.links[ws].up[0].Resume? ==> ws > p.bound)
  }

  ghost predicate MayMove(p: Pair, m: Move) {
    WellFormed(p) && CanMove(p, m) && Enabled(p.core, EventOf(p, m))
  }

  /** The page resumes with an empty receive buffer. */
  predicate Drained(p: Pair, m: Move) {
    m.Reopens? ==> p.core.client.received == []
  }

  function PushUp(links: seq<Link>, ws: nat, frames: seq<V2Frame>): seq<Link> {
    if ws < |links| then links[ws := links[ws].(up := links[ws].up + frames)] else links
  }

  function PushDown(links: seq<Link>, sends: seq<R.Sent>): seq<Link>
    decreases |sends|
  {
    if sends == [] then links
    else
      var ws := sends[0].ws;
      PushDown(if ws < |links| then links[ws := links[ws].(down := links[ws].down + [sends[0].frame])] else links,
               sends[1..])
  }

  /** The queues after a move: the delivered frame leaves, what the step sends joins. */
  ghost function NextLinks(p: Pair, m: Move): seq<Link>
    requires MayMove(p, m)
  {
    var e := EventOf(p, m);
    match m
    case Reopens => p.links + [Link(ClientSends(p.core, e), [])]
    case PageGets =>
      var cur := |p.links| - 1;
      PushUp(p.links[cur := p.links[cur].(down := p.links[cur].down[1..])], cur, ClientSends(p.core, e))
    case RelayGets(ws, _) =>
      PushDown(p.links[ws := p.links[ws].(up := p.links[ws].up[1..])], RelaySends(p.core, e))
    case Local(_) =>
      if IsClientEvent(e) then PushUp(p.links, |p.links| - 1, ClientSends(p.core, e))
      else PushDown(p.links, RelaySends(p.core, e))
  }

  ghost function After(p: Pair, m: Move): Pair
    requires MayMove(p, m)
  {
    var e := EventOf(p, m);
    var p' := Pair(Next(p.core, e), NextLinks(p, m), p.bound, p.upNext);
    match m
    case RelayGets(ws, _) =>
      var f := p.links[ws].up[0];
      if f.Resume? then p'.(bound := ws, upNext := p.core.relay.clientAck)
      else if f.Data? && ws == p.bound then p'.(upNext := f.offset + |f.payload|)
      else p'
    case _ => p'
  }

  /** p' is where the moves lead from p, resuming only with an empty buffer. */
  ghost predicate Leads(p: Pair, moves: seq<Move>, p': Pair)
    decreases |moves|
  {
    if moves == [] then p' == p
    else
      MayMove(p, moves[0]) && Drained(p, moves[0]) && Leads(After(p, moves[0]), moves[1..], p')
  }

  /** The session exists at the relay and the page has not closed its transport. */
  predicate Alive(p: Pair) {
    p.core.relay.live && !p.core.client.closed
  }

  /** One end refuses what the other sent. */
  ghost predicate Refuses(p: Pair, m: Move)
    requires MayMove(p, m)
  {
    match EventOf(p, m)
    case ClientReceives(ws, reconnect, f) => C.Receive(p.core.client, ws, reconnect, f).verdict.Failed?
    case RelayReceives(ws, f) => R.OnMessage(p.core.relay, ws, Some(f)).outcome.Rejected?
    case RelayResumes(ws, origin, f, newToken) =>
      R.OnResume(p.core.relay, ws, f.sessionId, origin, f.token, f.clientAck, f.serverAck, newToken).outcome.Rejected?
    case _ => false
  }

  // ---- Queues ----

  /**
   * Frames on the bound socket's way up: data continues at `next` without gaps,
   * acknowledgements never go back and stay within [lo, hi].
   */
  ghost predicate UpChain(up: seq<V2Frame>, next: int, lo: int, hi: int)
    decreases |up|
  {
    if up == [] then lo <= hi
    else
      match up[0]
      case Data(Client, offset, bytes) => offset == next && bytes != [] && UpChain(up[1..], next + |bytes|, lo, hi)
      case Ack(Server, offset) => lo <= offset && UpChain(up[1..], next, offset, hi)
      case Detach => UpChain(up[1..], next, lo, hi)
      case Ping => UpChain(up[1..], next, lo, hi)
      case _ => false
  }

  /** The offset at which the data on its way up ends. */
  ghost function UpEnd(up: seq<V2Frame>, next: int): int
    decreases |up|
  {
    if up == [] then next
    else UpEnd(up[1..], if up[0].Data? then next + |up[0].payload| else next)
  }

  /** Frames on their way down: data runs from `next` to `end`, acknowledgements rise within [lo, hi]. */
  ghost predicate DownChain(down: seq<V2Frame>, next: int, lo: int, end: int, hi: int)
    decreases |down|
  {
    if down == [] then next == end && lo <= hi
    else
      match down[0]
      case Data(Server, offset, bytes) =>
        offset == next && 0 < |bytes| <= SEND_CHUNK_BYTES && DownChain(down[1..], next + |bytes|, lo, end, hi)
      case Ack(Client, offset) => lo <= offset && DownChain(down[1..], next, offset, end, hi)
      case Pong => DownChain(down[1..], next, lo, end, hi)
      case _ => false
  }

  lemma {:induction false} UpChainAppend(up: seq<V2Frame>, more: seq<V2Frame>, next: int, lo: int, hi: int, mid: int,
                                         hi': int)
    requires UpChain(up, next, lo, hi) && UpChain(more, UpEnd(up, next), mid, hi') && hi <= mid
    ensures UpChain(up + more, next, lo, hi')
    ensures UpEnd(up + more, next) == UpEnd(more, UpEnd(up, next))
    decreases |up|
  {
    if up == [] {
      assert up + more == more;
      UpChainLowers(more, next, mid, hi', lo);
    } else {
      assert (up + more)[1..] == up[1..] + more;
      if up[0].Data? {
        UpChainAppend(up[1..], more, next + |up[0].payload|, lo, hi, mid, hi');
      } else if up[0].Ack? {
        UpChainAppend(up[1..], more, next, up[0].offset, hi, mid, hi');
      } else {
        UpChainAppend(up[1..], more, next, lo, hi, mid, hi');
      }
    }
  }

  lemma {:induction false} UpChainLowers(up: seq<V2Frame>, next: int, lo: int, hi: int, lo': int)
    requires UpChain(up, next, lo, hi) && lo' <= lo
    ensures UpChain(up, next, lo', hi) && lo <= hi
    decreases |up|
  {
    if up != [] {
      if up[0].Data? {
        UpChainLowers(up[1..], next + |up[0].payload|, lo, hi, lo');
      } else if up[0].Ack? {
        UpChainLowers(up[1..], next, up[0].offset, hi, up[0].offset);
      } else {
        UpChainLowers(up[1..], next, lo, hi, lo');
      }
    }
  }

  lemma {:induction false} UpChainRaises(up: seq<V2Frame>, next: int, lo: int, hi: int, hi': int)
    requires UpChain(up, next, lo, hi) && hi <= hi'
    ensures UpChain(up, next, lo, hi')
    decreases |up|
  {
    if up != [] {
      if up[0].Data? {
        UpChainRaises(up[1..], next + |up[0].payload|, lo, hi, hi');
      } else if up[0].Ack? {
        UpChainRaises(up[1..], next, up[0].offset, hi, hi');
      } else {
        UpChainRaises(up[1..], next, lo, hi, hi');
      }
    }
  }

  /** A client flush is an up-chain from clientSent to clientOffset. */
  lemma {:induction false} RunIsUpChain(frames: seq<V2Frame>, from: int, to: int, bytes: seq<byte>, lo: int, hi: int)
    requires DataRun(frames, Client, from, to, bytes) && lo <= hi
    ensures UpChain(frames, from, lo, hi) && UpEnd(frames, from) == to
    decreases |frames|
  {
    if frames != [] {
      var n := |frames[0].payload|;
      RunIsUpChain(frames[1..], from + n, to, bytes[n..], lo, hi);
    }
  }

  lemma {:induction false} DownChainBounds(down: seq<V2Frame>, next: int, lo: int, end: int, hi: int)
    requires DownChain(down, next, lo, end, hi)
    ensures next <= end && lo <= hi
    decreases |down|
  {
    if down != [] {
      if down[0].Data? {
        DownChainBounds(down[1..], next + |down[0].payload|, lo, end, hi);
      } else if down[0].Ack? {
        DownChainBounds(down[1..], next, down[0].offset, end, hi);
      } else {
        DownChainBounds(down[1..], next, lo, end, hi);
      }
    }
  }

  lemma {:induction false} DownChainData(down: seq<V2Frame>, next: int, lo: int, end: int, hi: int, bytes: seq<byte>)
    requires DownChain(down, next, lo, end, hi) && 0 < |bytes| <= SEND_CHUNK_BYTES
    ensures DownChain(down + [Data(Server, end, bytes)], next, lo, end + |bytes|, hi)
    decreases |down|
  {
    var longer := down + [Data(Server, end, bytes)];
    if down == [] {
      assert longer[1..] == [];
    } else {
      assert longer[1..] == down[1..] + [Data(Server, end, bytes)];
      if down[0].Data? {
        DownChainData(down[1..], next + |down[0].payload|, lo, end, hi, bytes);
      } else if down[0].Ack? {
        DownChainData(down[1..], next, down[0].offset, end, hi, bytes);
      } else {
        DownChainData(down[1..], next, lo, end, hi, bytes);
      }
    }
  }

  lemma {:induction false} DownChainPong(down: seq<V2Frame>, next: int, lo: int, end: int, hi: int)
    requires DownChain(down, next, lo, end, hi)
    ensures DownChain(down + [Pong], next, lo, end, hi)
    decreases |down|
  {
    var longer := down + [Pong];
    if down == [] {
      assert longer[1..] == [];
    } else {
      assert longer[1..] == down[1..] + [Pong];
      if down[0].Data? {
        DownChainPong(down[1..], next + |down[0].payload|, lo, end, hi);
      } else if down[0].Ack? {
        DownChainPong(down[1..], next, down[0].offset, end, hi);
      } else {
        DownChainPong(down[1..], next, lo, end, hi);
      }
    }
  }

  lemma {:induction false} DownChainAck(down: seq<V2Frame>, next: int, lo: int, end: int, hi: int, ack: int)
    requires DownChain(down, next, lo, end, hi) && hi <= ack
    ensures DownChain(down + [Ack(Client, ack)], next, lo, end, ack)
    ensures DownChain(down, next, lo, end, ack)
    decreases |down|
  {
    var longer := down + [Ack(Client, ack)];
    if down == [] {
      assert longer[1..] == [];
    } else {
      assert longer[1..] == down[1..] + [Ack(Client, ack)];
      if down[0].Data? {
        DownChainAck(down[1..], next + |down[0].payload|, lo, end, hi, ack);
      } else if down[0].Ack? {
        DownChainAck(down[1..], next, down[0].offset, end, hi, ack);
      } else {
        DownChainAck(down[1..], next, lo, end, hi, ack);
      }
    }
  }
}
