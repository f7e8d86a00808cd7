/** The whole relay as one state machine. */
module RelayServer {
  import opened Frames
  import opened Admission
  import R = RelayNode

  // Sockets come and go, sessions are admitted, detached, taken over, revoked and
  // expired. Four bounds hold in every reachable state, and a session expires only after
  // a full grace spent detached.

  /** maxSessions, and the longest grace the relay grants (None is unlimited). */
  datatype Config = Config(maxSessions: nat, capGraceMs: Option<nat>)

  datatype Server = Server(
    sessions: seq<Session>,
    clients: set<nat>,
    pending: set<nat>,
    v1: set<nat>,
    now: nat,
    nextId: nat
  )

  datatype Event =
    | Opens(ws: nat)
    | Closes(ws: nat)
    | ConnectsV2(ws: nat, requestedGraceMs: Option<nat>)
    | ConnectsV1(ws: nat)
    | Resumes(ws: nat, id: nat, held: nat)
    | Misspeaks(ws: nat)
    | ClientFrame(id: nat, held: nat)
    | WriteDone(id: nat, held: nat)
    | TargetData(id: nat, held: nat)
    | Detaches(id: nat)
    | Revokes(id: nat)
    | Ticks(ms: nat)
    | TimerFires(id: nat)

  // ---- Grace and timers ----

  /** The granted grace; None is unlimited. */
  function Grant(requested: Option<nat>, cap: Option<nat>): Option<nat> {
    if requested.None? then cap
    else if cap.None? then requested
    else Some(Min(requested.value, cap.value))
  }

  /** A grant never exceeds the request or the cap, is one of them, and is unlimited only when both are. */
  lemma GrantIsTheLeast(requested: Option<nat>, cap: Option<nat>)
    ensures Grant(requested, cap).None? <==> requested.None? && cap.None?
    ensures Grant(requested, cap).Some? ==>
      (requested.Some? ==> Grant(requested, cap).value <= requested.value) &&
      (cap.Some? ==> Grant(requested, cap).value <= cap.value)
    ensures Grant(requested, cap) in {requested, cap}
  {
    assert Grant(requested, cap) == requested || Grant(requested, cap) == cap;
  }

  function Arm(now: nat, remainingMs: nat): Timer {
    var step := Min(remainingMs, MAX_TIMER_MS);
    Timer(now + step, remainingMs - step)
  }

  /** The delays one grace is armed in, first to last. */
  function Delays(remainingMs: nat): seq<nat> {
    var step := Min(remainingMs, MAX_TIMER_MS);
    if remainingMs > step then [step] + Delays(remainingMs - step) else [step]
  }

  function Sum(delays: seq<nat>): nat {
    if delays == [] then 0 else delays[0] + Sum(delays[1..])
  }

  /** Every delay is one the platform accepts, and together they are exactly the grace. */
  lemma {:induction false} DelaysCoverTheGrace(remainingMs: nat)
    ensures Sum(Delays(remainingMs)) == remainingMs
    ensures forall i :: 0 <= i < |Delays(remainingMs)| ==> Delays(remainingMs)[i] <= MAX_TIMER_MS
    ensures |Delays(remainingMs)| == if remainingMs == 0 then 1 else (remainingMs + MAX_TIMER_MS - 1) / MAX_TIMER_MS
  {
    if remainingMs > MAX_TIMER_MS {
      var rest := Delays(remainingMs - MAX_TIMER_MS);
      DelaysCoverTheGrace(remainingMs - MAX_TIMER_MS);
      assert ([MAX_TIMER_MS] + rest)[1..] == rest;
    }
  }

  // ---- One session in the list ----

  function Get(sessions: seq<Session>, id: nat): (s: Session)
    requires HasId(sessions, id)
    ensures s.id == id && s in sessions
  {
    if sessions[0].id == id then sessions[0] else Get(sessions[1..], id)
  }

  /** Puts x in place of the session with its id. */
  function Put(sessions: seq<Session>, x: Session): seq<Session> {
    if sessions == [] then []
    else if sessions[0].id == x.id then [x] + sessions[1..]
    else [sessions[0]] + Put(sessions[1..], x)
  }

  function SocketOf(s: Session): set<nat> {
    if s.attached.Some? then {s.attached.value} else {}
  }

  function Sockets(sessions: seq<Session>): set<nat> {
    if sessions == [] then {} else SocketOf(sessions[0]) + Sockets(sessions[1..])
  }

  predicate OwnSockets(sessions: seq<Session>) {
    sessions == [] || (SocketOf(sessions[0]) !! Sockets(sessions[1..]) && OwnSockets(sessions[1..]))
  }

  /** The session attached to this socket. */
  function OnSocket(sessions: seq<Session>, ws: nat): Option<Session> {
    if sessions == [] then None
    else if sessions[0].attached == Some(ws) then Some(sessions[0])
    else OnSocket(sessions[1..], ws)
  }

  function Pinned(s: Session): nat {
    if s.attached.None? then s.held else 0
  }

  // ---- What each event does ----

  function AfterDetach(x: Session, now: nat): Session {
    x.(attached := None, detachedAt := now,
       timer := if x.graceMs.Some? then Some(Arm(now, x.graceMs.value)) else None)
  }

  function DetachAndCap(sessions: seq<Session>, x: Session, now: nat): seq<Session> {
    EnforceCap(Put(sessions, AfterDetach(x, now)))
  }

  /** Which bytes a session may pin after an event; ConnectedRelay shows the transport obeys it. */
  predicate MayHold(x: Session, e: Event)
    requires e.ClientFrame? || e.WriteDone? || e.TargetData? || e.Resumes?
  {
    e.held <= 3 * MAX_UNACKED_BYTES &&
    (e.WriteDone? || e.Resumes? ==> e.held <= x.held) &&
    (e.ClientFrame? ==> x.attached.Some?)
  }

  predicate Due(x: Session, now: nat) {
    x.timer.Some? && x.timer.value.fireAt <= now
  }

  predicate Enabled(s: Server, cfg: Config, e: Event) {
    match e
    case Opens(ws) => ws !in s.clients
    case Closes(ws) => ws in s.clients
    case ConnectsV2(ws, _) => ws in s.pending
    case ConnectsV1(ws) => ws in s.pending
    case Misspeaks(ws) => ws in s.pending
    case Resumes(ws, id, held) => ws in s.pending && HasId(s.sessions, id) && MayHold(Get(s.sessions, id), e)
    case ClientFrame(id, held) => HasId(s.sessions, id) && MayHold(Get(s.sessions, id), e)
    case WriteDone(id, held) => HasId(s.sessions, id) && MayHold(Get(s.sessions, id), e)
    case TargetData(id, held) => HasId(s.sessions, id) && MayHold(Get(s.sessions, id), e)
    case Detaches(id) => HasId(s.sessions, id) && Get(s.sessions, id).attached.Some?
    case Revokes(id) => HasId(s.sessions, id)
    case Ticks(_) => true
    case TimerFires(id) => HasId(s.sessions, id) && Due(Get(s.sessions, id), s.now)
  }

  function Opened(s: Server, cfg: Config, ws: nat): Server {
    if |s.pending| >= cfg.maxSessions then s
    else s.(clients := s.clients + {ws}, pending := s.pending + {ws})
  }

  function Closed(s: Server, ws: nat): Server {
    var left := s.(clients := s.clients - {ws}, pending := s.pending - {ws}, v1 := s.v1 - {ws});
    var bound := OnSocket(s.sessions, ws);
    if bound.Some? then left.(sessions := DetachAndCap(s.sessions, bound.value, s.now)) else left
  }

  /** The first message takes a socket out of the pending handshakes. */
  function Heard(s: Server, ws: nat): (t: Server)
    ensures t == s.(pending := t.pending)
  {
    s.(pending := s.pending - {ws})
  }

  function ConnectedV2(s: Server, cfg: Config, ws: nat, requested: Option<nat>): Server {
    var admitted := Admit(s.sessions, |s.clients|, cfg.maxSessions);
    if admitted.None? then Heard(s, ws)
    else
      var session := Session(s.nextId, Some(ws), Grant(requested, cfg.capGraceMs), None, 0, 0);
      Heard(s, ws).(sessions := admitted.value + [session], nextId := s.nextId + 1)
  }

  function ConnectedV1(s: Server, cfg: Config, ws: nat): Server {
    var admitted := Admit(s.sessions, |s.clients|, cfg.maxSessions);
    if admitted.None? then Heard(s, ws) else Heard(s, ws).(sessions := admitted.value, v1 := s.v1 + {ws})
  }

  function Resumed(s: Server, ws: nat, id: nat, held: nat): Server
    requires HasId(s.sessions, id)
  {
    Heard(s, ws).(sessions := Put(s.sessions, Get(s.sessions, id).(attached := Some(ws), timer := None, held := held)))
  }

  function Holds(s: Server, id: nat, held: nat): Server
    requires HasId(s.sessions, id)
  {
    s.(sessions := Put(s.sessions, Get(s.sessions, id).(held := held)))
  }

  function Revoked(s: Server, id: nat): Server {
    s.(sessions := Remove(s.sessions, id))
  }

  function TimerFired(s: Server, id: nat): Server
    requires HasId(s.sessions, id) && Due(Get(s.sessions, id), s.now)
  {
    var x := Get(s.sessions, id);
    if x.timer.value.rest > 0 then
      s.(sessions := Put(s.sessions, x.(timer := Some(Arm(s.now, x.timer.value.rest)))))
    else Revoked(s, id)
  }

  function Step(s: Server, cfg: Config, e: Event): Server
    requires Enabled(s, cfg, e)
  {
    match e
    case Opens(ws) => Opened(s, cfg, ws)
    case Closes(ws) => Closed(s, ws)
    case ConnectsV2(ws, requested) => ConnectedV2(s, cfg, ws, requested)
    case ConnectsV1(ws) => ConnectedV1(s, cfg, ws)
    case Misspeaks(ws) => Heard(s, ws)
    case Resumes(ws, id, held) => Resumed(s, ws, id, held)
    case ClientFrame(id, held) => Holds(s, id, held)
    case WriteDone(id, held) => Holds(s, id, held)
    case TargetData(id, held) => var t := Holds(s, id, held); t.(sessions := EnforceCap(t.sessions))
    case Detaches(id) => s.(sessions := DetachAndCap(s.sessions, Get(s.sessions, id), s.now))
    case Revokes(id) => Revoked(s, id)
    case Ticks(ms) => s.(now := s.now + ms)
    case TimerFires(id) => TimerFired(s, id)
  }

  // ---- The invariant ----

  ghost predicate SessionOk(x: Session, now: nat, nextId: nat) {
    x.id < nextId && x.held <= 3 * MAX_UNACKED_BYTES && x.detachedAt <= now &&
    (x.timer.Some? <==> x.attached.None? && x.graceMs.Some?) &&
    (x.timer.Some? ==> x.detachedAt + x.graceMs.value <= x.timer.value.fireAt + x.timer.value.rest)
  }

  ghost predicate AllOk(sessions: seq<Session>, now: nat, nextId: nat) {
    sessions == [] || (SessionOk(sessions[0], now, nextId) && AllOk(sessions[1..], now, nextId))
  }

  /** Ids and sockets belong to one session each, and every session is well kept. */
  ghost predicate ListOk(sessions: seq<Session>, now: nat, nextId: nat) {
    UniqueIds(sessions) && OwnSockets(sessions) && AllOk(sessions, now, nextId)
  }

  /** Each open socket plays at most one role. */
  ghost predicate Apart(v2: set<nat>, v1: set<nat>, pending: set<nat>, clients: set<nat>) {
    v2 !! v1 && v2 !! pending && v1 !! pending && v2 <= clients && v1 <= clients && pending <= clients
  }

  ghost predicate Roles(s: Server) {
    ListOk(s.sessions, s.now, s.nextId) && Apart(Sockets(s.sessions), s.v1, s.pending, s.clients)
  }

  ghost predicate Room(s: Server, cfg: Config) {
    |s.sessions| + |s.v1| <= cfg.maxSessions && |s.pending| <= cfg.maxSessions
  }

  ghost predicate Inv(s: Server, cfg: Config) {
    Roles(s) && Room(s, cfg) && DetachedBytes(s.sessions) <= MAX_DETACHED_BYTES
  }

  // ---- Lists under the invariant ----

  lemma {:induction false} GetOk(sessions: seq<Session>, now: nat, nextId: nat, id: nat)
    requires HasId(sessions, id) && AllOk(sessions, now, nextId)
    ensures SessionOk(Get(sessions, id), now, nextId) && SocketOf(Get(sessions, id)) <= Sockets(sessions)
  {
    if sessions[0].id != id {
      GetOk(sessions[1..], now, nextId, id);
    }
  }

  lemma {:induction false} AllOkLater(sessions: seq<Session>, now: nat, nextId: nat, later: nat, nextLater: nat)
    requires AllOk(sessions, now, nextId) && nextId <= nextLater && now <= later
    ensures AllOk(sessions, later, nextLater)
  {
    if sessions != [] {
      AllOkLater(sessions[1..], now, nextId, later, nextLater);
    }
  }

  lemma {:induction false} PutIds(sessions: seq<Session>, x: Session, id: nat)
    ensures HasId(Put(sessions, x), id) <==> HasId(sessions, id)
    ensures UniqueIds(sessions) ==> UniqueIds(Put(sessions, x))
    ensures |Put(sessions, x)| == |sessions|
  {
    if sessions != [] {
      PutIds(sessions[1..], x, id);
      PutIds(sessions[1..], x, sessions[0].id);
      if sessions[0].id == x.id {
        assert ([x] + sessions[1..])[1..] == sessions[1..];
      } else {
        assert ([sessions[0]] + Put(sessions[1..], x))[1..] == Put(sessions[1..], x);
      }
    }
  }

  lemma {:induction false} PutPins(sessions: seq<Session>, x: Session)
    requires HasId(sessions, x.id)
    ensures DetachedBytes(Put(sessions, x)) == DetachedBytes(sessions) - Pinned(Get(sessions, x.id)) + Pinned(x)
  {
    if sessions[0].id == x.id {
      assert ([x] + sessions[1..])[1..] == sessions[1..];
    } else {
      PutPins(sessions[1..], x);
      assert ([sessions[0]] + Put(sessions[1..], x))[1..] == Put(sessions[1..], x);
    }
  }

  lemma {:induction false} PutOk(sessions: seq<Session>, now: nat, nextId: nat, x: Session)
    requires AllOk(sessions, now, nextId) && SessionOk(x, now, nextId)
    ensures AllOk(Put(sessions, x), now, nextId)
  {
    if sessions != [] {
      PutOk(sessions[1..], now, nextId, x);
    }
  }

  lemma {:induction false} PutSockets(sessions: seq<Session>, x: Session)
    requires HasId(sessions, x.id) && UniqueIds(sessions) && OwnSockets(sessions)
    requires SocketOf(x) <= SocketOf(Get(sessions, x.id)) || SocketOf(x) !! Sockets(sessions)
    ensures OwnSockets(Put(sessions, x))
    ensures Sockets(Put(sessions, x)) == Sockets(sessions) - SocketOf(Get(sessions, x.id)) + SocketOf(x)
  {
    var rest := sessions[1..];
    if sessions[0].id == x.id {
      assert ([x] + rest)[1..] == rest;
    } else {
      PutSockets(rest, x);
      GetSocket(rest, x.id);
      assert ([sessions[0]] + Put(rest, x))[1..] == Put(rest, x);
    }
  }

  lemma {:induction false} GetSocket(sessions: seq<Session>, id: nat)
    requires HasId(sessions, id)
    ensures SocketOf(Get(sessions, id)) <= Sockets(sessions)
  {
    if sessions[0].id != id {
      GetSocket(sessions[1..], id);
    }
  }

  lemma {:induction false} RemoveShrinks(sessions: seq<Session>, now: nat, nextId: nat, id: nat)
    requires ListOk(sessions, now, nextId)
    ensures ListOk(Remove(sessions, id), now, nextId)
    ensures Sockets(Remove(sessions, id)) <= Sockets(sessions)
    ensures |Remove(sessions, id)| <= |sessions| && DetachedBytes(Remove(sessions, id)) <= DetachedBytes(sessions)
  {
    if sessions != [] {
      RemoveShrinks(sessions[1..], now, nextId, id);
      RemoveKeepsUnique(sessions, id, 0);
    }
  }

  lemma {:induction false} RemoveAllShrinks(sessions: seq<Session>, now: nat, nextId: nat, gone: seq<Session>)
    requires ListOk(sessions, now, nextId)
    ensures ListOk(RemoveAll(sessions, gone), now, nextId)
    ensures Sockets(RemoveAll(sessions, gone)) <= Sockets(sessions)
    ensures |RemoveAll(sessions, gone)| <= |sessions| &&
      DetachedBytes(RemoveAll(sessions, gone)) <= DetachedBytes(sessions)
    decreases |gone|
  {
    hide ListOk, Sockets, DetachedBytes, Remove;
    if gone != [] {
      RemoveShrinks(sessions, now, nextId, gone[0].id);
      RemoveAllShrinks(Remove(sessions, gone[0].id), now, nextId, gone[1..]);
    }
  }

  lemma {:induction false} SocketsCounted(sessions: seq<Session>)
    requires OwnSockets(sessions)
    ensures |Sockets(sessions)| == AttachedCount(sessions)
  {
    if sessions != [] {
      SocketsCounted(sessions[1..]);
    }
  }

  lemma SubsetCounts(a: set<nat>, b: set<nat>)
    requires a <= b
    ensures |a| <= |b|
  {
    assert b == a + (b - a);
  }

  /** Every live session or tunnel and every silent socket has a socket of its own among the clients. */
  lemma ClientsCoverRoles(s: Server)
    requires Roles(s)
    ensures AttachedCount(s.sessions) + |s.v1| + |s.pending| <= |s.clients|
  {
    SocketsCounted(s.sessions);
    SubsetCounts(Sockets(s.sessions) + s.v1 + s.pending, s.clients);
  }

  lemma {:induction false} OnSocketFinds(sessions: seq<Session>, ws: nat)
    requires UniqueIds(sessions)
    ensures var found := OnSocket(sessions, ws);
      if found.None? then ws !in Sockets(sessions)
      else
        found.value.attached == Some(ws) && HasId(sessions, found.value.id) &&
        Get(sessions, found.value.id) == found.value
  {
    if sessions != [] {
      OnSocketFinds(sessions[1..], ws);
    }
  }

  lemma {:induction false} AppendOk(sessions: seq<Session>, now: nat, nextId: nat, x: Session)
    requires ListOk(sessions, now, nextId) && SessionOk(x, now, nextId) && !HasId(sessions, x.id)
    requires SocketOf(x) !! Sockets(sessions) && x.attached.Some?
    ensures ListOk(sessions + [x], now, nextId) && Sockets(sessions + [x]) == Sockets(sessions) + SocketOf(x)
    ensures DetachedBytes(sessions + [x]) == DetachedBytes(sessions)
    ensures forall id :: HasId(sessions + [x], id) <==> HasId(sessions, id) || id == x.id
  {
    if sessions != [] {
      AppendOk(sessions[1..], now, nextId, x);
      assert (sessions + [x])[1..] == sessions[1..] + [x];
    }
  }

  lemma {:induction false} NextIdIsNew(sessions: seq<Session>, now: nat, nextId: nat)
    requires AllOk(sessions, now, nextId)
    ensures !HasId(sessions, nextId)
  {
    if sessions != [] {
      NextIdIsNew(sessions[1..], now, nextId);
    }
  }

  // ---- Every event keeps the invariant ----

  lemma ApartLess(v2: set<nat>, v1: set<nat>, pending: set<nat>, clients: set<nat>, less: set<nat>)
    requires Apart(v2, v1, pending, clients) && less <= v2
    ensures Apart(less, v1, pending, clients)
  {
  }

  lemma ApartWithout(v2: set<nat>, v1: set<nat>, pending: set<nat>, clients: set<nat>, ws: nat)
    requires Apart(v2, v1, pending, clients)
    ensures Apart(v2 - {ws}, v1 - {ws}, pending - {ws}, clients - {ws})
  {
  }

  lemma PutList(s: Server, x: Session)
    requires ListOk(s.sessions, s.now, s.nextId) && HasId(s.sessions, x.id) && SessionOk(x, s.now, s.nextId)
    requires SocketOf(x) <= SocketOf(Get(s.sessions, x.id)) || SocketOf(x) !! Sockets(s.sessions)
    ensures ListOk(Put(s.sessions, x), s.now, s.nextId) && |Put(s.sessions, x)| == |s.sessions|
    ensures Sockets(Put(s.sessions, x)) == Sockets(s.sessions) - SocketOf(Get(s.sessions, x.id)) + SocketOf(x)
    ensures DetachedBytes(Put(s.sessions, x)) == DetachedBytes(s.sessions) - Pinned(Get(s.sessions, x.id)) + Pinned(x)
  {
    hide DetachedBytes, UniqueIds, OwnSockets, AllOk, SessionOk, Sockets, Put, HasId, Get, SocketOf, Pinned;
    PutIds(s.sessions, x, 0);
    PutPins(s.sessions, x);
    PutOk(s.sessions, s.now, s.nextId, x);
    PutSockets(s.sessions, x);
  }

  lemma PutKeeps(s: Server, cfg: Config, x: Session)
    requires Roles(s) && Room(s, cfg) && HasId(s.sessions, x.id) && SessionOk(x, s.now, s.nextId)
    requires SocketOf(x) == SocketOf(Get(s.sessions, x.id)) || SocketOf(x) == {}
    ensures Roles(s.(sessions := Put(s.sessions, x))) && Room(s.(sessions := Put(s.sessions, x)), cfg)
    ensures DetachedBytes(Put(s.sessions, x)) == DetachedBytes(s.sessions) - Pinned(Get(s.sessions, x.id)) + Pinned(x)
  {
    hide DetachedBytes, ListOk, SessionOk, Sockets, Put, HasId, Get, SocketOf, Pinned, Apart;
    PutList(s, x);
    GetSocket(s.sessions, x.id);
    ApartLess(Sockets(s.sessions), s.v1, s.pending, s.clients, Sockets(Put(s.sessions, x)));
  }

  lemma CapKeeps(s: Server, cfg: Config)
    requires Roles(s) && Room(s, cfg)
    ensures Inv(s.(sessions := EnforceCap(s.sessions)), cfg)
  {
    hide DetachedBytes, OwnSockets, UniqueIds, AllOk, Sockets, RemoveAll, DetachedByAge, CapEvictions, AttachedCount,
         Apart;
    var detached := DetachedByAge(s.sessions);
    RemoveAllShrinks(s.sessions, s.now, s.nextId, detached[..CapEvictions(detached)]);
    EnforceCapRestores(s.sessions);
    ApartLess(Sockets(s.sessions), s.v1, s.pending, s.clients, Sockets(EnforceCap(s.sessions)));
  }

  lemma DetachKeeps(s: Server, cfg: Config, x: Session)
    requires Roles(s) && Room(s, cfg) && HasId(s.sessions, x.id) && Get(s.sessions, x.id) == x && x.attached.Some?
    ensures Inv(s.(sessions := DetachAndCap(s.sessions, x, s.now)), cfg)
  {
    hide UniqueIds, OwnSockets, Sockets, Put, HasId, Get, EnforceCap, DetachedBytes, Apart;
    GetOk(s.sessions, s.now, s.nextId, x.id);
    var y := AfterDetach(x, s.now);
    PutKeeps(s, cfg, y);
    CapKeeps(s.(sessions := Put(s.sessions, y)), cfg);
  }

  /** Closing a socket: any session on it is detached first, so the socket plays no role any more. */
  lemma CloseKeeps(s: Server, cfg: Config, ws: nat)
    requires Inv(s, cfg)
    ensures Inv(Closed(s, ws), cfg)
  {
    hide UniqueIds, OwnSockets, Put, HasId, Get, EnforceCap, DetachedBytes, Sockets, AllOk, Apart, OnSocket;
    OnSocketFinds(s.sessions, ws);
    var bound := OnSocket(s.sessions, ws);
    var sessions := if bound.None? then s.sessions else Put(s.sessions, AfterDetach(bound.value, s.now));
    if bound.None? {
      assert Sockets(s.sessions) - {ws} == Sockets(s.sessions);
    } else {
      GetOk(s.sessions, s.now, s.nextId, bound.value.id);
      PutList(s, AfterDetach(bound.value, s.now));
      assert Sockets(sessions) == Sockets(s.sessions) - {ws};
    }
    WithoutSocket(s, cfg, ws, sessions);
    if bound.Some? {
      CapKeeps(s.(clients := s.clients - {ws}, pending := s.pending - {ws}, v1 := s.v1 - {ws}, sessions := sessions),
               cfg);
    }
  }

  lemma WithoutSocket(s: Server, cfg: Config, ws: nat, sessions: seq<Session>)
    requires Roles(s) && Room(s, cfg) && ListOk(sessions, s.now, s.nextId)
    requires Sockets(sessions) == Sockets(s.sessions) - {ws} && |sessions| == |s.sessions|
    ensures var t := s.(clients := s.clients - {ws}, pending := s.pending - {ws}, v1 := s.v1 - {ws},
                        sessions := sessions);
      Roles(t) && Room(t, cfg)
  {
    hide Apart, Sockets, ListOk;
    ApartWithout(Sockets(s.sessions), s.v1, s.pending, s.clients, ws);
    SubsetCounts(s.v1 - {ws}, s.v1);
    SubsetCounts(s.pending - {ws}, s.pending);
  }

  lemma AgeCounts(sessions: seq<Session>)
    ensures |DetachedByAge(sessions)| == |Detached(sessions)|
  {
    SortedByAge(Detached(sessions));
  }

  /** Admission leaves room for one more socket with a role. */
  lemma AdmitMakesRoom(s: Server, cfg: Config, ws: nat)
    requires Inv(s, cfg) && ws in s.pending
    requires Admit(s.sessions, |s.clients|, cfg.maxSessions).Some?
    ensures var left := Admit(s.sessions, |s.clients|, cfg.maxSessions).value;
      ListOk(left, s.now, s.nextId) && Sockets(left) <= Sockets(s.sessions) &&
      |left| + |s.v1| < cfg.maxSessions && DetachedBytes(left) <= MAX_DETACHED_BYTES
  {
    hide OwnSockets, UniqueIds, AllOk, Sockets, RemoveAll, DetachedByAge, DetachedBytes, AttachedCount, Detached, Apart;
    var detached := DetachedByAge(s.sessions);
    var excess := |s.clients| + |detached| - cfg.maxSessions;
    var left := Admit(s.sessions, |s.clients|, cfg.maxSessions).value;
    AdmitEvictsExcess(s.sessions, |s.clients|, cfg.maxSessions);
    ClientsCoverRoles(s);
    SubsetCounts({ws}, s.pending);
    Counts(left);
    AgeCounts(left);
    if excess > 0 {
      RemoveAllShrinks(s.sessions, s.now, s.nextId, detached[..excess]);
    }
  }

  /** A silent socket that takes a role: v2 session, v1 tunnel or none. */
  lemma TakesRole(s: Server, cfg: Config, ws: nat, less: set<nat>)
    requires Roles(s) && ws in s.pending && less <= Sockets(s.sessions)
    ensures Apart(less + {ws}, s.v1, Heard(s, ws).pending, s.clients)
    ensures Apart(less, s.v1 + {ws}, Heard(s, ws).pending, s.clients)
    ensures Apart(less, s.v1, Heard(s, ws).pending, s.clients)
    ensures |s.v1 + {ws}| == |s.v1| + 1 && |Heard(s, ws).pending| <= |s.pending| && ws !in Sockets(s.sessions)
  {
    hide Sockets, ListOk;
    SubsetCounts(s.pending - {ws}, s.pending);
  }

  lemma ConnectV2Keeps(s: Server, cfg: Config, ws: nat, requested: Option<nat>)
    requires Inv(s, cfg) && ws in s.pending
    ensures Inv(ConnectedV2(s, cfg, ws, requested), cfg)
  {
    hide Sockets, ListOk, DetachedBytes, Admit, Grant, Apart, Heard;
    TakesRole(s, cfg, ws, Sockets(s.sessions));
    if Admit(s.sessions, |s.clients|, cfg.maxSessions).Some? {
      var left := Admit(s.sessions, |s.clients|, cfg.maxSessions).value;
      AdmitMakesRoom(s, cfg, ws);
      TakesRole(s, cfg, ws, Sockets(left));
      NewSessionOk(s, left, Session(s.nextId, Some(ws), Grant(requested, cfg.capGraceMs), None, 0, 0));
    }
  }

  lemma NewSessionOk(s: Server, left: seq<Session>, x: Session)
    requires ListOk(left, s.now, s.nextId) && x.id == s.nextId && x.attached.Some? && x.attached.value !in Sockets(left)
    requires x.held == 0 && x.detachedAt == 0 && x.timer.None?
    ensures ListOk(left + [x], s.now, s.nextId + 1)
    ensures Sockets(left + [x]) == Sockets(left) + {x.attached.value}
    ensures DetachedBytes(left + [x]) == DetachedBytes(left)
  {
    hide UniqueIds, OwnSockets, Sockets, AllOk, DetachedBytes, HasId;
    NextIdIsNew(left, s.now, s.nextId);
    AllOkLater(left, s.now, s.nextId, s.now, s.nextId + 1);
    AppendOk(left, s.now, s.nextId + 1, x);
  }

  lemma ConnectV1Keeps(s: Server, cfg: Config, ws: nat)
    requires Inv(s, cfg) && ws in s.pending
    ensures Inv(ConnectedV1(s, cfg, ws), cfg)
  {
    hide ListOk, Sockets, DetachedBytes, Admit, Apart, Heard;
    TakesRole(s, cfg, ws, Sockets(s.sessions));
    if Admit(s.sessions, |s.clients|, cfg.maxSessions).Some? {
      AdmitMakesRoom(s, cfg, ws);
      TakesRole(s, cfg, ws, Sockets(Admit(s.sessions, |s.clients|, cfg.maxSessions).value));
    }
  }

  /** A resume, takeovers included, gives the session to the new socket alone. */
  lemma ResumeKeeps(s: Server, cfg: Config, ws: nat, id: nat, held: nat)
    requires Inv(s, cfg) && Enabled(s, cfg, Resumes(ws, id, held))
    ensures Inv(Resumed(s, ws, id, held), cfg)
  {
    hide UniqueIds, OwnSockets, Sockets, AllOk, DetachedBytes, HasId, Get, Put, Apart, Heard;
    var x := Get(s.sessions, id);
    var y := x.(attached := Some(ws), timer := None, held := held);
    GetOk(s.sessions, s.now, s.nextId, id);
    TakesRole(s, cfg, ws, Sockets(s.sessions) - SocketOf(x));
    PutList(s, y);
  }

  lemma HoldsKeeps(s: Server, cfg: Config, e: Event)
    requires Inv(s, cfg) && Enabled(s, cfg, e) && (e.ClientFrame? || e.WriteDone? || e.TargetData?)
    ensures Roles(Holds(s, e.id, e.held)) && Room(Holds(s, e.id, e.held), cfg)
    ensures !e.TargetData? ==> DetachedBytes(Holds(s, e.id, e.held).sessions) <= MAX_DETACHED_BYTES
  {
    hide Roles, Room, DetachedBytes, HasId, Get, Put;
    HeldBySession(s, e.id);
    PutKeeps(s, cfg, Get(s.sessions, e.id).(held := e.held));
  }

  lemma HeldBySession(s: Server, id: nat)
    requires Roles(s) && HasId(s.sessions, id)
    ensures SessionOk(Get(s.sessions, id), s.now, s.nextId)
  {
    hide Sockets, UniqueIds, OwnSockets, HasId, Get, AllOk, SessionOk, Apart;
    GetOk(s.sessions, s.now, s.nextId, id);
  }

  lemma RevokeKeeps(s: Server, cfg: Config, id: nat)
    requires Inv(s, cfg)
    ensures Inv(Revoked(s, id), cfg)
  {
    hide Sockets, DetachedBytes, Remove, ListOk, Apart;
    RemoveShrinks(s.sessions, s.now, s.nextId, id);
    ApartLess(Sockets(s.sessions), s.v1, s.pending, s.clients, Sockets(Remove(s.sessions, id)));
  }

  lemma TimerKeeps(s: Server, cfg: Config, id: nat)
    requires Inv(s, cfg) && Enabled(s, cfg, TimerFires(id))
    ensures Inv(TimerFired(s, id), cfg)
  {
    hide Roles, Room, DetachedBytes, HasId, Get, Put, Remove;
    HeldBySession(s, id);
    var x := Get(s.sessions, id);
    if x.timer.value.rest > 0 {
      PutKeeps(s, cfg, x.(timer := Some(Arm(s.now, x.timer.value.rest))));
    } else {
      RevokeKeeps(s, cfg, id);
    }
  }

  lemma OpensKeeps(s: Server, cfg: Config, ws: nat)
    requires Inv(s, cfg) && ws !in s.clients
    ensures Inv(Opened(s, cfg, ws), cfg)
  {
    hide Sockets, DetachedBytes, ListOk, Apart;
    ApartOpens(Sockets(s.sessions), s.v1, s.pending, s.clients, ws);
  }

  lemma ApartOpens(v2: set<nat>, v1: set<nat>, pending: set<nat>, clients: set<nat>, ws: nat)
    requires Apart(v2, v1, pending, clients) && ws !in clients
    ensures Apart(v2, v1, pending + {ws}, clients + {ws}) && |pending + {ws}| == |pending| + 1
  {
  }

  lemma HeardKeeps(s: Server, cfg: Config, ws: nat)
    requires Inv(s, cfg)
    ensures Inv(Heard(s, ws), cfg)
  {
    hide Sockets, DetachedBytes, ListOk, Apart;
    if ws in s.pending {
      TakesRole(s, cfg, ws, Sockets(s.sessions));
    } else {
      assert s.pending - {ws} == s.pending;
    }
  }

  lemma TicksKeep(s: Server, cfg: Config, ms: nat)
    requires Inv(s, cfg)
    ensures Inv(s.(now := s.now + ms), cfg)
  {
    hide UniqueIds, OwnSockets, Sockets, AllOk, DetachedBytes, Apart;
    AllOkLater(s.sessions, s.now, s.nextId, s.now + ms, s.nextId);
  }

  lemma DetachesKeeps(s: Server, cfg: Config, id: nat)
    requires Inv(s, cfg) && Enabled(s, cfg, Detaches(id))
    ensures Inv(s.(sessions := DetachAndCap(s.sessions, Get(s.sessions, id), s.now)), cfg)
  {
    hide Roles, Room, DetachedBytes, EnforceCap;
    DetachKeeps(s, cfg, Get(s.sessions, id));
  }

  lemma StepKeepsInv(s: Server, cfg: Config, e: Event)
    requires Inv(s, cfg) && Enabled(s, cfg, e)
    ensures Inv(Step(s, cfg, e), cfg)
  {
    hide Roles, Room, DetachedBytes, EnforceCap, Get, Put, HasId, Admit, DetachAndCap, Closed, ConnectedV1,
         ConnectedV2, Resumed, TimerFired;
    match e
    case Opens(ws) => OpensKeeps(s, cfg, ws);
    case Closes(ws) => CloseKeeps(s, cfg, ws);
    case ConnectsV2(ws, requested) => ConnectV2Keeps(s, cfg, ws, requested);
    case ConnectsV1(ws) => ConnectV1Keeps(s, cfg, ws);
    case Misspeaks(ws) => HeardKeeps(s, cfg, ws);
    case Resumes(ws, id, held) => ResumeKeeps(s, cfg, ws, id, held);
    case ClientFrame(_, _) => HoldsKeeps(s, cfg, e);
    case WriteDone(_, _) => HoldsKeeps(s, cfg, e);
    case TargetData(id, held) =>
      HoldsKeeps(s, cfg, e);
      CapKeeps(Holds(s, id, held), cfg);
    case Detaches(id) => DetachesKeeps(s, cfg, id);
    case Revokes(id) => RevokeKeeps(s, cfg, id);
    case Ticks(ms) => TicksKeep(s, cfg, ms);
    case TimerFires(id) => TimerKeeps(s, cfg, id);
  }

  // ---- Runs ----

  function Start(): Server {
    Server.Server([], {}, {}, {}, 0, 0)
  }

  ghost predicate Possible(s: Server, cfg: Config, events: seq<Event>)
    decreases |events|
  {
    events == [] || (Enabled(s, cfg, events[0]) && Possible(Step(s, cfg, events[0]), cfg, events[1..]))
  }

  function After(s: Server, cfg: Config, events: seq<Event>): Server
    requires Possible(s, cfg, events)
    decreases |events|
  {
    if events == [] then s else After(Step(s, cfg, events[0]), cfg, events[1..])
  }

  lemma {:induction false} RunKeepsInv(s: Server, cfg: Config, events: seq<Event>)
    requires Inv(s, cfg) && Possible(s, cfg, events)
    ensures Inv(After(s, cfg, events), cfg)
    decreases |events|
  {
    hide Inv, Enabled, Step;
    if events != [] {
      StepKeepsInv(s, cfg, events[0]);
      RunKeepsInv(Step(s, cfg, events[0]), cfg, events[1..]);
    }
  }

  lemma {:induction false} AllOkMeans(sessions: seq<Session>, now: nat, nextId: nat, x: Session)
    requires AllOk(sessions, now, nextId) && x in sessions
    ensures SessionOk(x, now, nextId)
  {
    if x != sessions[0] {
      assert sessions == [sessions[0]] + sessions[1..];
      AllOkMeans(sessions[1..], now, nextId, x);
    }
  }

  /**
   * Every reachable relay: v2 sessions and v1 tunnels together stay within
   * maxSessions, unanswered handshakes too, detached sessions pin at most 16 MiB,
   * each session at most three windows, and a timer runs exactly for the
   * detached sessions with a finite grace.
   */
  lemma RelayStaysBounded(cfg: Config, events: seq<Event>)
    requires Possible(Start(), cfg, events)
    ensures var s := After(Start(), cfg, events);
      |s.sessions| + |s.v1| <= cfg.maxSessions && |s.pending| <= cfg.maxSessions &&
      DetachedBytes(s.sessions) <= MAX_DETACHED_BYTES &&
      forall x :: x in s.sessions ==>
        x.held <= 3 * MAX_UNACKED_BYTES && (x.timer.Some? <==> x.attached.None? && x.graceMs.Some?)
  {
    RunKeepsInv(Start(), cfg, events);
    var s := After(Start(), cfg, events);
    forall x | x in s.sessions
      ensures x.held <= 3 * MAX_UNACKED_BYTES && (x.timer.Some? <==> x.attached.None? && x.graceMs.Some?)
    {
      AllOkMeans(s.sessions, s.now, s.nextId, x);
    }
  }

  // ---- Expiry ----

  /** The list has x's session, detached since the same moment under the same grace. */
  ghost predicate StillDetached(sessions: seq<Session>, x: Session) {
    HasId(sessions, x.id) &&
    var y := Get(sessions, x.id);
    y.attached.None? && y.detachedAt == x.detachedAt && y.graceMs == x.graceMs
  }

  lemma {:induction false} MemberIsGot(sessions: seq<Session>, x: Session)
    requires UniqueIds(sessions) && x in sessions
    ensures HasId(sessions, x.id) && Get(sessions, x.id) == x
  {
    assert sessions == [sessions[0]] + sessions[1..];
    if x in sessions[1..] {
      MemberIsGot(sessions[1..], x);
    }
  }

  lemma {:induction false} RemovedFrom(sessions: seq<Session>, gone: seq<Session>, x: Session)
    requires x in RemoveAll(sessions, gone)
    ensures x in sessions
    decreases |gone|
  {
    if gone != [] {
      RemovedFrom(Remove(sessions, gone[0].id), gone[1..], x);
      RemoveFrame(sessions, gone[0].id, x);
    }
  }

  lemma {:induction false} PutMembers(sessions: seq<Session>, y: Session, x: Session)
    requires x in Put(sessions, y)
    ensures x == y || x in sessions
  {
    if sessions[0].id != y.id && x != sessions[0] {
      assert Put(sessions, y) == [sessions[0]] + Put(sessions[1..], y);
      PutMembers(sessions[1..], y, x);
    }
  }

  lemma CappedFrom(sessions: seq<Session>, x: Session)
    requires x in EnforceCap(sessions)
    ensures x in sessions
  {
    var detached := DetachedByAge(sessions);
    RemovedFrom(sessions, detached[..CapEvictions(detached)], x);
  }

  /** A session after a step was there before it, or replaced one, or is new and attached. */
  lemma StepMembers(s: Server, cfg: Config, e: Event, x: Session)
    requires UniqueIds(s.sessions) && Enabled(s, cfg, e) && x in Step(s, cfg, e).sessions
    requires x.attached.None? && x.detachedAt < s.now
    ensures x in s.sessions || StillDetached(s.sessions, x)
  {
    hide UniqueIds, EnforceCap, Put, Remove, RemoveAll, DetachedByAge, Admit, OnSocket;
    if e.Closes? || e.Detaches? || e.TargetData? {
      OnSocketFinds(s.sessions, if e.Closes? then e.ws else 0);
      DetachMembers(s, cfg, e, x);
    } else if e.ConnectsV2? || e.ConnectsV1? {
      if Admit(s.sessions, |s.clients|, cfg.maxSessions).Some? && x !in s.sessions {
        AdmitMembers(s, cfg, x);
      }
    } else if e.Revokes? {
      RemoveFrame(s.sessions, e.id, x);
    } else if e.TimerFires? {
      var y := Get(s.sessions, e.id);
      if y.timer.value.rest > 0 {
        PutMembers(s.sessions, y.(timer := Some(Arm(s.now, y.timer.value.rest))), x);
      } else {
        RemoveFrame(s.sessions, e.id, x);
      }
    } else if e.Resumes? {
      PutMembers(s.sessions, Get(s.sessions, e.id).(attached := Some(e.ws), timer := None, held := e.held), x);
    } else if e.ClientFrame? || e.WriteDone? {
      PutMembers(s.sessions, Get(s.sessions, e.id).(held := e.held), x);
    }
  }

  lemma AdmitMembers(s: Server, cfg: Config, x: Session)
    requires Admit(s.sessions, |s.clients|, cfg.maxSessions).Some?
    requires x in Admit(s.sessions, |s.clients|, cfg.maxSessions).value
    ensures x in s.sessions
  {
    var detached := DetachedByAge(s.sessions);
    var excess := |s.clients| + |detached| - cfg.maxSessions;
    if 0 < excess <= |detached| && x in RemoveAll(s.sessions, detached[..excess]) {
      RemovedFrom(s.sessions, detached[..excess], x);
    }
  }

  lemma DetachMembers(s: Server, cfg: Config, e: Event, x: Session)
    requires e.Closes? || e.Detaches? || e.TargetData?
    requires Enabled(s, cfg, e) && x in Step(s, cfg, e).sessions && x.attached.None? && x.detachedAt < s.now
    ensures x in s.sessions || StillDetached(s.sessions, x)
  {
    hide EnforceCap, Put, OnSocket;
    if e.TargetData? {
      var y := Get(s.sessions, e.id).(held := e.held);
      CappedFrom(Put(s.sessions, y), x);
      PutMembers(s.sessions, y, x);
    } else if e.Detaches? {
      var y := AfterDetach(Get(s.sessions, e.id), s.now);
      CappedFrom(Put(s.sessions, y), x);
      PutMembers(s.sessions, y, x);
    } else if OnSocket(s.sessions, e.ws).Some? {
      var y := AfterDetach(OnSocket(s.sessions, e.ws).value, s.now);
      CappedFrom(Put(s.sessions, y), x);
      PutMembers(s.sessions, y, x);
    }
  }

  lemma StepOnlyAdvances(s: Server, cfg: Config, e: Event)
    requires Enabled(s, cfg, e)
    ensures s.now <= Step(s, cfg, e).now
  {
  }

  lemma {:induction false} RunOnlyAdvances(s: Server, cfg: Config, events: seq<Event>)
    requires Possible(s, cfg, events)
    ensures s.now <= After(s, cfg, events).now
    decreases |events|
  {
    hide Step, Enabled;
    if events != [] {
      StepOnlyAdvances(s, cfg, events[0]);
      RunOnlyAdvances(Step(s, cfg, events[0]), cfg, events[1..]);
    }
  }

  lemma DetachedBefore(s: Server, cfg: Config, e: Event, x: Session)
    requires Inv(s, cfg) && Enabled(s, cfg, e) && StillDetached(Step(s, cfg, e).sessions, x)
    requires x.detachedAt < s.now
    ensures StillDetached(s.sessions, x)
  {
    hide Step, Enabled, Room, UniqueIds, OwnSockets, AllOk, Apart;
    var y := Get(Step(s, cfg, e).sessions, x.id);
    StepMembers(s, cfg, e, y);
    if y in s.sessions {
      MemberIsGot(s.sessions, y);
    }
  }

  lemma {:induction false} DetachedThroughout(s: Server, cfg: Config, events: seq<Event>, x: Session)
    requires Inv(s, cfg) && Possible(s, cfg, events) && StillDetached(After(s, cfg, events).sessions, x)
    requires x.detachedAt < s.now
    ensures StillDetached(s.sessions, x)
    decreases |events|
  {
    hide Inv, Step, Enabled, StillDetached;
    if events != [] {
      StepKeepsInv(s, cfg, events[0]);
      StepOnlyAdvances(s, cfg, events[0]);
      DetachedThroughout(Step(s, cfg, events[0]), cfg, events[1..], x);
      DetachedBefore(s, cfg, events[0], x);
    }
  }

  /** The timer firing now would expire the session rather than arm the next chunk. */
  predicate Expires(s: Server, cfg: Config, id: nat) {
    Enabled(s, cfg, TimerFires(id)) && Get(s.sessions, id).timer.value.rest == 0
  }

  /**
   * A session expires only after a whole grace detached: at every moment of the
   * run less than a grace ago the same session was there and already detached.
   */
  lemma ExpiresOnlyAfterGrace(cfg: Config, before: seq<Event>, during: seq<Event>, id: nat)
    requires Possible(Start(), cfg, before)
    requires Possible(After(Start(), cfg, before), cfg, during)
    requires Expires(After(After(Start(), cfg, before), cfg, during), cfg, id)
    ensures var s0 := After(Start(), cfg, before);
      var s1 := After(s0, cfg, during);
      var x := Get(s1.sessions, id);
      x.graceMs.Some? && x.attached.None? && x.detachedAt + x.graceMs.value <= s1.now &&
      (s1.now - s0.now < x.graceMs.value ==> StillDetached(s0.sessions, x))
  {
    hide Possible, After, Roles, Room, DetachedBytes;
    var s0 := After(Start(), cfg, before);
    var s1 := After(s0, cfg, during);
    StartOk(cfg);
    RunKeepsInv(Start(), cfg, before);
    RunKeepsInv(s0, cfg, during);
    HeldBySession(s1, id);
    var x := Get(s1.sessions, id);
    if s1.now - s0.now < x.graceMs.value {
      DetachedThroughout(s0, cfg, during, x);
    }
  }

  lemma StartOk(cfg: Config)
    ensures Inv(Start(), cfg)
  {
  }

  // ---- The table of sessions, updated in place ----

  lemma {:induction false} RemoveAllAppends(sessions: seq<Session>, gone: seq<Session>, x: Session)
    ensures RemoveAll(sessions, gone + [x]) == Remove(RemoveAll(sessions, gone), x.id)
    decreases |gone|
  {
    if gone == [] {
      assert ([x] + [])[1..] == [];
    } else {
      RemoveAllAppends(Remove(sessions, gone[0].id), gone[1..], x);
      assert (gone + [x])[1..] == gone[1..] + [x];
    }
  }

  /** The sessions map with the loops over it. */
  class SessionTable {
    var sessions: seq<Session>

    constructor ()
      ensures sessions == []
    {
      sessions := [];
    }

    method Revoke(id: nat)
      modifies this
      ensures sessions == Remove(old(sessions), id)
    {
      sessions := Remove(sessions, id);
    }

    /** Counts the pinned bytes down while it revokes, oldest first. */
    method EnforceDetachedCap()
      modifies this
      ensures sessions == EnforceCap(old(sessions))
    {
      var detached := DetachedByAge(sessions);
      var bytes := Bytes(detached);
      ghost var all := detached;
      ghost var gone := 0;
      while bytes > MAX_DETACHED_BYTES && detached != []
        invariant gone <= |all| && detached == all[gone..]
        invariant bytes == Bytes(detached)
        invariant CapEvictions(all) == gone + CapEvictions(detached)
        invariant sessions == RemoveAll(old(sessions), all[..gone])
        decreases |detached|
      {
        var oldest := detached[0];
        detached := detached[1..];
        bytes := bytes - oldest.held;
        Revoke(oldest.id);
        RemoveAllAppends(old(sessions), all[..gone], oldest);
        assert all[..gone + 1] == all[..gone] + [oldest];
        gone := gone + 1;
      }
    }

    /** Revokes just enough of the oldest detached sessions, or refuses and revokes none. */
    method AdmitConnect(clients: nat, maxSessions: nat) returns (admitted: bool)
      modifies this
      ensures admitted == Admit(old(sessions), clients, maxSessions).Some?
      ensures sessions == if admitted then Admit(old(sessions), clients, maxSessions).value else old(sessions)
    {
      var detached := DetachedByAge(sessions);
      var excess := clients + |detached| - maxSessions;
      if excess <= 0 {
        return true;
      }
      if excess > |detached| {
        return false;
      }
      var i := 0;
      while i < excess
        invariant 0 <= i <= excess
        invariant sessions == RemoveAll(old(sessions), detached[..i])
      {
        Revoke(detached[i].id);
        RemoveAllAppends(old(sessions), detached[..i], detached[i]);
        assert detached[..i + 1] == detached[..i] + [detached[i]];
        i := i + 1;
      }
      return true;
    }

    method DetachSession(id: nat, now: nat)
      modifies this
      ensures sessions == if HasId(old(sessions), id) && Get(old(sessions), id).attached.Some?
                          then DetachAndCap(old(sessions), Get(old(sessions), id), now)
                          else old(sessions)
    {
      if !HasId(sessions, id) || Get(sessions, id).attached.None? {
        return;
      }
      var x := Get(sessions, id);
      x := x.(attached := None, detachedAt := now, timer := None);
      if x.graceMs.Some? {
        x := x.(timer := Some(Arm(now, x.graceMs.value)));
      }
      sessions := Put(sessions, x);
      EnforceDetachedCap();
    }
  }

  // ---- The transport obeys the bounds the events assume ----

  /**
   * A live session of the transport never pins more than three windows, and while
   * no client is attached only target data can make it pin more.
   */
  lemma ConnectedRelay(r: R.Relay, ws: nat, frame: Option<V2Frame>)
    requires r.live && r.Valid()
    ensures r.HeldBytes() <= 3 * MAX_UNACKED_BYTES
    ensures r.writes != [] ==> R.OnWriteDone(r).relay.HeldBytes() <= r.HeldBytes()
    ensures r.attached != Some(ws) ==> R.OnMessage(r, ws, frame).relay == r
    ensures forall id, origin, token, clientAck, serverAck, newToken ::
      R.OnResume(r, ws, id, origin, token, clientAck, serverAck, newToken).relay.HeldBytes() <= r.HeldBytes()
  {
    if r.writes != [] {
      R.WriteDoneKeepsWindows(r);
    }
  }
}
