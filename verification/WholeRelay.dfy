/**
 * The relay with its transports: the table of sessions and, for each session, the
 * resumable stream behind it. What a session pins is what its own buffers hold.
 */
module WholeRelay {
  import opened Frames
  import opened Admission
  import R = RelayNode
  import S = RelayServer

  datatype Whole = Whole(server: S.Server, state: map<nat, R.Relay>)

  /** What happens to the relay; `Table` is what concerns no session's stream. */
  datatype Action =
    | Table(e: S.Event)
    | Connects(ws: nat, requestedGraceMs: Option<nat>, name: string, origin: string, token: string)
    | Frame(id: nat, frame: Option<V2Frame>)
    | Written(id: nat)
    | Chunk(id: nat, bytes: seq<byte>)
    | Flush(id: nat, n: nat)
    | Resume(ws: nat, id: nat, name: string, origin: string, token: string, clientAck: int, serverAck: int,
             newToken: string)

  predicate OfTable(e: S.Event) {
    e.Opens? || e.Closes? || e.ConnectsV1? || e.Misspeaks? || e.Detaches? || e.Revokes? || e.Ticks? || e.TimerFires?
  }

  ghost predicate Has(w: Whole, id: nat) {
    HasId(w.server.sessions, id) && id in w.state && w.state[id].live && w.state[id].Valid()
  }

  /** The stream of a session; the socket it is attached to is the table's. */
  ghost function Stream(w: Whole, id: nat): (r: R.Relay)
    requires Has(w, id)
    ensures r.live && r.Valid() && r.HeldBytes() == w.state[id].HeldBytes()
  {
    w.state[id].(attached := S.Get(w.server.sessions, id).attached)
  }

  ghost predicate Can(w: Whole, cfg: S.Config, a: Action) {
    match a
    case Table(e) => OfTable(e) && S.Enabled(w.server, cfg, e)
    case Connects(ws, _, _, _, _) => ws in w.server.pending
    case Frame(id, _) => Has(w, id) && Stream(w, id).attached.Some?
    case Written(id) => Has(w, id) && Stream(w, id).writes != []
    case Chunk(id, _) => Has(w, id)
    case Flush(id, n) =>
      Has(w, id) && Stream(w, id).attached.Some? && 0 < n <= SEND_CHUNK_BYTES &&
      Stream(w, id).serverSent + n <= Stream(w, id).serverOffset
    case Resume(ws, id, _, _, _, _, _, _) => ws in w.server.pending && Has(w, id)
  }

  /** What the action does to the session's stream. */
  ghost function Replied(w: Whole, cfg: S.Config, a: Action): R.Relay
    requires Can(w, cfg, a) && !a.Table? && !a.Connects?
  {
    match a
    case Frame(id, frame) => R.OnMessage(Stream(w, id), Stream(w, id).attached.value, frame).relay
    case Written(id) => R.OnWriteDone(Stream(w, id)).relay
    case Chunk(id, bytes) => R.OnTargetData(Stream(w, id), bytes).0
    case Flush(id, n) => R.SendData(Stream(w, id), n).0
    case Resume(_, _, _, _, _, _, _, _) =>
      Answer(w, cfg, a).relay
  }

  /** The stream's answer to a resume request. */
  ghost function Answer(w: Whole, cfg: S.Config, a: Action): R.Reply
    requires Can(w, cfg, a) && a.Resume?
  {
    R.OnResume(Stream(w, a.id), a.ws, a.name, a.origin, a.token, a.clientAck, a.serverAck, a.newToken)
  }

  /** The events of the table that the action is. */
  ghost function Events(w: Whole, cfg: S.Config, a: Action): seq<S.Event>
    requires Can(w, cfg, a)
  {
    match a
    case Table(e) => [e]
    case Connects(ws, requested, _, _, _) => [S.ConnectsV2(ws, requested)]
    case Flush(_, _) => []
    case Frame(id, _) =>
      var r := Replied(w, cfg, a);
      [if !r.live then S.Revokes(id) else if r.attached.None? then S.Detaches(id) else S.ClientFrame(id, r.HeldBytes())]
    case Written(id) => [S.WriteDone(id, Replied(w, cfg, a).HeldBytes())]
    case Chunk(id, _) => [S.TargetData(id, Replied(w, cfg, a).HeldBytes())]
    case Resume(ws, id, _, _, _, _, _, _) =>
      if Answer(w, cfg, a).outcome.Accepted? then [S.Resumes(ws, id, Replied(w, cfg, a).HeldBytes())]
      else if Replied(w, cfg, a).live then [S.Misspeaks(ws)]
      else [S.Misspeaks(ws), S.Revokes(id)]
  }

  /** Every session's stream is valid, and what the table says the session pins is what it holds. */
  ghost predicate Sound(w: Whole) {
    forall x :: x in w.server.sessions ==> x.id in w.state && Behind(x, w.state[x.id])
  }

  ghost predicate Behind(x: Session, r: R.Relay) {
    r.live && r.Valid() && r.HeldBytes() == x.held
  }

  ghost predicate Inv(w: Whole, cfg: S.Config) {
    S.Inv(w.server, cfg) && Sound(w)
  }

  ghost function NewState(w: Whole, cfg: S.Config, a: Action): map<nat, R.Relay>
    requires Can(w, cfg, a)
  {
    if a.Table? then w.state
    else if a.Connects? then w.state[w.server.nextId := R.Connected(a.name, a.origin, a.token, a.ws)]
    else w.state[a.id := Replied(w, cfg, a)]
  }

  ghost function Next(w: Whole, cfg: S.Config, a: Action): Whole
    requires Inv(w, cfg) && Can(w, cfg, a)
  {
    EventsPossible(w, cfg, a);
    Whole(S.After(w.server, cfg, Events(w, cfg, a)), NewState(w, cfg, a))
  }

  // ---- The table takes the events ----

  lemma EventsPossible(w: Whole, cfg: S.Config, a: Action)
    requires Inv(w, cfg) && Can(w, cfg, a)
    ensures S.Possible(w.server, cfg, Events(w, cfg, a))
  {
    hide S.Inv, Sound, R.WriteChain, R.OnMessage, R.OnWriteDone, R.OnTargetData, R.OnResume, R.SendData, S.Step, S.Get,
         HasId;
    var s := w.server;
    match a
    case Table(e) => OnePossible(s, cfg, e);
    case Connects(ws, requested, _, _, _) => OnePossible(s, cfg, S.ConnectsV2(ws, requested));
    case Flush(_, _) =>
    case Frame(id, frame) =>
      FrameHolds(w, cfg, a);
      OnePossible(s, cfg, Events(w, cfg, a)[0]);
    case Written(id) =>
      GetBehind(w, cfg, id);
      WrittenHolds(Stream(w, id));
      OnePossible(s, cfg, Events(w, cfg, a)[0]);
    case Chunk(id, bytes) =>
      ChunkHolds(Stream(w, id), bytes);
      OnePossible(s, cfg, Events(w, cfg, a)[0]);
    case Resume(ws, id, _, _, _, _, _, _) => ResumePossible(w, cfg, a);
  }

  lemma OnePossible(s: S.Server, cfg: S.Config, e: S.Event)
    requires S.Enabled(s, cfg, e)
    ensures S.Possible(s, cfg, [e]) && S.After(s, cfg, [e]) == S.Step(s, cfg, e)
  {
    hide S.Enabled, S.Step;
    assert [e][1..] == [];
    assert S.Possible(S.Step(s, cfg, e), cfg, []);
  }

  lemma GetBehind(w: Whole, cfg: S.Config, id: nat)
    requires Inv(w, cfg) && HasId(w.server.sessions, id)
    ensures id in w.state && Behind(S.Get(w.server.sessions, id), w.state[id])
  {
    hide S.Inv, Behind;
    assert S.Get(w.server.sessions, id) in w.server.sessions;
  }

  lemma FrameHolds(w: Whole, cfg: S.Config, a: Action)
    requires Can(w, cfg, a) && a.Frame?
    ensures Replied(w, cfg, a).Valid() && Replied(w, cfg, a).HeldBytes() <= 3 * MAX_UNACKED_BYTES
    ensures Replied(w, cfg, a).live && Replied(w, cfg, a).attached.None? ==>
      Replied(w, cfg, a).HeldBytes() == Stream(w, a.id).HeldBytes()
  {
    var r := Stream(w, a.id);
    R.MessageKeepsWindows(r, r.attached.value, a.frame);
    hide R.WriteChain, R.ReplayMatches, R.TrimHistory;
  }

  lemma WrittenHolds(r: R.Relay)
    requires r.live && r.Valid() && r.writes != []
    ensures R.OnWriteDone(r).relay.Valid() && R.OnWriteDone(r).relay.live
    ensures R.OnWriteDone(r).relay.HeldBytes() <= r.HeldBytes() <= 3 * MAX_UNACKED_BYTES
  {
    R.WriteDoneKeepsWindows(r);
  }

  lemma ChunkHolds(r: R.Relay, bytes: seq<byte>)
    requires r.live && r.Valid()
    ensures R.OnTargetData(r, bytes).0.Valid() && R.OnTargetData(r, bytes).0.live
    ensures R.OnTargetData(r, bytes).0.HeldBytes() <= 3 * MAX_UNACKED_BYTES
  {
    R.TargetDataKeepsWindows(r, bytes);
  }

  lemma AnswerHolds(r: R.Relay, ws: nat, name: string, origin: string, token: string,
                    clientAck: int, serverAck: int, newToken: string)
    requires r.live && r.Valid()
    ensures var reply := R.OnResume(r, ws, name, origin, token, clientAck, serverAck, newToken);
      reply.relay.Valid() && reply.relay.HeldBytes() <= r.HeldBytes() <= 3 * MAX_UNACKED_BYTES &&
      (reply.outcome.Accepted? ==> reply.relay.live) &&
      (!reply.outcome.Accepted? && reply.relay.live ==> reply.relay == r)
  {
    hide R.WriteChain;
  }

  lemma ResumePossible(w: Whole, cfg: S.Config, a: Action)
    requires Inv(w, cfg) && Can(w, cfg, a) && a.Resume?
    ensures S.Possible(w.server, cfg, Events(w, cfg, a))
  {
    hide S.Inv, Sound, R.WriteChain, R.OnResume, S.Get, HasId;
    var s := w.server;
    GetBehind(w, cfg, a.id);
    AnswerHolds(Stream(w, a.id), a.ws, a.name, a.origin, a.token, a.clientAck, a.serverAck, a.newToken);
    if Answer(w, cfg, a).outcome.Accepted? || Replied(w, cfg, a).live {
      hide S.Step;
      OnePossible(s, cfg, Events(w, cfg, a)[0]);
    } else {
      TwoPossible(s, cfg, a.ws, a.id);
    }
  }

  lemma TwoPossible(s: S.Server, cfg: S.Config, ws: nat, id: nat)
    requires ws in s.pending && HasId(s.sessions, id)
    ensures S.Possible(s, cfg, [S.Misspeaks(ws), S.Revokes(id)])
    ensures S.After(s, cfg, [S.Misspeaks(ws), S.Revokes(id)]).sessions == Remove(s.sessions, id)
  {
    var events := [S.Misspeaks(ws), S.Revokes(id)];
    var s1 := S.Step(s, cfg, S.Misspeaks(ws));
    assert events[1..] == [S.Revokes(id)];
    OnePossible(s1, cfg, S.Revokes(id));
  }

  // ---- Where a session in the table comes from ----

  /** The event says what its own session pins; every other session pins what it did. */
  ghost predicate Traced(s: S.Server, e: S.Event, x: Session) {
    (e.ConnectsV2? && x.id == s.nextId && x.held == 0) ||
    (SaysHeld(e) && x.id == e.id && x.held == e.held) ||
    (!(SaysHeld(e) && x.id == e.id) && !(e.Revokes? && x.id == e.id) && SamePins(s.sessions, x))
  }

  predicate SaysHeld(e: S.Event) {
    e.ClientFrame? || e.WriteDone? || e.TargetData? || e.Resumes?
  }

  ghost predicate SamePins(sessions: seq<Session>, x: Session) {
    exists y :: y in sessions && y.id == x.id && y.held == x.held
  }

  lemma {:induction false} PutOnly(sessions: seq<Session>, y: Session, x: Session)
    requires UniqueIds(sessions) && x in S.Put(sessions, y)
    ensures x == y || (x in sessions && x.id != y.id)
  {
    if sessions[0].id == y.id {
      if x in sessions[1..] {
        S.MemberIsGot(sessions[1..], x);
      }
    } else if x != sessions[0] {
      assert S.Put(sessions, y) == [sessions[0]] + S.Put(sessions[1..], y);
      PutOnly(sessions[1..], y, x);
    }
  }

  lemma StepTraced(s: S.Server, cfg: S.Config, e: S.Event, x: Session)
    requires UniqueIds(s.sessions) && S.Enabled(s, cfg, e) && x in S.Step(s, cfg, e).sessions
    ensures Traced(s, e, x)
  {
    hide UniqueIds, EnforceCap, S.Put, Remove, RemoveAll, DetachedByAge, Admit, S.OnSocket;
    if e.Closes? {
      ClosedTraced(s, cfg, e.ws, x);
    } else if e.Detaches? {
      DetachTraced(s.sessions, S.Get(s.sessions, e.id), s.now, x);
    } else if e.TargetData? {
      var y := S.Get(s.sessions, e.id).(held := e.held);
      S.CappedFrom(S.Put(s.sessions, y), x);
      PutOnly(s.sessions, y, x);
    } else if e.ConnectsV2? || e.ConnectsV1? {
      if Admit(s.sessions, |s.clients|, cfg.maxSessions).Some? && x !in s.sessions &&
         x in Admit(s.sessions, |s.clients|, cfg.maxSessions).value {
        S.AdmitMembers(s, cfg, x);
      }
    } else if e.Revokes? {
      RemoveFrame(s.sessions, e.id, x);
    } else if e.TimerFires? {
      var y := S.Get(s.sessions, e.id);
      if y.timer.value.rest > 0 {
        PutOnly(s.sessions, y.(timer := Some(S.Arm(s.now, y.timer.value.rest))), x);
      } else {
        RemoveFrame(s.sessions, e.id, x);
      }
    } else if e.Resumes? {
      PutOnly(s.sessions, S.Get(s.sessions, e.id).(attached := Some(e.ws), timer := None, held := e.held), x);
    } else if e.ClientFrame? || e.WriteDone? {
      PutOnly(s.sessions, S.Get(s.sessions, e.id).(held := e.held), x);
    }
  }

  lemma DetachTraced(sessions: seq<Session>, y: Session, now: nat, x: Session)
    requires UniqueIds(sessions) && y in sessions && x in S.DetachAndCap(sessions, y, now)
    ensures SamePins(sessions, x)
  {
    hide UniqueIds, EnforceCap, S.Put;
    S.CappedFrom(S.Put(sessions, S.AfterDetach(y, now)), x);
    PutOnly(sessions, S.AfterDetach(y, now), x);
  }

  lemma ClosedTraced(s: S.Server, cfg: S.Config, ws: nat, x: Session)
    requires UniqueIds(s.sessions) && x in S.Closed(s, ws).sessions
    ensures SamePins(s.sessions, x)
  {
    hide UniqueIds, S.DetachAndCap, S.OnSocket;
    S.OnSocketFinds(s.sessions, ws);
    var bound := S.OnSocket(s.sessions, ws);
    if bound.Some? {
      assert S.Get(s.sessions, bound.value.id) in s.sessions;
      DetachTraced(s.sessions, bound.value, s.now, x);
    }
  }

  // ---- Every action keeps the table true ----

  /** As far as the table is concerned. */
  ghost predicate SameStream(before: R.Relay, after: R.Relay) {
    before.live && before.Valid() ==> after.live && after.Valid() && after.HeldBytes() == before.HeldBytes()
  }

  /** The event decides anew what this session pins, or removes it. */
  predicate Renews(s: S.Server, e: S.Event, id: nat) {
    (SaysHeld(e) && id == e.id) || (e.Revokes? && id == e.id) || (e.ConnectsV2? && id == s.nextId)
  }

  /** What an event says its own session pins is what the session's stream then holds; other streams stay. */
  ghost predicate Follows(w: Whole, e: S.Event, state: map<nat, R.Relay>) {
    (forall id :: id in w.state && !Renews(w.server, e, id) ==> id in state && SameStream(w.state[id], state[id])) &&
    (SaysHeld(e) ==>
       e.id in state && state[e.id].live && state[e.id].Valid() && state[e.id].HeldBytes() == e.held) &&
    (e.ConnectsV2? ==>
       (var id := w.server.nextId; id in state && state[id].live && state[id].Valid() && state[id].HeldBytes() == 0))
  }

  lemma StepSound(w: Whole, cfg: S.Config, e: S.Event, state: map<nat, R.Relay>)
    requires Inv(w, cfg) && S.Enabled(w.server, cfg, e) && Follows(w, e, state)
    ensures Inv(Whole(S.Step(w.server, cfg, e), state), cfg)
  {
    hide S.Inv, S.Step, S.Enabled, R.WriteChain;
    S.StepKeepsInv(w.server, cfg, e);
    InvIds(w.server, cfg);
    var s := w.server;
    forall x | x in S.Step(s, cfg, e).sessions ensures x.id in state && Behind(x, state[x.id]) {
      StepTraced(s, cfg, e, x);
    }
  }

  lemma InvIds(s: S.Server, cfg: S.Config)
    requires S.Inv(s, cfg)
    ensures UniqueIds(s.sessions) && forall y :: y in s.sessions ==> y.id < s.nextId
  {
    hide UniqueIds, S.OwnSockets, S.AllOk, S.Sockets, S.Apart, DetachedBytes;
    forall y | y in s.sessions ensures y.id < s.nextId {
      S.AllOkMeans(s.sessions, s.now, s.nextId, y);
    }
  }

  /** The action's own event tells the truth about the stream it leaves. */
  lemma FirstFollows(w: Whole, cfg: S.Config, a: Action)
    requires Inv(w, cfg) && Can(w, cfg, a) && |Events(w, cfg, a)| == 1
    ensures Follows(w, Events(w, cfg, a)[0], NewState(w, cfg, a))
  {
    hide S.Inv, Sound, R.Relay.Valid, R.Relay.HeldBytes, R.OnMessage, R.OnWriteDone, R.OnTargetData, R.OnResume, S.Get,
         HasId, S.Enabled, Follows, Stream;
    match a
    case Table(e) => NothingFollows(w, e);
    case Connects(ws, requested, name, origin, token) =>
      NewFollows(w, S.ConnectsV2(ws, requested), name, origin, token, ws);
    case Frame(id, frame) =>
      FrameHolds(w, cfg, a);
      StreamFollows(w, Events(w, cfg, a)[0], id, Replied(w, cfg, a));
    case Written(id) =>
      WrittenHolds(Stream(w, id));
      StreamFollows(w, Events(w, cfg, a)[0], id, Replied(w, cfg, a));
    case Chunk(id, bytes) =>
      ChunkHolds(Stream(w, id), bytes);
      StreamFollows(w, Events(w, cfg, a)[0], id, Replied(w, cfg, a));
    case Resume(ws, id, name, origin, token, clientAck, serverAck, newToken) =>
      AnswerHolds(Stream(w, id), ws, name, origin, token, clientAck, serverAck, newToken);
      StreamFollows(w, Events(w, cfg, a)[0], id, Replied(w, cfg, a));
  }

  lemma NothingFollows(w: Whole, e: S.Event)
    requires OfTable(e)
    ensures Follows(w, e, w.state)
  {
    hide R.Relay.Valid, R.Relay.HeldBytes;
  }

  lemma NewFollows(w: Whole, e: S.Event, name: string, origin: string, token: string, ws: nat)
    requires e.ConnectsV2?
    ensures Follows(w, e, w.state[w.server.nextId := R.Connected(name, origin, token, ws)])
  {
    R.ConnectedIsValid(name, origin, token, ws);
    hide R.Relay.Valid;
  }

  /** The event of one session's stream: it says what the stream holds, or ends it, or leaves what it holds. */
  lemma StreamFollows(w: Whole, e: S.Event, id: nat, r: R.Relay)
    requires Has(w, id) && r.Valid() && !e.ConnectsV2?
    requires if SaysHeld(e) then e.id == id && r.live && r.HeldBytes() == e.held
             else (e.Revokes? && e.id == id) || (!e.Revokes? && r.live && r.HeldBytes() == w.state[id].HeldBytes())
    ensures Follows(w, e, w.state[id := r])
  {
    hide R.Relay.Valid, R.Relay.HeldBytes, S.Get;
  }

  lemma NextKeeps(w: Whole, cfg: S.Config, a: Action)
    requires Inv(w, cfg) && Can(w, cfg, a)
    ensures Inv(Next(w, cfg, a), cfg)
  {
    hide Inv, Can, Events, NewState, Follows, S.Step, S.Enabled;
    EventsPossible(w, cfg, a);
    EventCount(w, cfg, a);
    var events := Events(w, cfg, a);
    if events == [] {
      FlushKeeps(w, cfg, a);
    } else if |events| == 1 {
      assert events == [events[0]];
      FirstFollows(w, cfg, a);
      FirstEnabled(w.server, cfg, events[0]);
      OnePossible(w.server, cfg, events[0]);
      StepSound(w, cfg, events[0], NewState(w, cfg, a));
    } else {
      RefusalKeeps(w, cfg, a);
    }
  }

  lemma FirstEnabled(s: S.Server, cfg: S.Config, e: S.Event)
    requires S.Possible(s, cfg, [e])
    ensures S.Enabled(s, cfg, e)
  {
    hide S.Enabled, S.Step;
  }

  lemma EventCount(w: Whole, cfg: S.Config, a: Action)
    requires Can(w, cfg, a)
    ensures |Events(w, cfg, a)| <= 2
    ensures |Events(w, cfg, a)| == 0 ==> a.Flush?
    ensures |Events(w, cfg, a)| == 2 ==>
      a.Resume? && Events(w, cfg, a) == [S.Misspeaks(a.ws), S.Revokes(a.id)]
  {
    hide R.OnResume, R.OnMessage, R.OnWriteDone, R.OnTargetData;
  }

  lemma FlushKeeps(w: Whole, cfg: S.Config, a: Action)
    requires Inv(w, cfg) && Can(w, cfg, a) && a.Flush?
    ensures Inv(Whole(w.server, NewState(w, cfg, a)), cfg)
  {
    hide S.Inv, S.Get, HasId, R.WriteChain;
    var r := Stream(w, a.id);
    assert R.SendData(r, a.n).0.Valid() && R.SendData(r, a.n).0.HeldBytes() == r.HeldBytes();
  }

  lemma RefusalKeeps(w: Whole, cfg: S.Config, a: Action)
    requires Inv(w, cfg) && Can(w, cfg, a) && a.Resume?
    requires Events(w, cfg, a) == [S.Misspeaks(a.ws), S.Revokes(a.id)] && S.Possible(w.server, cfg, Events(w, cfg, a))
    ensures Inv(Whole(S.After(w.server, cfg, Events(w, cfg, a)), NewState(w, cfg, a)), cfg)
  {
    hide S.Inv, R.OnResume, Sound, R.WriteChain;
    var e1, e2 := S.Misspeaks(a.ws), S.Revokes(a.id);
    StepSound(w, cfg, e1, w.state);
    var w1 := Whole(S.Step(w.server, cfg, e1), w.state);
    StepSound(w1, cfg, e2, NewState(w, cfg, a));
    assert [e1, e2][1..] == [e2];
    OnePossible(w1.server, cfg, e2);
  }

  // ---- Every run ----

  ghost predicate Runs(w: Whole, cfg: S.Config, actions: seq<Action>, w': Whole)
    decreases |actions|
  {
    if actions == [] then w' == w
    else Inv(w, cfg) && Can(w, cfg, actions[0]) && Runs(Next(w, cfg, actions[0]), cfg, actions[1..], w')
  }

  lemma {:induction false} RunKeeps(w: Whole, cfg: S.Config, actions: seq<Action>, w': Whole)
    requires Inv(w, cfg) && Runs(w, cfg, actions, w')
    ensures Inv(w', cfg)
    decreases |actions|
  {
    hide Inv, Can, Next;
    if actions != [] {
      NextKeeps(w, cfg, actions[0]);
      RunKeeps(Next(w, cfg, actions[0]), cfg, actions[1..], w');
    }
  }

  lemma {:induction false} PossibleJoins(s: S.Server, cfg: S.Config, a: seq<S.Event>, b: seq<S.Event>)
    requires S.Possible(s, cfg, a) && S.Possible(S.After(s, cfg, a), cfg, b)
    ensures S.Possible(s, cfg, a + b) && S.After(s, cfg, a + b) == S.After(S.After(s, cfg, a), cfg, b)
    decreases |a|
  {
    hide S.Enabled, S.Step;
    if a == [] {
      assert a + b == b;
    } else {
      assert (a + b)[1..] == a[1..] + b;
      PossibleJoins(S.Step(s, cfg, a[0]), cfg, a[1..], b);
    }
  }

  /** Every run of the relay with its streams is a run of the table, so all that is proved of the table holds. */
  lemma {:induction false} RunsAreTableRuns(w: Whole, cfg: S.Config, actions: seq<Action>, w': Whole)
      returns (events: seq<S.Event>)
    requires Runs(w, cfg, actions, w')
    ensures S.Possible(w.server, cfg, events) && S.After(w.server, cfg, events) == w'.server
    decreases |actions|
  {
    hide Inv, Can, Events, NewState, S.Enabled, S.Step;
    if actions == [] {
      events := [];
    } else {
      var a := actions[0];
      EventsPossible(w, cfg, a);
      var rest := RunsAreTableRuns(Next(w, cfg, a), cfg, actions[1..], w');
      PossibleJoins(w.server, cfg, Events(w, cfg, a), rest);
      events := Events(w, cfg, a) + rest;
    }
  }

  /** What the buffers of the detached sessions' streams hold. */
  function PinnedBytes(sessions: seq<Session>, state: map<nat, R.Relay>): nat {
    if sessions == [] then 0
    else
      var x := sessions[0];
      (if x.attached.None? && x.id in state then state[x.id].HeldBytes() else 0) + PinnedBytes(sessions[1..], state)
  }

  lemma {:induction false} PinnedIsHeld(sessions: seq<Session>, state: map<nat, R.Relay>)
    requires forall x :: x in sessions ==> x.id in state && Behind(x, state[x.id])
    ensures PinnedBytes(sessions, state) == DetachedBytes(sessions)
  {
    if sessions != [] {
      assert sessions[0] in sessions;
      assert forall x :: x in sessions[1..] ==> x in sessions;
      PinnedIsHeld(sessions[1..], state);
    }
  }

  /**
   * In every run of the relay, with every frame, completion, chunk and resume its
   * sessions see: each session's stream is within its windows, and the buffers of
   * all detached sessions together hold at most 16 MiB.
   */
  lemma BuffersStayBounded(cfg: S.Config, actions: seq<Action>, w: Whole)
    requires Runs(Whole(S.Start(), map[]), cfg, actions, w)
    ensures PinnedBytes(w.server.sessions, w.state) <= MAX_DETACHED_BYTES
    ensures |w.server.sessions| + |w.server.v1| <= cfg.maxSessions
    ensures forall x :: x in w.server.sessions ==>
      x.id in w.state && w.state[x.id].live && w.state[x.id].Valid() &&
      w.state[x.id].HeldBytes() <= 3 * MAX_UNACKED_BYTES
  {
    hide Runs, R.WriteChain;
    S.StartOk(cfg);
    RunKeeps(Whole(S.Start(), map[]), cfg, actions, w);
    PinnedIsHeld(w.server.sessions, w.state);
  }
}
