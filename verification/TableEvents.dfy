/** What each event does to the relay's table, in the terms of its fields. */
module TableEvents {
  import opened Frames
  import opened Admission
  import opened RelayServer

  /** b is a with y in place of the session with y's id. */
  ghost predicate Replaces(a: seq<Session>, b: seq<Session>, y: Session) {
    |a| == |b| && forall i :: 0 <= i < |a| ==> b[i] == if a[i].id == y.id then y else a[i]
  }

  /** b is a without the session of this id, in the same order. */
  ghost predicate Drops(a: seq<Session>, b: seq<Session>, id: nat) {
    (forall y :: y in b ==> y.id != id) &&
    exists k :: 0 <= k < |a| && a[k].id == id && b == a[..k] + a[k + 1..]
  }

  /** b is a without the k sessions that have been detached longest; attached ones stay, and so does the order. */
  ghost predicate Evicts(a: seq<Session>, b: seq<Session>, k: nat) {
    k <= |DetachedByAge(a)| && |b| == |a| - k && DetachedByAge(b) == DetachedByAge(a)[k..] &&
    forall x :: x in b <==> x in a && x !in DetachedByAge(a)[..k]
  }

  // ---- Lists ----

  lemma {:induction false} PutReplaces(a: seq<Session>, y: Session)
    requires UniqueIds(a)
    ensures Replaces(a, Put(a, y), y)
  {
    if a != [] {
      PutReplaces(a[1..], y);
      if a[0].id == y.id {
        forall i | 1 <= i < |a| ensures a[i].id != y.id {
          HasIdMeans(a[1..], y.id);
          assert a[1..][i - 1] in a[1..];
        }
      } else {
        assert forall i :: 1 <= i < |a| ==> a[i] == a[1..][i - 1] && Put(a, y)[i] == Put(a[1..], y)[i - 1];
      }
    }
  }

  lemma {:induction false} RemoveDrops(a: seq<Session>, id: nat)
    requires UniqueIds(a) && HasId(a, id)
    ensures Drops(a, Remove(a, id), id)
  {
    forall y | y in Remove(a, id) ensures y.id != id {
      RemoveFrame(a, id, y);
    }
    if a[0].id == id {
      RemoveUnknown(a[1..], id);
      assert a[..0] + a[0 + 1..] == a[1..];
    } else {
      RemoveDrops(a[1..], id);
      var rest := Remove(a[1..], id);
      var k :| 0 <= k < |a[1..]| && a[1..][k].id == id && rest == a[1..][..k] + a[1..][k + 1..];
      WithoutInTail(a[0], a[1..], k);
      assert a == [a[0]] + a[1..];
      assert a[k + 1].id == id;
    }
  }

  lemma WithoutInTail<T>(head: T, tail: seq<T>, k: nat)
    requires k < |tail|
    ensures [head] + (tail[..k] + tail[k + 1..]) == ([head] + tail)[..k + 1] + ([head] + tail)[k + 2..]
  {
  }

  lemma {:induction false} RemoveAllMembers(a: seq<Session>, gone: seq<Session>, x: Session)
    ensures x in RemoveAll(a, gone) <==> x in a && forall y :: y in gone ==> y.id != x.id
    decreases |gone|
  {
    if gone != [] {
      RemoveAllMembers(Remove(a, gone[0].id), gone[1..], x);
      RemoveFrame(a, gone[0].id, x);
      assert gone == [gone[0]] + gone[1..];
    }
  }

  lemma AgedMembers(a: seq<Session>, x: Session)
    ensures x in DetachedByAge(a) <==> x in a && x.attached.None?
  {
    DetachedMembers(a, x);
    SortedByAge(Detached(a));
    assert x in multiset(DetachedByAge(a)) <==> x in multiset(Detached(a));
  }

  lemma {:induction false} SameIdSameSession(a: seq<Session>, x: Session, y: Session)
    requires UniqueIds(a) && x in a && y in a && x.id == y.id
    ensures x == y
  {
    MemberIsGot(a, x);
    MemberIsGot(a, y);
  }

  lemma OldestGo(a: seq<Session>, k: nat)
    requires UniqueIds(a) && k <= |DetachedByAge(a)|
    ensures Evicts(a, RemoveAll(a, DetachedByAge(a)[..k]), k)
  {
    var gone := DetachedByAge(a)[..k];
    EvictsOldest(a, k);
    forall x ensures x in RemoveAll(a, gone) <==> x in a && x !in gone {
      RemoveAllMembers(a, gone, x);
      if x in a {
        forall y | y in gone && y.id == x.id ensures y == x {
          AgedMembers(a, y);
          SameIdSameSession(a, x, y);
        }
      }
    }
  }

  /** As many of the oldest went as it took to have the detached sessions pin at most 16 MiB, and no more. */
  ghost predicate Capped(a: seq<Session>, b: seq<Session>) {
    exists k :: Evicts(a, b, k) && Bytes(DetachedByAge(b)) <= 16777216 &&
      (k > 0 ==> Bytes(DetachedByAge(a)[k - 1..]) > 16777216)
  }

  lemma {:induction false} BytesAdd(a: seq<Session>, x: Session)
    ensures Bytes(a + [x]) == Bytes(a) + x.held && Bytes([]) == 0
  {
    if a != [] {
      assert (a + [x])[1..] == a[1..] + [x];
      BytesAdd(a[1..], x);
    }
  }

  lemma CapIsCapped(a: seq<Session>)
    requires UniqueIds(a)
    ensures Capped(a, EnforceCap(a))
  {
    hide UniqueIds, DetachedByAge, RemoveAll, Bytes;
    var k := CapEvictions(DetachedByAge(a));
    OldestGo(a, k);
    CapEvictsLeast(DetachedByAge(a));
    assert Evicts(a, EnforceCap(a), k);
  }

  // ---- Sessions that are spoken to ----

  /** The fields other than the sessions are as they were. */
  predicate OnlySessions(s: Server, t: Server) {
    t == s.(sessions := t.sessions)
  }

  lemma Facts(s: Server, cfg: Config, x: Session)
    requires Inv(s, cfg) && x in s.sessions
    ensures UniqueIds(s.sessions) && HasId(s.sessions, x.id) && Get(s.sessions, x.id) == x && x.id < s.nextId
  {
    hide OwnSockets, Apart, DetachedBytes;
    MemberIsGot(s.sessions, x);
    AllOkMeans(s.sessions, s.now, s.nextId, x);
  }

  /**
   * A due timer with no grace left ends its session; one with grace left is armed again,
   * for all of it or as much as a timer can run.
   */
  lemma TimerFires(s: Server, cfg: Config, x: Session)
    requires Inv(s, cfg) && x in s.sessions && x.timer.Some? && x.timer.value.fireAt <= s.now
    ensures Enabled(s, cfg, Event.TimerFires(x.id))
    ensures var t := Step(s, cfg, Event.TimerFires(x.id));
      var rest := x.timer.value.rest;
      var delay := if rest < 2147483647 then rest else 2147483647;
      OnlySessions(s, t) &&
      if rest == 0 then Drops(s.sessions, t.sessions, x.id)
      else Replaces(s.sessions, t.sessions, x.(timer := Some(Timer(s.now + delay, rest - delay))))
  {
    hide Inv, UniqueIds, HasId, Get, Put, Remove;
    Facts(s, cfg, x);
    var rest := x.timer.value.rest;
    if rest == 0 {
      RemoveDrops(s.sessions, x.id);
    } else {
      PutReplaces(s.sessions, x.(timer := Some(Arm(s.now, rest))));
    }
  }

  /** No timer fires early, and none after its session has gone. */
  lemma TimerIsDue(s: Server, cfg: Config, id: nat)
    requires Inv(s, cfg)
    ensures Enabled(s, cfg, Event.TimerFires(id)) <==>
      exists x :: x in s.sessions && x.id == id && x.timer.Some? && x.timer.value.fireAt <= s.now
  {
    hide Inv, UniqueIds, HasId, Get, Step;
    if Enabled(s, cfg, Event.TimerFires(id)) {
      assert Get(s.sessions, id) in s.sessions;
    }
    forall x | x in s.sessions && x.id == id && x.timer.Some? && x.timer.value.fireAt <= s.now
      ensures Enabled(s, cfg, Event.TimerFires(id))
    {
      TimerFires(s, cfg, x);
    }
  }

  /** A session that loses its socket: when, and under a finite grace the timer for it or its first part. */
  function LetGo(x: Session, now: nat): Session {
    Session(x.id, None, x.graceMs,
            if x.graceMs.None? then None
            else if x.graceMs.value <= 2147483647 then Some(Timer(now + x.graceMs.value, 0))
            else Some(Timer(now + 2147483647, x.graceMs.value - 2147483647)),
            now, x.held)
  }

  lemma DetachesAndCaps(s: Server, cfg: Config, x: Session)
    requires Inv(s, cfg) && x in s.sessions
    ensures exists list ::
      Replaces(s.sessions, list, LetGo(x, s.now)) && Capped(list, DetachAndCap(s.sessions, x, s.now))
  {
    hide Inv, UniqueIds, HasId, Get, Put, EnforceCap, Capped;
    Facts(s, cfg, x);
    PutReplaces(s.sessions, LetGo(x, s.now));
    PutIds(s.sessions, LetGo(x, s.now), 0);
    CapIsCapped(Put(s.sessions, LetGo(x, s.now)));
    assert AfterDetach(x, s.now) == LetGo(x, s.now);
  }

  lemma Detaches(s: Server, cfg: Config, x: Session)
    requires Inv(s, cfg) && x in s.sessions && x.attached.Some?
    ensures Enabled(s, cfg, Event.Detaches(x.id))
    ensures var t := Step(s, cfg, Event.Detaches(x.id));
      OnlySessions(s, t) &&
      exists list :: Replaces(s.sessions, list, LetGo(x, s.now)) && Capped(list, t.sessions)
  {
    hide Inv, UniqueIds, HasId, Get, DetachAndCap;
    Facts(s, cfg, x);
    DetachesAndCaps(s, cfg, x);
  }

  /** A resumed session is on the new socket, without a timer. */
  lemma Resumes(s: Server, cfg: Config, ws: nat, x: Session, held: nat)
    requires Inv(s, cfg) && x in s.sessions && Enabled(s, cfg, Event.Resumes(ws, x.id, held))
    ensures var t := Step(s, cfg, Event.Resumes(ws, x.id, held));
      t == s.(sessions := t.sessions, pending := s.pending - {ws}) &&
      Replaces(s.sessions, t.sessions, Session(x.id, Some(ws), x.graceMs, None, x.detachedAt, held))
  {
    hide Inv, UniqueIds, HasId, Get, Put;
    Facts(s, cfg, x);
    PutReplaces(s.sessions, x.(attached := Some(ws), timer := None, held := held));
  }

  lemma Revokes(s: Server, cfg: Config, x: Session)
    requires Inv(s, cfg) && x in s.sessions
    ensures Enabled(s, cfg, Event.Revokes(x.id))
    ensures var t := Step(s, cfg, Event.Revokes(x.id));
      OnlySessions(s, t) && Drops(s.sessions, t.sessions, x.id)
  {
    hide Inv, UniqueIds, HasId, Get, Remove;
    Facts(s, cfg, x);
    RemoveDrops(s.sessions, x.id);
  }

  /** What a session holds changes with its bytes; data from the target can bring the cap down on detached ones. */
  lemma Holding(s: Server, cfg: Config, x: Session, e: Event)
    requires Inv(s, cfg) && x in s.sessions && Enabled(s, cfg, e)
    requires (e.ClientFrame? || e.WriteDone? || e.TargetData?) && e.id == x.id
    ensures var t := Step(s, cfg, e);
      var y := x.(held := e.held);
      OnlySessions(s, t) &&
      if e.TargetData? then exists list :: Replaces(s.sessions, list, y) && Capped(list, t.sessions)
      else Replaces(s.sessions, t.sessions, y)
  {
    hide Inv, UniqueIds, HasId, Get, Put, EnforceCap, Capped;
    Facts(s, cfg, x);
    var y := x.(held := e.held);
    PutReplaces(s.sessions, y);
    PutIds(s.sessions, y, 0);
    CapIsCapped(Put(s.sessions, y));
  }

  // ---- Sockets that come and go ----

  /** A socket is refused when as many handshakes are pending as there may be sessions. */
  lemma Opens(s: Server, cfg: Config, ws: nat)
    requires ws !in s.clients
    ensures Step(s, cfg, Event.Opens(ws)) ==
      if |s.pending| < cfg.maxSessions then s.(clients := s.clients + {ws}, pending := s.pending + {ws}) else s
  {
  }

  /** How many detached sessions must go for the open sockets and the rest to be within maxSessions. */
  function Excess(s: Server, cfg: Config): nat {
    var detached := |DetachedByAge(s.sessions)|;
    if |s.clients| + detached <= cfg.maxSessions then 0 else |s.clients| + detached - cfg.maxSessions
  }

  /** A connect is refused when the open sockets alone exceed maxSessions; else room is made and the session added. */
  lemma ConnectsV2(s: Server, cfg: Config, ws: nat, requested: Option<nat>)
    requires Inv(s, cfg) && ws in s.pending
    ensures var t := Step(s, cfg, Event.ConnectsV2(ws, requested));
      if |s.clients| > cfg.maxSessions then t == s.(pending := s.pending - {ws})
      else
        var grace := if cfg.capGraceMs.None? || (requested.Some? && requested.value < cfg.capGraceMs.value)
                     then requested else cfg.capGraceMs;
        t == s.(sessions := t.sessions, pending := s.pending - {ws}, nextId := s.nextId + 1) &&
        exists kept ::
          Evicts(s.sessions, kept, Excess(s, cfg)) &&
          t.sessions == kept + [Session(s.nextId, Some(ws), grace, None, 0, 0)]
  {
    hide UniqueIds, DetachedByAge, RemoveAll, OwnSockets, AllOk, Apart, DetachedBytes, Evicts;
    AdmissionMakesRoom(s, cfg);
  }

  /** The same for a v1 tunnel, which gets no session. */
  lemma ConnectsV1(s: Server, cfg: Config, ws: nat)
    requires Inv(s, cfg) && ws in s.pending
    ensures var t := Step(s, cfg, Event.ConnectsV1(ws));
      if |s.clients| > cfg.maxSessions then t == s.(pending := s.pending - {ws})
      else
        t == s.(sessions := t.sessions, pending := s.pending - {ws}, v1 := s.v1 + {ws}) &&
        Evicts(s.sessions, t.sessions, Excess(s, cfg))
  {
    hide UniqueIds, DetachedByAge, RemoveAll, OwnSockets, AllOk, Apart, DetachedBytes, Evicts;
    AdmissionMakesRoom(s, cfg);
  }

  lemma AdmissionMakesRoom(s: Server, cfg: Config)
    requires UniqueIds(s.sessions)
    ensures var admitted := Admit(s.sessions, |s.clients|, cfg.maxSessions);
      (admitted.None? <==> |s.clients| > cfg.maxSessions) &&
      (admitted.Some? ==> Evicts(s.sessions, admitted.value, Excess(s, cfg)))
  {
    hide UniqueIds, DetachedByAge, RemoveAll, Evicts;
    var detached := DetachedByAge(s.sessions);
    var k := Excess(s, cfg);
    if k <= |detached| {
      OldestGo(s.sessions, k);
    }
    if k == 0 {
      assert RemoveAll(s.sessions, detached[..0]) == s.sessions by { RemovesNone(s.sessions); }
    }
  }

  lemma RemovesNone(a: seq<Session>)
    ensures RemoveAll(a, []) == a
  {
  }

  /** A socket that closes leaves every set; a session on it is detached. */
  lemma Closes(s: Server, cfg: Config, ws: nat)
    requires Inv(s, cfg) && ws in s.clients
    ensures var t := Step(s, cfg, Event.Closes(ws));
      t == s.(sessions := t.sessions, clients := s.clients - {ws}, pending := s.pending - {ws}, v1 := s.v1 - {ws}) &&
      ((forall x :: x in s.sessions ==> x.attached != Some(ws)) ==> t.sessions == s.sessions) &&
      (forall x :: x in s.sessions && x.attached == Some(ws) ==>
        exists list :: Replaces(s.sessions, list, LetGo(x, s.now)) && Capped(list, t.sessions))
  {
    hide Inv, DetachAndCap, LetGo, Replaces, Capped, UniqueIds;
    var bound := OnSocket(s.sessions, ws);
    IdsUnique(s, cfg);
    OnSocketFinds(s.sessions, ws);
    forall x | x in s.sessions && x.attached == Some(ws) ensures bound == Some(x) {
      SocketHasOne(s, cfg, x, ws);
    }
    if bound.Some? {
      assert bound.value in s.sessions;
      DetachesAndCaps(s, cfg, bound.value);
    }
  }

  lemma IdsUnique(s: Server, cfg: Config)
    requires Inv(s, cfg)
    ensures UniqueIds(s.sessions) && OwnSockets(s.sessions)
  {
    hide Apart, DetachedBytes, AllOk;
  }

  lemma SocketHasOne(s: Server, cfg: Config, x: Session, ws: nat)
    requires Inv(s, cfg) && x in s.sessions && x.attached == Some(ws)
    ensures OnSocket(s.sessions, ws) == Some(x)
  {
    hide Inv, UniqueIds;
    IdsUnique(s, cfg);
    OwnerIsFound(s.sessions, x, ws);
  }

  lemma {:induction false} OwnerIsFound(a: seq<Session>, x: Session, ws: nat)
    requires OwnSockets(a) && x in a && x.attached == Some(ws)
    ensures OnSocket(a, ws) == Some(x) && ws in Sockets(a)
  {
    if x != a[0] {
      assert a == [a[0]] + a[1..];
      OwnerIsFound(a[1..], x, ws);
    }
  }

  /** A first message that is no connect, and the passing of time. */
  lemma TheRest(s: Server, cfg: Config, ws: nat, ms: nat)
    ensures ws in s.pending ==> Step(s, cfg, Misspeaks(ws)) == s.(pending := s.pending - {ws})
    ensures Step(s, cfg, Ticks(ms)) == s.(now := s.now + ms)
  {
  }
}
