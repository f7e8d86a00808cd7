/**
 * Sessions that nobody resumes do expire, and no session outstays the cap.
 *
 * A detached session's timer is armed for one part of its grace after another, in the
 * order of Delays; the firing after the last part ends the session. Nothing else that
 * happens at the relay moves that timer unless the session is resumed.
 */
module Expiry {
  import opened Frames
  import opened Admission
  import opened RelayServer
  import T = TableEvents

  // ---- What a step can have done to a session ----

  function Granted(requested: Option<nat>, cap: Option<nat>): Option<nat> {
    if cap.None? || (requested.Some? && requested.value < cap.value) then requested else cap
  }

  /**
   * The session is new, or it was there. It has got no socket but by being resumed, and a
   * detached one is as it was unless its timer fired or it was resumed.
   */
  ghost predicate Came(s: Server, cfg: Config, e: Event, y: Session) {
    (e.ConnectsV2? && y.id == s.nextId && y.graceMs == Granted(e.requestedGraceMs, cfg.capGraceMs)) ||
    exists x :: x in s.sessions && CameFrom(s, e, x, y)
  }

  predicate CameFrom(s: Server, e: Event, x: Session, y: Session) {
    x.id == y.id && x.graceMs == y.graceMs &&
    (y.attached == x.attached || y.attached.None? ||
     (e.Resumes? && e.id == x.id && y.attached == Some(e.ws))) &&
    (x.attached.None? ==> y == x.(held := y.held) || ((e.Resumes? || e.TimerFires?) && e.id == x.id))
  }

  lemma InReplaced(a: seq<Session>, b: seq<Session>, z: Session, y: Session)
    requires T.Replaces(a, b, z) && y in b
    ensures y == z || y in a
  {
    var i :| 0 <= i < |b| && b[i] == y;
    assert b[i] == if a[i].id == z.id then z else a[i];
  }

  lemma InCapped(a: seq<Session>, b: seq<Session>, y: Session)
    requires T.Capped(a, b) && y in b
    ensures y in a
  {
    hide DetachedByAge, Bytes;
  }

  lemma InDropped(a: seq<Session>, b: seq<Session>, id: nat, y: Session)
    requires T.Drops(a, b, id) && y in b
    ensures y in a && y.id != id
  {
  }

  lemma InSpokenTo(s: Server, cfg: Config, e: Event, y: Session)
    requires Inv(s, cfg) && Enabled(s, cfg, e) && y in Step(s, cfg, e).sessions
    requires e.Resumes? || e.ClientFrame? || e.WriteDone? || e.TargetData? || e.Detaches? || e.Revokes? || e.TimerFires?
    ensures Came(s, cfg, e, y)
  {
    hide Inv, Enabled, Step, T.Replaces, T.Capped, T.Drops, HasId;
    assert HasId(s.sessions, e.id) by { SpeaksToOne(s, cfg, e); }
    var x, b := Get(s.sessions, e.id), Step(s, cfg, e).sessions;
    match e
    case Resumes(ws, _, held) =>
      T.Resumes(s, cfg, ws, x, held);
      InReplaced(s.sessions, b, Session(x.id, Some(ws), x.graceMs, None, x.detachedAt, held), y);
    case Detaches(_) =>
      SpeaksToOne(s, cfg, e);
      T.Detaches(s, cfg, x);
      var list :| T.Replaces(s.sessions, list, T.LetGo(x, s.now)) && T.Capped(list, b);
      InCapped(list, b, y);
      InReplaced(s.sessions, list, T.LetGo(x, s.now), y);
    case Revokes(_) =>
      T.Revokes(s, cfg, x);
      InDropped(s.sessions, b, x.id, y);
    case TimerFires(_) => InFired(s, cfg, x, y);
    case _ => InHeld(s, cfg, x, e, y);
  }

  lemma SpeaksToOne(s: Server, cfg: Config, e: Event)
    requires Enabled(s, cfg, e)
    requires e.Resumes? || e.ClientFrame? || e.WriteDone? || e.TargetData? || e.Detaches? || e.Revokes? || e.TimerFires?
    ensures HasId(s.sessions, e.id)
    ensures e.Detaches? ==> Get(s.sessions, e.id).attached.Some?
    ensures e.TimerFires? ==> Due(Get(s.sessions, e.id), s.now)
  {
    hide HasId, Get, MayHold;
  }

  lemma InFired(s: Server, cfg: Config, x: Session, y: Session)
    requires Inv(s, cfg) && x in s.sessions && Enabled(s, cfg, TimerFires(x.id))
    requires y in Step(s, cfg, TimerFires(x.id)).sessions
    ensures Came(s, cfg, TimerFires(x.id), y)
  {
    hide Inv, Step, T.Replaces, T.Drops;
    assert Due(x, s.now) by { T.Facts(s, cfg, x); }
    T.TimerFires(s, cfg, x);
    var b, rest := Step(s, cfg, TimerFires(x.id)).sessions, x.timer.value.rest;
    if rest == 0 {
      InDropped(s.sessions, b, x.id, y);
    } else {
      var delay := if rest < 2147483647 then rest else 2147483647;
      InReplaced(s.sessions, b, x.(timer := Some(Timer(s.now + delay, rest - delay))), y);
    }
  }

  lemma InHeld(s: Server, cfg: Config, x: Session, e: Event, y: Session)
    requires Inv(s, cfg) && x in s.sessions && Enabled(s, cfg, e) && y in Step(s, cfg, e).sessions
    requires (e.ClientFrame? || e.WriteDone? || e.TargetData?) && e.id == x.id
    ensures Came(s, cfg, e, y)
  {
    hide Inv, Enabled, Step, T.Replaces, T.Capped, HasId;
    T.Holding(s, cfg, x, e);
    var b, z := Step(s, cfg, e).sessions, x.(held := e.held);
    if e.TargetData? {
      var list :| T.Replaces(s.sessions, list, z) && T.Capped(list, b);
      InCapped(list, b, y);
      InReplaced(s.sessions, list, z, y);
    } else {
      InReplaced(s.sessions, b, z, y);
    }
  }

  lemma InOpened(s: Server, cfg: Config, e: Event, y: Session)
    requires Inv(s, cfg) && Enabled(s, cfg, e) && y in Step(s, cfg, e).sessions
    requires e.Closes? || e.ConnectsV2? || e.ConnectsV1?
    ensures Came(s, cfg, e, y)
  {
    hide Inv, Step, T.Replaces, T.Capped, T.Evicts;
    var b := Step(s, cfg, e).sessions;
    match e
    case Closes(ws) =>
      T.Closes(s, cfg, ws);
      if x :| x in s.sessions && x.attached == Some(ws) {
        var list :| T.Replaces(s.sessions, list, T.LetGo(x, s.now)) && T.Capped(list, b);
        InCapped(list, b, y);
        InReplaced(s.sessions, list, T.LetGo(x, s.now), y);
      }
    case ConnectsV2(ws, requested) =>
      T.ConnectsV2(s, cfg, ws, requested);
      if |s.clients| <= cfg.maxSessions {
        var added := Session(s.nextId, Some(ws), Granted(requested, cfg.capGraceMs), None, 0, 0);
        var kept :| T.Evicts(s.sessions, kept, T.Excess(s, cfg)) && b == kept + [added];
        if y != added {
          InEvicted(s.sessions, kept, T.Excess(s, cfg), y);
        }
      }
    case ConnectsV1(ws) =>
      T.ConnectsV1(s, cfg, ws);
      if |s.clients| <= cfg.maxSessions {
        InEvicted(s.sessions, b, T.Excess(s, cfg), y);
      }
  }

  lemma InEvicted(a: seq<Session>, b: seq<Session>, k: nat, y: Session)
    requires T.Evicts(a, b, k) && y in b
    ensures y in a
  {
    hide DetachedByAge;
  }

  lemma EverySessionCame(s: Server, cfg: Config, e: Event, y: Session)
    requires Inv(s, cfg) && Enabled(s, cfg, e) && y in Step(s, cfg, e).sessions
    ensures Came(s, cfg, e, y)
  {
    hide Inv;
    match e
    case Opens(ws) => T.Opens(s, cfg, ws);
    case Misspeaks(ws) => T.TheRest(s, cfg, ws, 0);
    case Ticks(ms) => T.TheRest(s, cfg, 0, ms);
    case Closes(_) => InOpened(s, cfg, e, y);
    case ConnectsV2(_, _) => InOpened(s, cfg, e, y);
    case ConnectsV1(_) => InOpened(s, cfg, e, y);
    case _ => InSpokenTo(s, cfg, e, y);
  }

  // ---- The cap on the grace ----

  ghost predicate WithinCap(s: Server, cfg: Config) {
    cfg.capGraceMs.Some? ==>
      forall x :: x in s.sessions ==> x.graceMs.Some? && x.graceMs.value <= cfg.capGraceMs.value
  }

  lemma StepStaysWithinCap(s: Server, cfg: Config, e: Event)
    requires Inv(s, cfg) && WithinCap(s, cfg) && Enabled(s, cfg, e)
    ensures WithinCap(Step(s, cfg, e), cfg)
  {
    hide Inv, Enabled, Step;
    forall y | y in Step(s, cfg, e).sessions && cfg.capGraceMs.Some?
      ensures y.graceMs.Some? && y.graceMs.value <= cfg.capGraceMs.value
    {
      EverySessionCame(s, cfg, e, y);
    }
  }

  lemma {:induction false} RunStaysWithinCap(s: Server, cfg: Config, events: seq<Event>)
    requires Inv(s, cfg) && WithinCap(s, cfg) && Possible(s, cfg, events)
    ensures WithinCap(After(s, cfg, events), cfg)
    decreases |events|
  {
    hide Inv, WithinCap, Enabled, Step;
    if events != [] {
      StepKeepsInv(s, cfg, events[0]);
      StepStaysWithinCap(s, cfg, events[0]);
      RunStaysWithinCap(Step(s, cfg, events[0]), cfg, events[1..]);
    }
  }

  /**
   * In every reachable state no session has a longer grace than the relay's cap, nor an
   * unlimited one under a finite cap.
   */
  lemma NoGraceAboveTheCap(cfg: Config, events: seq<Event>, x: Session)
    requires Possible(Start(), cfg, events) && x in After(Start(), cfg, events).sessions && cfg.capGraceMs.Some?
    ensures x.graceMs.Some? && x.graceMs.value <= cfg.capGraceMs.value
  {
    hide Inv, Possible, After;
    StartOk(cfg);
    RunStaysWithinCap(Start(), cfg, events);
  }

  // ---- Firings ----

  /** How often this session's timer fires among the events. */
  function Firings(events: seq<Event>, id: nat): nat {
    if events == [] then 0 else (if events[0] == TimerFires(id) then 1 else 0) + Firings(events[1..], id)
  }

  /** Nobody resumes the session. */
  predicate Unresumed(events: seq<Event>, id: nat) {
    forall e :: e in events && e.Resumes? ==> e.id != id
  }

  /** When the timer fired last, or `since` if it never did. */
  function LastFiring(s: Server, cfg: Config, events: seq<Event>, id: nat, since: nat): nat
    requires Possible(s, cfg, events)
    decreases |events|
  {
    if events == [] then since
    else
      LastFiring(Step(s, cfg, events[0]), cfg, events[1..], id, if events[0] == TimerFires(id) then s.now else since)
  }

  /** x is detached and its timer was set at `at` for the first of these delays, with the others left. */
  predicate Armed(x: Session, at: nat, delays: seq<nat>) {
    x.attached.None? && delays != [] && x.timer == Some(Timer(at + delays[0], Sum(delays[1..])))
  }

  /** The parts of a grace, written out: each is the whole of what is left or 2147483647 ms. */
  lemma {:induction false} DelayIs(grace: nat, k: nat)
    requires k < |Delays(grace)|
    ensures 2147483647 * k <= grace
    ensures var left := grace - 2147483647 * k;
      Delays(grace)[k] == if left < 2147483647 then left else 2147483647
    ensures Sum(Delays(grace)[k + 1..]) == grace - 2147483647 * k - Delays(grace)[k]
  {
    DelaysCoverTheGrace(grace);
    var delays := Delays(grace);
    if k > 0 {
      DelayIs(grace - MAX_TIMER_MS, k - 1);
      assert delays[1..] == Delays(grace - MAX_TIMER_MS);
      assert delays[1..][k..] == delays[k + 1..];
    }
  }

  /** A session gone from the table never comes back. */
  lemma {:induction false} GoneStaysGone(s: Server, cfg: Config, events: seq<Event>, id: nat)
    requires Inv(s, cfg) && Possible(s, cfg, events) && !HasId(s.sessions, id) && id < s.nextId
    ensures !HasId(After(s, cfg, events).sessions, id) && Firings(events, id) == 0
    decreases |events|
  {
    hide Inv, Step, Enabled, HasId;
    if events != [] {
      StepKeepsInv(s, cfg, events[0]);
      GoneAfterStep(s, cfg, events[0], id);
      GoneStaysGone(Step(s, cfg, events[0]), cfg, events[1..], id);
    }
  }

  lemma GoneAfterStep(s: Server, cfg: Config, e: Event, id: nat)
    requires Inv(s, cfg) && Enabled(s, cfg, e) && !HasId(s.sessions, id) && id < s.nextId
    ensures !HasId(Step(s, cfg, e).sessions, id) && id < Step(s, cfg, e).nextId && e != TimerFires(id)
  {
    hide Inv, HasId;
    var t := Step(s, cfg, e);
    if HasId(t.sessions, id) {
      EverySessionCame(s, cfg, e, Get(t.sessions, id));
      HasIdMeans(s.sessions, id);
    }
    assert s.nextId <= t.nextId;
  }

  lemma ArmedStays(s: Server, cfg: Config, e: Event, id: nat, at: nat, delays: seq<nat>)
    requires Inv(s, cfg) && Enabled(s, cfg, e) && HasId(s.sessions, id) && Armed(Get(s.sessions, id), at, delays)
    requires (e.Resumes? ==> e.id != id) && e != TimerFires(id) && HasId(Step(s, cfg, e).sessions, id)
    ensures Armed(Get(Step(s, cfg, e).sessions, id), at, delays)
  {
    hide Inv, HasId, Step, Enabled;
    var x, y := Get(s.sessions, id), Get(Step(s, cfg, e).sessions, id);
    EverySessionCame(s, cfg, e, y);
    T.Facts(s, cfg, x);
    var z :| z in s.sessions && CameFrom(s, e, z, y);
    T.Facts(s, cfg, z);
    T.SameIdSameSession(s.sessions, x, z);
  }

  /** A firing ends the session after the last delay and arms the next one before that. */
  lemma FiringMovesOn(s: Server, cfg: Config, id: nat, at: nat, left: nat)
    requires Inv(s, cfg) && Enabled(s, cfg, TimerFires(id)) && HasId(s.sessions, id)
    requires Armed(Get(s.sessions, id), at, Delays(left))
    ensures var t := Step(s, cfg, TimerFires(id));
      if |Delays(left)| == 1 then !HasId(t.sessions, id) && id < t.nextId
      else
        left > MAX_TIMER_MS && Delays(left)[1..] == Delays(left - MAX_TIMER_MS) &&
        HasId(t.sessions, id) && Armed(Get(t.sessions, id), s.now, Delays(left - MAX_TIMER_MS))
  {
    hide Inv, HasId, Step;
    var x, t := Get(s.sessions, id), Step(s, cfg, TimerFires(id));
    T.Facts(s, cfg, x);
    T.TimerFires(s, cfg, x);
    var rest := x.timer.value.rest;
    LeftAfterOne(left);
    if rest == 0 {
      forall y | y in t.sessions ensures y.id != id {
      }
      HasIdMeans(t.sessions, id);
    } else {
      var delay := if rest < 2147483647 then rest else 2147483647;
      var y := x.(timer := Some(Timer(s.now + delay, rest - delay)));
      var i :| 0 <= i < |s.sessions| && s.sessions[i] == x;
      assert t.sessions[i] == y;
      HasIdMeans(t.sessions, id);
      LeftAfterOne(rest);
      StepKeepsInv(s, cfg, TimerFires(id));
      T.Facts(t, cfg, y);
    }
  }

  lemma LeftAfterOne(left: nat)
    ensures |Delays(left)| > 0
    ensures Delays(left)[0] == if left < MAX_TIMER_MS then left else MAX_TIMER_MS
    ensures Sum(Delays(left)[1..]) == left - Delays(left)[0]
    ensures |Delays(left)| == 1 <==> left <= MAX_TIMER_MS
    ensures left > MAX_TIMER_MS ==> Delays(left)[1..] == Delays(left - MAX_TIMER_MS)
  {
    DelaysCoverTheGrace(left);
  }

  lemma {:induction false} ArmedRuns(s: Server, cfg: Config, events: seq<Event>, id: nat, at: nat, left: nat)
    requires Inv(s, cfg) && Possible(s, cfg, events) && Unresumed(events, id)
    requires HasId(s.sessions, id) && Armed(Get(s.sessions, id), at, Delays(left))
    ensures var k, t := Firings(events, id), After(s, cfg, events);
      k <= |Delays(left)| &&
      (HasId(t.sessions, id) ==>
        k < |Delays(left)| &&
        Armed(Get(t.sessions, id), LastFiring(s, cfg, events, id, at), Delays(left)[k..]))
    decreases |events|
  {
    hide Inv, Step, Enabled, HasId, Armed, Delays;
    if events != [] {
      var e, rest := events[0], events[1..];
      var t := Step(s, cfg, e);
      StepKeepsInv(s, cfg, e);
      LeftAfterOne(left);
      if e == TimerFires(id) {
        FiringMovesOn(s, cfg, id, at, left);
        if |Delays(left)| == 1 {
          GoneStaysGone(t, cfg, rest, id);
        } else {
          ArmedRuns(t, cfg, rest, id, s.now, left - MAX_TIMER_MS);
          var k := Firings(rest, id);
          assert Delays(left)[1..][k..] == Delays(left)[k + 1..];
        }
      } else if HasId(t.sessions, id) {
        ArmedStays(s, cfg, e, id, at, Delays(left));
        ArmedRuns(t, cfg, rest, id, at, left);
      } else {
        T.Facts(s, cfg, Get(s.sessions, id));
        assert t.nextId >= s.nextId by { IdsOnlyGrow(s, cfg, e); }
        GoneStaysGone(t, cfg, rest, id);
      }
    } else {
      assert Delays(left)[0..] == Delays(left);
      LeftAfterOne(left);
    }
  }

  lemma IdsOnlyGrow(s: Server, cfg: Config, e: Event)
    requires Enabled(s, cfg, e)
    ensures s.nextId <= Step(s, cfg, e).nextId
  {
  }

  /** The event takes this session off its socket. */
  predicate LetsGo(x: Session, e: Event) {
    x.attached.Some? && (e == Detaches(x.id) || e == Closes(x.attached.value))
  }

  lemma LetGoIsArmed(s: Server, cfg: Config, e: Event, x: Session)
    requires Inv(s, cfg) && Enabled(s, cfg, e) && x in s.sessions && LetsGo(x, e) && x.graceMs.Some?
    ensures var t := Step(s, cfg, e);
      HasId(t.sessions, x.id) ==> Armed(Get(t.sessions, x.id), s.now, Delays(x.graceMs.value))
  {
    hide Inv, Enabled, Step, T.Replaces, T.Capped, HasId;
    if e.Detaches? {
      T.Detaches(s, cfg, x);
    } else {
      assert e.ws in s.clients by { ClosesItsOwn(s, cfg, e.ws); }
      T.Closes(s, cfg, e.ws);
    }
    var t, z := Step(s, cfg, e), T.LetGo(x, s.now);
    var list :| T.Replaces(s.sessions, list, z) && T.Capped(list, t.sessions);
    if HasId(t.sessions, x.id) {
      var y := Get(t.sessions, x.id);
      InCapped(list, t.sessions, y);
      InReplacedById(s.sessions, list, z, y);
      LeftAfterOne(x.graceMs.value);
    }
  }

  lemma ClosesItsOwn(s: Server, cfg: Config, ws: nat)
    requires Enabled(s, cfg, Closes(ws))
    ensures ws in s.clients
  {
  }

  lemma InReplacedById(a: seq<Session>, b: seq<Session>, z: Session, y: Session)
    requires T.Replaces(a, b, z) && y in b && y.id == z.id
    ensures y == z
  {
    var i :| 0 <= i < |b| && b[i] == y;
    var was := a[i];
    assert b[i] == was || was.id == z.id;
  }

  /**
   * A session that is let go and not resumed: its timer fires at most |Delays(grace)|
   * times. While it is there, the timer runs for the part of the grace that comes after
   * as many firings, counted from the last one; after the last firing it is gone.
   */
  lemma UnresumedExpires(cfg: Config, before: seq<Event>, e: Event, during: seq<Event>, x: Session)
    requires Possible(Start(), cfg, before)
    requires var s := After(Start(), cfg, before);
      x in s.sessions && LetsGo(x, e) && x.graceMs.Some? && Enabled(s, cfg, e) &&
      Possible(Step(s, cfg, e), cfg, during) && Unresumed(during, x.id)
    ensures var s := After(Start(), cfg, before);
      var t := After(Step(s, cfg, e), cfg, during);
      var delays, k := Delays(x.graceMs.value), Firings(during, x.id);
      k <= |delays| && (k == |delays| ==> forall y :: y in t.sessions ==> y.id != x.id) &&
      forall y :: y in t.sessions && y.id == x.id ==>
        k < |delays| && y.attached.None? &&
        y.timer == Some(Timer(LastFiring(Step(s, cfg, e), cfg, during, x.id, s.now) + delays[k], Sum(delays[k + 1..])))
  {
    hide Inv, Possible, After, Enabled, Step, HasId, LetsGo, Firings, LastFiring, Delays, Unresumed;
    var s := After(Start(), cfg, before);
    StartOk(cfg);
    RunKeepsInv(Start(), cfg, before);
    StepKeepsInv(s, cfg, e);
    var s1 := Step(s, cfg, e);
    var t := After(s1, cfg, during);
    RunKeepsInv(s1, cfg, during);
    HasIdMeans(t.sessions, x.id);
    if HasId(s1.sessions, x.id) {
      LetGoIsArmed(s, cfg, e, x);
      ArmedRuns(s1, cfg, during, x.id, s.now, x.graceMs.value);
      forall y | y in t.sessions && y.id == x.id ensures y == Get(t.sessions, x.id) {
        T.Facts(t, cfg, y);
      }
    } else {
      T.Facts(s, cfg, x);
      IdsOnlyGrow(s, cfg, e);
      GoneStaysGone(s1, cfg, during, x.id);
    }
  }

  /** And it can come to that: with a timer that fires when it is due the session is gone after exactly its grace. */
  lemma {:induction false} ExpiresOnTime(s: Server, cfg: Config, id: nat, left: nat) returns (events: seq<Event>)
    requires Inv(s, cfg) && HasId(s.sessions, id) && Armed(Get(s.sessions, id), s.now, Delays(left))
    ensures Possible(s, cfg, events) && Unresumed(events, id) && Firings(events, id) == |Delays(left)|
    ensures forall e :: e in events ==> e.Ticks? || e == TimerFires(id)
    ensures var t := After(s, cfg, events);
      t.now == s.now + left && forall y :: y in t.sessions ==> y.id != id
    decreases left
  {
    hide Inv, HasId, Delays, Step, Enabled, Armed;
    LeftAfterOne(left);
    var delay := Delays(left)[0];
    TicksAndFires(s, cfg, id, left);
    var s1 := Step(s, cfg, Ticks(delay));
    var s2 := Step(s1, cfg, TimerFires(id));
    var rest: seq<Event> := [];
    if |Delays(left)| > 1 {
      rest := ExpiresOnTime(s2, cfg, id, left - MAX_TIMER_MS);
    }
    HasIdMeans(s2.sessions, id);
    events := [Ticks(delay), TimerFires(id)] + rest;
    TwoThenRest(s, cfg, Ticks(delay), TimerFires(id), rest, id);
  }

  lemma TicksAndFires(s: Server, cfg: Config, id: nat, left: nat)
    requires Inv(s, cfg) && HasId(s.sessions, id) && Armed(Get(s.sessions, id), s.now, Delays(left))
    ensures |Delays(left)| > 0 && Enabled(s, cfg, Ticks(Delays(left)[0]))
    ensures var s1 := Step(s, cfg, Ticks(Delays(left)[0]));
      Enabled(s1, cfg, TimerFires(id)) &&
      var s2 := Step(s1, cfg, TimerFires(id));
      Inv(s2, cfg) && s2.now == s.now + Delays(left)[0] &&
      if |Delays(left)| == 1 then !HasId(s2.sessions, id)
      else
        left > MAX_TIMER_MS && HasId(s2.sessions, id) &&
        Armed(Get(s2.sessions, id), s2.now, Delays(left - MAX_TIMER_MS))
  {
    hide Inv, HasId, Delays, TimerFired;
    LeftAfterOne(left);
    var s1 := Step(s, cfg, Ticks(Delays(left)[0]));
    StepKeepsInv(s, cfg, Ticks(Delays(left)[0]));
    StepKeepsInv(s1, cfg, TimerFires(id));
    FiringMovesOn(s1, cfg, id, s.now, left);
    T.Facts(s1, cfg, Get(s1.sessions, id));
    T.TimerFires(s1, cfg, Get(s1.sessions, id));
  }

  lemma TwoThenRest(s: Server, cfg: Config, e: Event, f: Event, rest: seq<Event>, id: nat)
    requires Enabled(s, cfg, e) && Enabled(Step(s, cfg, e), cfg, f)
    requires Possible(Step(Step(s, cfg, e), cfg, f), cfg, rest)
    ensures Possible(s, cfg, [e, f] + rest)
    ensures After(s, cfg, [e, f] + rest) == After(Step(Step(s, cfg, e), cfg, f), cfg, rest)
    ensures e != TimerFires(id) && f == TimerFires(id) ==> Firings([e, f] + rest, id) == 1 + Firings(rest, id)
  {
    hide Enabled, Step;
    assert ([e, f] + rest)[1..] == [f] + rest;
    assert ([f] + rest)[1..] == rest;
  }
}
