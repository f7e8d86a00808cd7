/** Who gets hold of a session, in the relay as a whole. */
module Holders {
  import opened Frames
  import opened Admission
  import R = RelayNode
  import H = RelayHandlers
  import S = RelayServer
  import T = TableEvents
  import E = Expiry
  import opened WholeRelay

  /** The request names the session, its origin and a token it knows, and offsets in its windows. */
  predicate Fits(r: R.Relay, a: Action)
    requires a.Resume?
  {
    a.name == r.id && a.origin == r.origin && (a.token == r.token || r.previousToken == Some(a.token)) &&
    a.clientAck <= r.clientAck && r.serverAck <= a.serverAck <= r.serverSent
  }

  lemma AnsweredExactlyWhenItFits(w: Whole, cfg: S.Config, a: Action)
    requires Can(w, cfg, a) && a.Resume?
    ensures Answer(w, cfg, a).outcome.Accepted? <==> Fits(w.state[a.id], a)
  {
    H.ResumeServedExactlyWhen(Stream(w, a.id), a.ws, a.name, a.origin, a.token, a.clientAck, a.serverAck, a.newToken);
    hide R.OnResume;
  }

  /** A step of the table gives a session no socket unless it resumes it. */
  lemma StepAttaches(s: S.Server, cfg: S.Config, e: S.Event, x: Session, y: Session)
    requires S.Inv(s, cfg) && S.Enabled(s, cfg, e) && x in s.sessions && y in S.Step(s, cfg, e).sessions
    requires x.id == y.id && !(e.Resumes? && e.id == x.id)
    ensures y.attached == x.attached || y.attached.None?
  {
    hide S.Inv, S.Step, S.Enabled;
    E.EverySessionCame(s, cfg, e, y);
    T.Facts(s, cfg, x);
    var z :| z in s.sessions && E.CameFrom(s, e, z, y);
    T.Facts(s, cfg, z);
    T.SameIdSameSession(s.sessions, x, z);
  }

  /** Misspeaking and being revoked, as a refused request ends. */
  lemma RefusedStays(s: S.Server, cfg: S.Config, ws: nat, id: nat, y: Session)
    requires ws in s.pending && HasId(s.sessions, id)
    ensures S.Step(s, cfg, S.Misspeaks(ws)).sessions == s.sessions
    ensures S.Possible(s, cfg, [S.Misspeaks(ws), S.Revokes(id)])
    ensures y in S.After(s, cfg, [S.Misspeaks(ws), S.Revokes(id)]).sessions ==> y in s.sessions
  {
    TwoPossible(s, cfg, ws, id);
    RemoveFrame(s.sessions, id, y);
  }

  /**
   * A session comes to a socket in one way only: by a resume request on that socket that
   * fits where its stream stands. No frame, timer, eviction or other request does it.
   */
  lemma OnlyHoldersAttach(w: Whole, cfg: S.Config, a: Action, x: Session, y: Session)
    requires Inv(w, cfg) && Can(w, cfg, a) && x in w.server.sessions && y in Next(w, cfg, a).server.sessions
    requires x.id == y.id && y.attached.Some? && y.attached != x.attached
    ensures a.Resume? && a.id == x.id && y.attached == Some(a.ws) && Fits(w.state[a.id], a)
  {
    hide S.Inv, Sound, S.Step, S.Enabled, Replied, Answer, Fits, HasId;
    var s, events := w.server, Events(w, cfg, a);
    EventsPossible(w, cfg, a);
    T.Facts(s, cfg, x);
    if !a.Resume? {
      if events != [] {
        SingleEvent(w, cfg, a);
        StepAttaches(s, cfg, events[0], x, y);
      } else {
        T.Facts(s, cfg, y);
      }
    } else {
      AnsweredExactlyWhenItFits(w, cfg, a);
      ResumeEvents(w, cfg, a);
      if Answer(w, cfg, a).outcome.Accepted? {
        if a.id != x.id {
          StepAttaches(s, cfg, events[0], x, y);
        }
        E.EverySessionCame(s, cfg, events[0], y);
        AttachesOnlyThere(s, cfg, events[0], x, y);
      } else {
        RefusedStays(s, cfg, a.ws, a.id, y);
        T.Facts(s, cfg, y);
      }
    }
  }

  lemma AttachesOnlyThere(s: S.Server, cfg: S.Config, e: S.Event, x: Session, y: Session)
    requires S.Inv(s, cfg) && S.Enabled(s, cfg, e) && x in s.sessions && y in S.Step(s, cfg, e).sessions
    requires e.Resumes? && x.id == y.id == e.id
    ensures y.attached == Some(e.ws) || y.attached == x.attached || y.attached.None?
  {
    hide S.Inv, S.Step, S.Enabled;
    E.EverySessionCame(s, cfg, e, y);
    T.Facts(s, cfg, x);
    var z :| z in s.sessions && E.CameFrom(s, e, z, y);
    T.Facts(s, cfg, z);
    T.SameIdSameSession(s.sessions, x, z);
  }

  /** Everything but a resume is at most one event, and none of them resumes. */
  lemma SingleEvent(w: Whole, cfg: S.Config, a: Action)
    requires Inv(w, cfg) && Can(w, cfg, a) && !a.Resume? && Events(w, cfg, a) != []
    ensures |Events(w, cfg, a)| == 1 && !Events(w, cfg, a)[0].Resumes?
    ensures S.Enabled(w.server, cfg, Events(w, cfg, a)[0])
    ensures Next(w, cfg, a).server == S.Step(w.server, cfg, Events(w, cfg, a)[0])
  {
    hide S.Inv, Sound, S.Step, S.Enabled, Replied;
    EventsPossible(w, cfg, a);
    OnePossible(w.server, cfg, Events(w, cfg, a)[0]);
  }

  lemma ResumeEvents(w: Whole, cfg: S.Config, a: Action)
    requires Inv(w, cfg) && Can(w, cfg, a) && a.Resume?
    ensures HasId(w.server.sessions, a.id) && a.ws in w.server.pending
    ensures var e := S.Resumes(a.ws, a.id, Replied(w, cfg, a).HeldBytes());
      Answer(w, cfg, a).outcome.Accepted? ==>
        S.Enabled(w.server, cfg, e) && Events(w, cfg, a) == [e] && Next(w, cfg, a).server == S.Step(w.server, cfg, e)
    ensures !Answer(w, cfg, a).outcome.Accepted? ==>
      S.Possible(w.server, cfg, [S.Misspeaks(a.ws), S.Revokes(a.id)]) &&
      (Next(w, cfg, a).server == S.Step(w.server, cfg, S.Misspeaks(a.ws)) ||
       Next(w, cfg, a).server == S.After(w.server, cfg, [S.Misspeaks(a.ws), S.Revokes(a.id)]))
  {
    hide S.Inv, Sound, S.Step, S.Enabled, Replied, Answer;
    EventsPossible(w, cfg, a);
    OnePossible(w.server, cfg, Events(w, cfg, a)[0]);
    TwoPossible(w.server, cfg, a.ws, a.id);
  }

  /**
   * And it always does: the session is then on the asking socket without a timer, with the
   * new token, and the presented one as its previous token, and sends again what the page
   * has not acknowledged.
   */
  lemma HoldersAreServed(w: Whole, cfg: S.Config, a: Action)
    requires Inv(w, cfg) && Can(w, cfg, a) && a.Resume? && Fits(w.state[a.id], a)
    ensures var w', r := Next(w, cfg, a), w.state[a.id];
      (exists y :: y in w'.server.sessions && y.id == a.id && y.attached == Some(a.ws) && y.timer.None?) &&
      w'.state == w.state[a.id := r.(attached := Some(a.ws), token := a.newToken, previousToken := Some(a.token),
                                     serverAck := a.serverAck, serverSent := a.serverAck,
                                     retained := r.retained[a.serverAck - r.serverAck..])]
  {
    hide S.Inv, Sound, S.Step, S.Enabled, Replied, Answer, HasId, T.Replaces;
    var s := w.server;
    AnsweredExactlyWhenItFits(w, cfg, a);
    ResumeEvents(w, cfg, a);
    StreamIsServed(w, cfg, a);
    var x, held := S.Get(s.sessions, a.id), Replied(w, cfg, a).HeldBytes();
    T.Resumes(s, cfg, a.ws, x, held);
    var y := Session(x.id, Some(a.ws), x.graceMs, None, x.detachedAt, held);
    StandsThere(s.sessions, S.Step(s, cfg, S.Resumes(a.ws, a.id, held)).sessions, x, y);
  }

  lemma StandsThere(a: seq<Session>, b: seq<Session>, x: Session, y: Session)
    requires T.Replaces(a, b, y) && x in a && x.id == y.id
    ensures y in b
  {
    var i :| 0 <= i < |a| && a[i] == x;
    assert b[i] == y;
  }

  lemma StreamIsServed(w: Whole, cfg: S.Config, a: Action)
    requires Can(w, cfg, a) && a.Resume? && Fits(w.state[a.id], a)
    ensures var r := w.state[a.id];
      Replied(w, cfg, a) ==
        r.(attached := Some(a.ws), token := a.newToken, previousToken := Some(a.token), serverAck := a.serverAck,
           serverSent := a.serverAck, retained := r.retained[a.serverAck - r.serverAck..])
  {
    hide R.OnResume;
    H.ResumeIsServed(Stream(w, a.id), a.ws, a.token, a.clientAck, a.serverAck, a.newToken);
  }
}
