/**
 * The write queue that keeps terminal input off the caller's goroutine: any
 * goroutine may enqueue or close at any moment between the runner's steps.
 */
module WriteQueue {
  import opened Frames

  datatype QueueError = ErrFull | ErrClosed

  /** What Queue holds under its lock, and its two channels. */
  datatype State = State(
    maxBytes: int,
    chunks: seq<seq<byte>>,
    queued: nat,
    closed: bool,
    wake: bool,
    done: bool
  )

  function Empty(maxBytes: int): State {
    State(maxBytes, [], 0, false, false, false)
  }

  function Enqueued(q: State, p: seq<byte>): (State, Option<QueueError>) {
    if q.closed then (q, Some(ErrClosed))
    else if |p| > q.maxBytes - q.queued then (q, Some(ErrFull))
    else (q.(chunks := q.chunks + [p], queued := q.queued + |p|, wake := true), None)
  }

  function MarkedClosed(q: State): State {
    q.(closed := true, chunks := [])
  }

  /** The next chunk to write, unless the queue is closed or empty. */
  function Next(q: State): (State, Option<seq<byte>>) {
    if q.closed || q.chunks == [] then (q, None) else (q.(chunks := q.chunks[1..]), Some(q.chunks[0]))
  }

  // ---- The runner among other goroutines ----

  /**
   * Where the runner is. Writing and Failing know how much of the chunk the
   * writer has taken; Wrote has not yet given the bytes back to the limit.
   */
  datatype Runner =
    | Waiting
    | Draining
    | Writing(chunk: seq<byte>, out: nat)
    | Wrote(chunk: seq<byte>)
    | Failing(chunk: seq<byte>, out: nat)
    | Closing
    | Reporting
    | Stopped

  /** Close runs once: not begun, marked under the lock, or signalled. */
  datatype Once = NotBegun | Marked | Signalled

  datatype World = World(
    q: State,
    runner: Runner,
    once: Once,
    accepted: seq<byte>,
    written: seq<byte>,
    reports: nat
  )

  datatype Step =
    | Enqueue(p: seq<byte>)
    | BeginClose
    | SignalClose
    | Wakes
    | SeesDone
    | Takes
    | WriterTakes(n: nat)
    | WriteSucceeds
    | WriteFails
    | GivesBack
    | RunnerCloses
    | Reports

  function Start(maxBytes: int): World {
    World(Empty(maxBytes), Waiting, NotBegun, [], [], 0)
  }

  predicate Enabled(w: World, s: Step) {
    match s
    case Enqueue(_) => true
    case BeginClose => w.once == NotBegun
    case SignalClose => w.once == Marked
    case Wakes => w.runner == Waiting && w.q.wake
    case SeesDone => w.runner == Waiting && w.q.done
    case Takes => w.runner == Draining
    case WriterTakes(n) => w.runner.Writing? && w.runner.out + n <= |w.runner.chunk|
    case WriteSucceeds => w.runner.Writing? && w.runner.out == |w.runner.chunk|
    case WriteFails => w.runner.Writing?
    case GivesBack => w.runner.Wrote? && |w.runner.chunk| <= w.q.queued
    case RunnerCloses => w.runner.Failing? || (w.runner == Closing && w.once == Signalled)
    case Reports => w.runner == Reporting
  }

  /** A failed write closes the queue; when another goroutine is closing it, the runner waits for that. */
  function RunnerClosed(w: World): World {
    if w.once == NotBegun then w.(q := MarkedClosed(w.q), once := Marked, runner := Closing)
    else if w.once == Marked then w.(runner := Closing)
    else w.(runner := Reporting)
  }

  function Apply(w: World, s: Step): World
    requires Enabled(w, s)
  {
    match s
    case Enqueue(p) =>
      var (q, refused) := Enqueued(w.q, p);
      if refused.Some? then w else w.(q := q, accepted := w.accepted + p)
    case BeginClose => w.(q := MarkedClosed(w.q), once := Marked)
    case SignalClose => w.(q := w.q.(done := true), once := Signalled)
    case Wakes => w.(q := w.q.(wake := false), runner := Draining)
    case SeesDone => w.(runner := Stopped)
    case Takes =>
      var (q, chunk) := Next(w.q);
      w.(q := q, runner := if chunk.None? then Waiting else Writing(chunk.value, 0))
    case WriterTakes(n) =>
      var taken := w.runner.chunk[w.runner.out..w.runner.out + n];
      w.(runner := Writing(w.runner.chunk, w.runner.out + n), written := w.written + taken)
    case WriteSucceeds => w.(runner := Wrote(w.runner.chunk))
    case WriteFails => w.(runner := Failing(w.runner.chunk, w.runner.out))
    case GivesBack => w.(q := w.q.(queued := w.q.queued - |w.runner.chunk|), runner := Draining)
    case RunnerCloses => RunnerClosed(w)
    case Reports => w.(runner := Stopped, reports := w.reports + 1)
  }

  // ---- The invariant ----

  function Concat(chunks: seq<seq<byte>>): seq<byte> {
    if chunks == [] then [] else chunks[0] + Concat(chunks[1..])
  }

  /** The bytes of the chunk in flight that the writer has not taken. */
  function InFlight(r: Runner): seq<byte> {
    if (r.Writing? || r.Failing?) && r.out <= |r.chunk| then r.chunk[r.out..] else []
  }

  /** The bytes of the chunk in flight that still count against the limit. */
  function Counted(r: Runner): nat {
    if r.Writing? || r.Failing? || r.Wrote? then |r.chunk| else 0
  }

  ghost predicate Streams(w: World) {
    (w.runner.Writing? || w.runner.Failing? ==> w.runner.out <= |w.runner.chunk|) &&
    (if w.q.closed then w.written + InFlight(w.runner) <= w.accepted
     else w.accepted == w.written + InFlight(w.runner) + Concat(w.q.chunks))
  }

  /** Open, the count is exactly what is pending and in flight; closed, it still covers the chunk in flight. */
  ghost predicate Counts(w: World) {
    Counted(w.runner) <= w.q.queued &&
    (w.q.queued == 0 || w.q.queued <= w.q.maxBytes) &&
    (!w.q.closed ==> w.q.queued == |Concat(w.q.chunks)| + Counted(w.runner))
  }

  ghost predicate Signals(w: World) {
    (w.q.closed <==> w.once != NotBegun) && (w.q.done <==> w.once == Signalled) &&
    (w.q.closed ==> w.q.chunks == []) &&
    (w.runner == Waiting && w.q.chunks != [] ==> w.q.wake)
  }

  ghost predicate ReportsOnce(w: World) {
    w.reports <= 1 && (w.runner.Closing? ==> w.q.closed && w.reports == 0) &&
    (w.runner.Reporting? ==> w.q.closed && w.q.done && w.reports == 0) &&
    (w.runner.Stopped? ==> w.q.closed) && (w.reports == 1 ==> w.runner.Stopped?)
  }

  ghost predicate Inv(w: World) {
    Streams(w) && Counts(w) && Signals(w) && ReportsOnce(w)
  }

  lemma {:induction false} ConcatAppends(chunks: seq<seq<byte>>, p: seq<byte>)
    ensures Concat(chunks + [p]) == Concat(chunks) + p
  {
    if chunks == [] {
      assert chunks + [p] == [p];
    } else {
      ConcatAppends(chunks[1..], p);
      assert (chunks + [p])[1..] == chunks[1..] + [p];
    }
  }

  lemma EnqueueKeepsStreams(w: World, p: seq<byte>)
    requires Streams(w)
    ensures Streams(Apply(w, Enqueue(p)))
  {
    ConcatAppends(w.q.chunks, p);
    if !w.q.closed {
      assert w.accepted + p == w.written + InFlight(w.runner) + (Concat(w.q.chunks) + p);
    }
  }

  lemma WriterKeepsStreams(w: World, n: nat)
    requires Streams(w) && Enabled(w, WriterTakes(n))
    ensures Streams(Apply(w, WriterTakes(n)))
  {
    hide Concat;
    var chunk, out := w.runner.chunk, w.runner.out;
    assert chunk[out..] == chunk[out..out + n] + chunk[out + n..];
    assert w.written + chunk[out..] == w.written + chunk[out..out + n] + chunk[out + n..];
  }

  lemma TakesKeepsStreams(w: World)
    requires Streams(w) && Enabled(w, Takes)
    ensures Streams(Apply(w, Takes))
  {
  }

  lemma ClosingKeepsStreams(w: World, s: Step)
    requires Streams(w) && Signals(w) && Enabled(w, s) && (s.BeginClose? || s.RunnerCloses?)
    ensures Streams(Apply(w, s))
  {
    hide Concat;
    var kept := w.written + InFlight(w.runner);
    assert kept <= w.accepted;
    assert w.written == w.accepted[..|w.written|] by {
      assert w.written == kept[..|w.written|];
    }
  }

  lemma StreamsKept(w: World, s: Step)
    requires Streams(w) && Signals(w) && Enabled(w, s)
    ensures Streams(Apply(w, s))
  {
    hide Concat, Enqueued, RunnerClosed;
    if s.Enqueue? {
      EnqueueKeepsStreams(w, s.p);
    } else if s.WriterTakes? {
      WriterKeepsStreams(w, s.n);
    } else if s.Takes? {
      TakesKeepsStreams(w);
    } else if s.BeginClose? || s.RunnerCloses? {
      ClosingKeepsStreams(w, s);
    }
  }

  lemma CountsKept(w: World, s: Step)
    requires Counts(w) && Signals(w) && Enabled(w, s)
    ensures Counts(Apply(w, s))
  {
    if s.Enqueue? {
      ConcatAppends(w.q.chunks, s.p);
    }
  }

  lemma StepKeepsInv(w: World, s: Step)
    requires Inv(w) && Enabled(w, s)
    ensures Inv(Apply(w, s))
  {
    hide Streams, Counts, Concat;
    StreamsKept(w, s);
    CountsKept(w, s);
  }

  // ---- Runs ----

  ghost predicate Possible(w: World, steps: seq<Step>)
    decreases |steps|
  {
    steps == [] || (Enabled(w, steps[0]) && Possible(Apply(w, steps[0]), steps[1..]))
  }

  function After(w: World, steps: seq<Step>): World
    requires Possible(w, steps)
    decreases |steps|
  {
    if steps == [] then w else After(Apply(w, steps[0]), steps[1..])
  }

  lemma {:induction false} RunKeepsInv(w: World, steps: seq<Step>)
    requires Inv(w) && Possible(w, steps)
    ensures Inv(After(w, steps))
    decreases |steps|
  {
    hide Inv, Apply, Enabled;
    if steps != [] {
      StepKeepsInv(w, steps[0]);
      RunKeepsInv(Apply(w, steps[0]), steps[1..]);
    }
  }

  /**
   * Every interleaving: what the writer got is a prefix of what was accepted, in
   * order; the limit holds; an error is reported at most once and only when the
   * queue is closed.
   */
  lemma WritesAreAPrefix(maxBytes: int, steps: seq<Step>)
    requires Possible(Start(maxBytes), steps)
    ensures var w := After(Start(maxBytes), steps);
      w.written <= w.accepted &&
      (w.q.queued == 0 || w.q.queued <= w.q.maxBytes) &&
      (!w.q.closed ==> w.q.queued == |Concat(w.q.chunks)| + Counted(w.runner)) &&
      w.reports <= 1 && (w.reports == 1 ==> w.q.closed)
  {
    RunKeepsInv(Start(maxBytes), steps);
  }

  /** No step of the runner is possible. */
  ghost predicate AtRest(w: World) {
    !Enabled(w, Wakes) && !Enabled(w, SeesDone) && !Enabled(w, Takes) && !Enabled(w, WriteFails) &&
    !Enabled(w, GivesBack) && !Enabled(w, RunnerCloses) && !Enabled(w, Reports)
  }

  /**
   * No lost wakeup: an open queue whose runner cannot move has written every
   * accepted byte and counts none, however enqueues fell between its steps. A
   * closed one at rest has stopped, or its closer has yet to signal.
   */
  lemma NoLostWakeup(maxBytes: int, steps: seq<Step>)
    requires Possible(Start(maxBytes), steps) && AtRest(After(Start(maxBytes), steps))
    ensures var w := After(Start(maxBytes), steps);
      (!w.q.closed ==> w.runner == Waiting && w.written == w.accepted && w.q.queued == 0) &&
      (w.q.closed ==> w.runner == Stopped || w.once == Marked)
  {
    hide Possible, After, Inv, AtRest;
    StartOk(maxBytes);
    RunKeepsInv(Start(maxBytes), steps);
    RestMeans(After(Start(maxBytes), steps));
  }

  lemma StartOk(maxBytes: int)
    ensures Inv(Start(maxBytes))
  {
  }

  lemma RestMeans(w: World)
    requires Inv(w) && AtRest(w)
    ensures !w.q.closed ==> w.runner == Waiting && w.written == w.accepted && w.q.queued == 0
    ensures w.q.closed ==> w.runner == Stopped || w.once == Marked
  {
    assert w.runner == Waiting || w.runner == Stopped || w.runner == Closing;
    if !w.q.closed {
      assert w.q.chunks == [];
    }
  }

  /** Closing discards: after it only the chunk in flight can still reach the writer. */
  lemma CloseDiscards(w: World, s: Step)
    requires Inv(w) && w.q.closed && Enabled(w, s)
    ensures var u := Apply(w, s);
      u.q.closed && w.written <= u.written && u.accepted == w.accepted &&
      u.written + InFlight(u.runner) <= w.written + InFlight(w.runner)
  {
    hide Streams, Counts, Concat;
    if s.WriterTakes? {
      var chunk, out := w.runner.chunk, w.runner.out;
      assert chunk[out..] == chunk[out..out + s.n] + chunk[out + s.n..];
      assert w.written + chunk[out..] == w.written + chunk[out..out + s.n] + chunk[out + s.n..];
    }
  }

  // ---- What fits is accepted, and what is accepted is written ----

  /** A chunk is taken if and only if the queue is open and it fits; then it is last, counted and signalled. */
  lemma TakesWhatFits(q: State, p: seq<byte>)
    ensures Enqueued(q, p).1.None? <==> !q.closed && q.queued + |p| <= q.maxBytes
    ensures Enqueued(q, p).1.None? ==>
      Enqueued(q, p).0 == State(q.maxBytes, q.chunks + [p], q.queued + |p|, false, true, q.done)
    ensures Enqueued(q, p).1.Some? ==>
      Enqueued(q, p) == (q, Some(if q.closed then ErrClosed else ErrFull))
  {
  }

  /** Chunks leave in the order they came. */
  lemma TakesTheOldest(q: State, oldest: seq<byte>, rest: seq<seq<byte>>)
    requires q.chunks == [oldest] + rest
    ensures Next(q) == if q.closed then (q, None) else (q.(chunks := rest), Some(oldest))
  {
    assert q.chunks[1..] == rest;
  }

  predicate IsRunnerStep(s: Step) {
    s.Wakes? || s.Takes? || s.WriterTakes? || s.WriteSucceeds? || s.GivesBack?
  }

  /** What the runner has to do, and how far it is with the chunk in flight. */
  function Work(w: World): nat {
    8 * |w.q.chunks| + (if w.q.wake then 4 else 0) +
    match w.runner
    case Draining => 1
    case Wrote(_) => 2
    case Writing(chunk, out) => if out < |chunk| then 4 else 3
    case _ => 0
  }

  /** An open queue whose runner is not about to give up. */
  ghost predicate Open(w: World) {
    Inv(w) && !w.q.closed && !w.runner.Failing?
  }

  /** With nothing to do everything is written; otherwise the runner has a step that takes from its work. */
  lemma RunnerMoves(w: World) returns (s: Step)
    requires Open(w) && (w.q.wake || w.runner != Waiting)
    ensures IsRunnerStep(s) && Enabled(w, s)
    ensures Open(Apply(w, s)) && Apply(w, s).accepted == w.accepted && Work(Apply(w, s)) < Work(w)
    ensures Apply(w, s).q.maxBytes == w.q.maxBytes
  {
    hide Streams, Concat;
    s := match w.runner
      case Waiting => Wakes
      case Draining => Takes
      case Writing(chunk, out) => if out < |chunk| then WriterTakes(|chunk| - out) else WriteSucceeds
      case _ => GivesBack;
    assert w.runner.Writing? ==> w.runner.out <= |w.runner.chunk| by { FlightIsBounded(w); }
    StepKeepsInv(w, s);
  }

  lemma FlightIsBounded(w: World)
    requires Inv(w)
    ensures w.runner.Writing? ==> w.runner.out <= |w.runner.chunk|
  {
  }

  lemma RestIsWritten(w: World)
    requires Open(w) && !w.q.wake && w.runner == Waiting
    ensures w.written == w.accepted && w.q.queued == 0 && w.q.chunks == []
  {
  }

  /** The runner alone, when no write fails, writes everything that was accepted and frees the whole limit. */
  lemma {:induction false} EverythingIsWritten(w: World) returns (steps: seq<Step>, w': World)
    requires Open(w)
    ensures Possible(w, steps) && w' == After(w, steps) && forall s :: s in steps ==> IsRunnerStep(s)
    ensures Open(w') && w'.written == w'.accepted == w.accepted && w'.q.queued == 0
    ensures w'.q.maxBytes == w.q.maxBytes
    decreases Work(w)
  {
    hide Open, Enabled, Apply, Work, IsRunnerStep;
    if !w.q.wake && w.runner == Waiting {
      RestIsWritten(w);
      return [], w;
    }
    var s := RunnerMoves(w);
    var rest;
    rest, w' := EverythingIsWritten(Apply(w, s));
    steps := [s] + rest;
    assert steps[1..] == rest;
  }

  /** Offered in turn with the runner in between, chunks within the limit are all accepted and written in order. */
  lemma {:induction false} EveryChunkIsWritten(w: World, chunks: seq<seq<byte>>) returns (steps: seq<Step>, w': World)
    requires Open(w) && forall i :: 0 <= i < |chunks| ==> |chunks[i]| <= w.q.maxBytes
    ensures Possible(w, steps) && w' == After(w, steps)
    ensures Open(w') && w'.written == w'.accepted == w.accepted + Concat(chunks)
    decreases |chunks|
  {
    hide Open, Enabled, Work, IsRunnerStep, Apply;
    var before, w1 := EverythingIsWritten(w);
    if chunks == [] {
      assert w.accepted + [] == w.accepted;
      return before, w1;
    }
    PutsWhenEmpty(w1, chunks[0]);
    var rest;
    rest, w' := EveryChunkIsWritten(Apply(w1, Enqueue(chunks[0])), chunks[1..]);
    steps := before + ([Enqueue(chunks[0])] + rest);
    assert ([Enqueue(chunks[0])] + rest)[1..] == rest;
    RunsJoin(w, before, [Enqueue(chunks[0])] + rest);
    assert w.accepted + chunks[0] + Concat(chunks[1..]) == w.accepted + Concat(chunks);
  }

  lemma PutsWhenEmpty(w: World, p: seq<byte>)
    requires Open(w) && w.q.queued == 0 && |p| <= w.q.maxBytes
    ensures Enabled(w, Enqueue(p)) && Open(Apply(w, Enqueue(p)))
    ensures Apply(w, Enqueue(p)).accepted == w.accepted + p && Apply(w, Enqueue(p)).q.maxBytes == w.q.maxBytes
  {
    hide Inv;
    assert !w.q.closed;
    StepKeepsInv(w, Enqueue(p));
  }

  lemma {:induction false} RunsJoin(w: World, a: seq<Step>, b: seq<Step>)
    requires Possible(w, a) && Possible(After(w, a), b)
    ensures Possible(w, a + b) && After(w, a + b) == After(After(w, a), b)
    decreases |a|
  {
    hide Enabled, Apply;
    if a == [] {
      assert a + b == b;
    } else {
      assert (a + b)[1..] == a[1..] + b;
      RunsJoin(Apply(w, a[0]), a[1..], b);
    }
  }

  // ---- Runs that the queue's methods build ----

  /** What another goroutine may call. */
  datatype Call = Puts(p: seq<byte>) | Closes

  lemma {:induction false} RunGrows(w: World, steps: seq<Step>, s: Step)
    requires Possible(w, steps) && Enabled(After(w, steps), s)
    ensures Possible(w, steps + [s]) && After(w, steps + [s]) == Apply(After(w, steps), s)
    decreases |steps|
  {
    hide Apply, Enabled;
    if steps == [] {
      assert [s][1..] == [] && [] + [s] == [s];
    } else {
      assert (steps + [s])[1..] == steps[1..] + [s];
      RunGrows(Apply(w, steps[0]), steps[1..], s);
    }
  }

  /** A run so far: where it started, its steps and where it stands. */
  datatype Run = Run(start: World, steps: seq<Step>, now: World) {
    /** No close is half done. */
    ghost predicate Ok() {
      Inv(start) && Possible(start, steps) && now == After(start, steps) && Inv(now) && now.once != Marked
    }

    ghost function Then(s: Step): (r: Run)
      requires Inv(start) && Possible(start, steps) && now == After(start, steps) && Inv(now) && Enabled(now, s)
      ensures r.start == start && r.now == Apply(now, s)
      ensures Inv(r.now) && Possible(start, r.steps) && r.now == After(start, r.steps)
    {
      RunGrows(start, steps, s);
      StepKeepsInv(now, s);
      Run(start, steps + [s], Apply(now, s))
    }

    ghost function Puts(p: seq<byte>): (r: Run)
      requires Ok()
      ensures r.Ok() && r.start == start && r.now.q == Enqueued(now.q, p).0
      ensures r.now == now.(q := r.now.q, accepted := r.now.accepted) && now.accepted <= r.now.accepted
    {
      Then(Enqueue(p))
    }

    /** Close marks and signals, once. */
    ghost function Closes(): (r: Run)
      requires Ok()
      ensures r.Ok() && r.start == start && r.now.q == MarkedClosed(now.q).(done := true)
      ensures r.now == now.(q := r.now.q, once := Signalled)
    {
      if now.once == NotBegun then Then(BeginClose).Then(SignalClose) else this
    }

    ghost function Takes(): (r: Run)
      requires Ok() && now.runner == Draining
      ensures r.Ok() && r.start == start && r.now.q == Next(now.q).0
      ensures r.now == now.(q := r.now.q, runner := r.now.runner)
      ensures r.now.runner == if Next(now.q).1.None? then Waiting else Writing(Next(now.q).1.value, 0)
      ensures Next(now.q).1.None? && !now.q.closed ==> now.written == now.accepted
    {
      Then(Step.Takes)
    }

    /** The write succeeds and its bytes are given back to the limit. */
    ghost function Succeeds(): (r: Run)
      requires Ok() && now.runner.Writing? && now.runner.out == 0
      ensures r.Ok() && r.start == start && |now.runner.chunk| <= now.q.queued
      ensures r.now == now.(q := now.q.(queued := now.q.queued - |now.runner.chunk|), runner := Draining,
                            written := now.written + now.runner.chunk)
    {
      hide Possible, After, Next;
      assert now.runner.chunk[0..|now.runner.chunk|] == now.runner.chunk;
      Then(WriterTakes(|now.runner.chunk|)).Then(WriteSucceeds).Then(GivesBack)
    }

    /** The write fails part way: the runner closes the queue, unless it is closed, and reports. */
    ghost function Fails(taken: nat): (r: Run)
      requires Ok() && now.runner.Writing? && now.runner.out == 0 && taken <= |now.runner.chunk|
      ensures r.Ok() && r.start == start && r.now.q == MarkedClosed(now.q).(done := true)
      ensures r.now == now.(q := r.now.q, once := Signalled, runner := Stopped,
                            written := now.written + now.runner.chunk[..taken], reports := now.reports + 1)
    {
      hide Inv, Possible, After, Next;
      assert now.runner.chunk[0..taken] == now.runner.chunk[..taken];
      var failing := Then(WriterTakes(taken)).Then(WriteFails).Then(RunnerCloses);
      if now.once == NotBegun then failing.Then(SignalClose).Then(RunnerCloses).Then(Reports)
      else failing.Then(Reports)
    }
  }

  // ---- The queue itself, updated in place ----

  class Queue {
    const maxBytes: int
    var chunks: seq<seq<byte>>
    var queued: nat
    var closed: bool
    var wake: bool
    var done: bool

    constructor (maxBytes: int)
      ensures View() == Empty(maxBytes)
    {
      this.maxBytes := maxBytes;
      chunks, queued, closed, wake, done := [], 0, false, false, false;
    }

    ghost function View(): State
      reads this
    {
      State(maxBytes, chunks, queued, closed, wake, done)
    }

    method Enqueue(p: seq<byte>) returns (refused: Option<QueueError>)
      modifies this
      ensures (View(), refused) == Enqueued(old(View()), p)
    {
      if closed {
        return Some(ErrClosed);
      }
      if |p| > maxBytes - queued {
        return Some(ErrFull);
      }
      chunks := chunks + [p];
      queued := queued + |p|;
      wake := true;
      return None;
    }

    method Close()
      modifies this
      ensures View() == MarkedClosed(old(View())).(done := true)
      ensures View() == State(maxBytes, [], old(queued), true, old(wake), true)
    {
      closed := true;
      chunks := [];
      done := true;
    }

    method TakeNext() returns (chunk: Option<seq<byte>>)
      modifies this
      ensures (View(), chunk) == Next(old(View()))
    {
      if closed || chunks == [] {
        return None;
      }
      chunk := Some(chunks[0]);
      chunks := chunks[1..];
    }

    /** Calls other goroutines make while the runner is between two of its own steps. */
    method Others(calls: seq<Call>, ghost run: Run) returns (ghost after: Run)
      requires run.Ok() && run.now.q == View()
      requires run.now.runner == Draining || (run.now.runner.Writing? && run.now.runner.out == 0)
      modifies this
      ensures after.Ok() && after.now.q == View() && after.start == run.start
      ensures after.now.runner == run.now.runner && after.now.written == run.now.written
      ensures run.now.accepted <= after.now.accepted && after.now.reports == run.now.reports
      ensures calls == [] ==> View() == old(View())
    {
      hide Run.Ok, Inv, Possible, After, Apply, Enabled, Enqueued, Next;
      after := run;
      var i := 0;
      while i < |calls|
        invariant 0 <= i <= |calls|
        invariant after.Ok() && after.now.q == View() && after.start == run.start
        invariant after.now.runner == run.now.runner && after.now.written == run.now.written
        invariant run.now.accepted <= after.now.accepted && after.now.reports == run.now.reports
        invariant i == 0 ==> View() == old(View())
      {
        match calls[i] {
          case Puts(p) =>
            var _ := Enqueue(p);
            after := after.Puts(p);
          case Closes =>
            Close();
            after := after.Closes();
        }
        i := i + 1;
      }
    }

    /** One write: it gives its bytes back to the limit, or fails after some of them and closes the queue. */
    method WriteChunk(chunk: seq<byte>, fails: Option<nat>, ghost run: Run)
        returns (out: seq<byte>, ghost after: Run)
      requires run.Ok() && run.now.q == View() && run.now.runner == Writing(chunk, 0)
      modifies this
      ensures after.Ok() && after.now.q == View() && after.start == run.start && after.now.accepted == run.now.accepted
      ensures after.now.written == run.now.written + out
      ensures fails.None? ==> chunks == old(chunks)
      ensures fails.None? ==> after.now.runner == Draining && after.now.reports == run.now.reports
      ensures fails.Some? ==>
        after.now.runner == Stopped && after.now.reports == run.now.reports + 1 && closed && done && chunks == []
    {
      hide Run.Ok, Inv, Possible, After, Apply, Enabled, Enqueued, Next;
      if fails.Some? {
        var taken := Min(fails.value, |chunk|);
        Close();
        return chunk[..taken], run.Fails(taken);
      }
      after := run.Succeeds();
      queued := queued - |chunk|;
      return chunk, after;
    }

    /**
     * The runner's inner loop. In gap k other goroutines make the calls gaps[k];
     * the n-th write fails after `fails(n)` bytes, or succeeds. What happens is a
     * run of the state machine, at whose end the runner waits again or has
     * reported its one error.
     */
    method Drain(gaps: seq<seq<Call>>, fails: nat -> Option<nat>, ghost run: Run)
        returns (written: seq<byte>, writes: nat, failed: bool, ghost after: Run)
      requires run.Ok() && run.now.q == View() && run.now.runner == Draining
      modifies this
      ensures after.Ok() && after.now.q == View() && after.start == run.start
      ensures after.now.written == run.now.written + written && run.now.accepted <= after.now.accepted
      ensures after.now.runner == if failed then Stopped else Waiting
      ensures after.now.reports == run.now.reports + if failed then 1 else 0
      ensures failed ==> fails(writes).Some? && closed && done && chunks == []
      ensures forall n :: 0 <= n < writes ==> fails(n).None?
      ensures !failed && !closed ==> chunks == [] && after.now.written == after.now.accepted
    {
      hide Run.Ok, Inv, Possible, After, Apply, Enabled, Enqueued, Next;
      written, writes, failed, after := [], 0, false, run;
      var gap := 0;
      while true
        invariant after.Ok() && after.now.q == View() && after.start == run.start && after.now.runner == Draining
        invariant after.now.written == run.now.written + written && run.now.accepted <= after.now.accepted
        invariant after.now.reports == run.now.reports
        invariant forall n :: 0 <= n < writes ==> fails(n).None?
        decreases if gap < |gaps| then |gaps| - gap else 0, |chunks|
      {
        after := Others(if gap < |gaps| then gaps[gap] else [], after);
        ghost var before := View();
        var chunk := TakeNext();
        TakeShrinks(before);
        after := after.Takes();
        if chunk.None? {
          return;
        }
        after := Others(if gap + 1 < |gaps| then gaps[gap + 1] else [], after);
        var out;
        out, after := WriteChunk(chunk.value, fails(writes), after);
        written := written + out;
        if fails(writes).Some? {
          failed := true;
          return;
        }
        writes := writes + 1;
        gap := gap + 2;
      }
    }
  }

  lemma TakeShrinks(q: State)
    ensures Next(q).1.Some? ==> |Next(q).0.chunks| < |q.chunks|
    ensures Next(q).1.None? ==> Next(q).0 == q && (q.closed || q.chunks == [])
  {
  }
}
