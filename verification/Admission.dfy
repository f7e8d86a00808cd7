/**
 * The relay's bookkeeping over all sessions: eviction oldest first, admission
 * against maxSessions, the cap on detached bytes and the chunked expiry timers.
 */
module Admission {
  import opened Frames

  const MAX_DETACHED_BYTES: nat := 16777216
  const MAX_TIMER_MS: nat := 2147483647

  /** A pending timeout: when it fires, and the grace left to arm after it. */
  datatype Timer = Timer(fireAt: nat, rest: nat)

  datatype Session = Session(
    id: nat,
    attached: Option<nat>,
    graceMs: Option<nat>,
    timer: Option<Timer>,
    detachedAt: nat,
    held: nat
  )

  // ---- Detached sessions, oldest first ----

  function Detached(sessions: seq<Session>): seq<Session> {
    if sessions == [] then []
    else if sessions[0].attached.None? then [sessions[0]] + Detached(sessions[1..])
    else Detached(sessions[1..])
  }

  /** Puts x before the first session that is not older: earlier insertions win ties. */
  function Insert(x: Session, sorted: seq<Session>): seq<Session> {
    if sorted == [] then [x]
    else if x.detachedAt <= sorted[0].detachedAt then [x] + sorted
    else [sorted[0]] + Insert(x, sorted[1..])
  }

  function SortByAge(sessions: seq<Session>): seq<Session> {
    if sessions == [] then [] else Insert(sessions[0], SortByAge(sessions[1..]))
  }

  function DetachedByAge(sessions: seq<Session>): seq<Session> {
    SortByAge(Detached(sessions))
  }

  function Bytes(sessions: seq<Session>): nat {
    if sessions == [] then 0 else sessions[0].held + Bytes(sessions[1..])
  }

  /** Bytes pinned by detached sessions. */
  function DetachedBytes(sessions: seq<Session>): nat {
    Bytes(Detached(sessions))
  }

  function Remove(sessions: seq<Session>, id: nat): seq<Session> {
    if sessions == [] then []
    else if sessions[0].id == id then Remove(sessions[1..], id)
    else [sessions[0]] + Remove(sessions[1..], id)
  }

  function RemoveAll(sessions: seq<Session>, gone: seq<Session>): seq<Session>
    decreases |gone|
  {
    if gone == [] then sessions else RemoveAll(Remove(sessions, gone[0].id), gone[1..])
  }

  /** How many of the oldest must go to bring the rest under the cap. */
  function CapEvictions(detached: seq<Session>): (k: nat)
    ensures k <= |detached|
  {
    if Bytes(detached) <= MAX_DETACHED_BYTES then 0 else 1 + CapEvictions(detached[1..])
  }

  function EnforceCap(sessions: seq<Session>): seq<Session> {
    var detached := DetachedByAge(sessions);
    RemoveAll(sessions, detached[..CapEvictions(detached)])
  }

  /** Admission with this many open sockets: None refuses, Some evicts just enough of the oldest. */
  function Admit(sessions: seq<Session>, clients: nat, maxSessions: nat): Option<seq<Session>> {
    var detached := DetachedByAge(sessions);
    var excess := clients + |detached| - maxSessions;
    if excess <= 0 then Some(sessions)
    else if excess > |detached| then None
    else Some(RemoveAll(sessions, detached[..excess]))
  }

  predicate HasId(sessions: seq<Session>, id: nat) {
    sessions != [] && (sessions[0].id == id || HasId(sessions[1..], id))
  }

  predicate UniqueIds(sessions: seq<Session>) {
    sessions == [] || (!HasId(sessions[1..], sessions[0].id) && UniqueIds(sessions[1..]))
  }

  /** No session in the list was detached before `age`. */
  ghost predicate NoOlder(sessions: seq<Session>, age: nat) {
    sessions == [] || (age <= sessions[0].detachedAt && NoOlder(sessions[1..], age))
  }

  ghost predicate Sorted(sessions: seq<Session>) {
    sessions == [] || (NoOlder(sessions[1..], sessions[0].detachedAt) && Sorted(sessions[1..]))
  }

  function AttachedCount(sessions: seq<Session>): nat {
    if sessions == [] then 0 else (if sessions[0].attached.Some? then 1 else 0) + AttachedCount(sessions[1..])
  }

  // ---- Sorting ----

  lemma {:induction false} NoOlderMeans(sessions: seq<Session>, age: nat, i: nat)
    requires NoOlder(sessions, age) && i < |sessions|
    ensures age <= sessions[i].detachedAt
  {
    if i > 0 {
      NoOlderMeans(sessions[1..], age, i - 1);
    }
  }

  /** In a sorted list an earlier session was detached no later. */
  lemma {:induction false} SortedMeans(sessions: seq<Session>, i: nat, j: nat)
    requires Sorted(sessions) && i < j < |sessions|
    ensures sessions[i].detachedAt <= sessions[j].detachedAt
  {
    if i == 0 {
      NoOlderMeans(sessions[1..], sessions[0].detachedAt, j - 1);
    } else {
      SortedMeans(sessions[1..], i - 1, j - 1);
    }
  }

  lemma {:induction false} NoOlderLowers(sessions: seq<Session>, age: nat, older: nat)
    requires NoOlder(sessions, age) && older <= age
    ensures NoOlder(sessions, older)
  {
    if sessions != [] {
      NoOlderLowers(sessions[1..], age, older);
    }
  }

  lemma {:induction false} InsertNoOlder(x: Session, sorted: seq<Session>, age: nat)
    requires NoOlder(sorted, age) && age <= x.detachedAt
    ensures NoOlder(Insert(x, sorted), age)
  {
    if sorted != [] {
      if x.detachedAt > sorted[0].detachedAt {
        InsertNoOlder(x, sorted[1..], age);
      }
    }
  }

  lemma {:induction false} InsertSorted(x: Session, sorted: seq<Session>)
    requires Sorted(sorted)
    ensures Sorted(Insert(x, sorted))
  {
    if sorted != [] {
      if x.detachedAt <= sorted[0].detachedAt {
        NoOlderLowers(sorted[1..], sorted[0].detachedAt, x.detachedAt);
        assert ([x] + sorted)[1..] == sorted;
      } else {
        InsertSorted(x, sorted[1..]);
        InsertNoOlder(x, sorted[1..], sorted[0].detachedAt);
        assert ([sorted[0]] + Insert(x, sorted[1..]))[1..] == Insert(x, sorted[1..]);
      }
    }
  }

  lemma {:induction false} InsertKeepsAll(x: Session, sorted: seq<Session>)
    ensures multiset(Insert(x, sorted)) == multiset(sorted) + multiset{x}
    ensures |Insert(x, sorted)| == |sorted| + 1 && Bytes(Insert(x, sorted)) == Bytes(sorted) + x.held
  {
    if sorted != [] && x.detachedAt > sorted[0].detachedAt {
      InsertKeepsAll(x, sorted[1..]);
      assert sorted == [sorted[0]] + sorted[1..];
    }
  }

  /** Sorting orders by age, keeps exactly the sessions it got, and pins the same bytes. */
  lemma {:induction false} SortedByAge(sessions: seq<Session>)
    ensures Sorted(SortByAge(sessions))
    ensures multiset(SortByAge(sessions)) == multiset(sessions)
    ensures |SortByAge(sessions)| == |sessions| && Bytes(SortByAge(sessions)) == Bytes(sessions)
  {
    if sessions != [] {
      SortedByAge(sessions[1..]);
      InsertSorted(sessions[0], SortByAge(sessions[1..]));
      InsertKeepsAll(sessions[0], SortByAge(sessions[1..]));
      assert sessions == [sessions[0]] + sessions[1..];
    }
  }

  function OfAge(sessions: seq<Session>, age: nat): seq<Session> {
    if sessions == [] then []
    else (if sessions[0].detachedAt == age then [sessions[0]] else []) + OfAge(sessions[1..], age)
  }

  lemma {:induction false} InsertStable(x: Session, sorted: seq<Session>, age: nat)
    requires Sorted(sorted)
    ensures OfAge(Insert(x, sorted), age) == (if x.detachedAt == age then [x] else []) + OfAge(sorted, age)
  {
    if sorted != [] {
      if x.detachedAt <= sorted[0].detachedAt {
        assert ([x] + sorted)[1..] == sorted;
      } else {
        InsertStable(x, sorted[1..], age);
        assert ([sorted[0]] + Insert(x, sorted[1..]))[1..] == Insert(x, sorted[1..]);
      }
    }
  }

  /** Sessions detached in the same millisecond keep their order of creation. */
  lemma {:induction false} SortIsStable(sessions: seq<Session>, age: nat)
    ensures OfAge(SortByAge(sessions), age) == OfAge(sessions, age)
  {
    if sessions != [] {
      SortedByAge(sessions[1..]);
      SortIsStable(sessions[1..], age);
      InsertStable(sessions[0], SortByAge(sessions[1..]), age);
    }
  }

  // ---- Removal ----

  lemma {:induction false} RemoveFrame(sessions: seq<Session>, id: nat, s: Session)
    ensures s in Remove(sessions, id) <==> s in sessions && s.id != id
  {
    if sessions != [] {
      RemoveFrame(sessions[1..], id, s);
      assert sessions == [sessions[0]] + sessions[1..];
    }
  }

  lemma {:induction false} RemoveNoOlder(sessions: seq<Session>, id: nat, age: nat)
    requires NoOlder(sessions, age)
    ensures NoOlder(Remove(sessions, id), age)
  {
    if sessions != [] {
      RemoveNoOlder(sessions[1..], id, age);
    }
  }

  lemma {:induction false} RemoveAbsent(sessions: seq<Session>, id: nat)
    requires forall s :: s in sessions ==> s.id != id
    ensures Remove(sessions, id) == sessions
  {
    if sessions != [] {
      RemoveAbsent(sessions[1..], id);
    }
  }

  lemma {:induction false} RemoveInsert(x: Session, sorted: seq<Session>, id: nat)
    requires Sorted(sorted)
    ensures Remove(Insert(x, sorted), id) == if x.id == id then Remove(sorted, id) else Insert(x, Remove(sorted, id))
  {
    if sorted != [] {
      if x.detachedAt <= sorted[0].detachedAt {
        assert ([x] + sorted)[1..] == sorted;
        NoOlderLowers(sorted[1..], sorted[0].detachedAt, x.detachedAt);
        RemoveNoOlder(sorted, id, x.detachedAt);
      } else {
        RemoveInsert(x, sorted[1..], id);
        assert ([sorted[0]] + Insert(x, sorted[1..]))[1..] == Insert(x, sorted[1..]);
      }
    }
  }

  /** Removing a session from the map removes it from the oldest-first list and moves nothing else there. */
  lemma {:induction false} RemoveSorted(sessions: seq<Session>, id: nat)
    ensures SortByAge(Remove(sessions, id)) == Remove(SortByAge(sessions), id)
  {
    if sessions != [] {
      RemoveSorted(sessions[1..], id);
      SortedByAge(sessions[1..]);
      RemoveInsert(sessions[0], SortByAge(sessions[1..]), id);
    }
  }

  lemma {:induction false} RemoveDetached(sessions: seq<Session>, id: nat)
    ensures Detached(Remove(sessions, id)) == Remove(Detached(sessions), id)
  {
    if sessions != [] {
      RemoveDetached(sessions[1..], id);
    }
  }

  lemma {:induction false} HasIdMeans(sessions: seq<Session>, id: nat)
    ensures HasId(sessions, id) <==> exists s :: s in sessions && s.id == id
  {
    if sessions != [] {
      HasIdMeans(sessions[1..], id);
      assert sessions == [sessions[0]] + sessions[1..];
      if HasId(sessions, id) {
        assert sessions[0] in sessions;
      }
    }
  }

  lemma {:induction false} RemoveUnknown(sessions: seq<Session>, id: nat)
    requires !HasId(sessions, id)
    ensures Remove(sessions, id) == sessions
  {
    if sessions != [] {
      RemoveUnknown(sessions[1..], id);
    }
  }

  lemma {:induction false} RemoveKeepsUnique(sessions: seq<Session>, id: nat, other: nat)
    ensures HasId(Remove(sessions, id), other) <==> HasId(sessions, other) && other != id
    ensures UniqueIds(sessions) ==> UniqueIds(Remove(sessions, id))
  {
    if sessions != [] {
      RemoveKeepsUnique(sessions[1..], id, other);
      RemoveKeepsUnique(sessions[1..], id, sessions[0].id);
    }
  }

  lemma {:induction false} InsertIds(x: Session, sorted: seq<Session>, id: nat)
    ensures HasId(Insert(x, sorted), id) <==> x.id == id || HasId(sorted, id)
    ensures UniqueIds(sorted) && !HasId(sorted, x.id) ==> UniqueIds(Insert(x, sorted))
  {
    if sorted != [] && x.detachedAt > sorted[0].detachedAt {
      InsertIds(x, sorted[1..], id);
      InsertIds(x, sorted[1..], sorted[0].id);
      assert ([sorted[0]] + Insert(x, sorted[1..]))[1..] == Insert(x, sorted[1..]);
    } else {
      assert ([x] + sorted)[1..] == sorted;
    }
  }

  lemma {:induction false} SortIds(sessions: seq<Session>, id: nat)
    ensures HasId(SortByAge(sessions), id) <==> HasId(sessions, id)
    ensures UniqueIds(sessions) ==> UniqueIds(SortByAge(sessions))
  {
    if sessions != [] {
      SortIds(sessions[1..], id);
      SortIds(sessions[1..], sessions[0].id);
      InsertIds(sessions[0], SortByAge(sessions[1..]), id);
    }
  }

  lemma {:induction false} DetachedIds(sessions: seq<Session>, id: nat)
    ensures HasId(Detached(sessions), id) ==> HasId(sessions, id)
    ensures UniqueIds(sessions) ==> UniqueIds(Detached(sessions))
  {
    if sessions != [] {
      DetachedIds(sessions[1..], id);
      DetachedIds(sessions[1..], sessions[0].id);
    }
  }

  lemma {:induction false} DetachedMembers(sessions: seq<Session>, s: Session)
    ensures s in Detached(sessions) <==> s in sessions && s.attached.None?
  {
    if sessions != [] {
      DetachedMembers(sessions[1..], s);
      assert sessions == [sessions[0]] + sessions[1..];
    }
  }

  lemma {:induction false} Counts(sessions: seq<Session>)
    ensures |sessions| == AttachedCount(sessions) + |Detached(sessions)|
  {
    if sessions != [] {
      Counts(sessions[1..]);
    }
  }

  /** Removing one detached session leaves every attached one. */
  lemma {:induction false} RemoveOneDetached(sessions: seq<Session>, x: Session)
    requires UniqueIds(sessions) && x in sessions && x.attached.None?
    ensures AttachedCount(Remove(sessions, x.id)) == AttachedCount(sessions)
    ensures |Remove(sessions, x.id)| == |sessions| - 1
  {
    if sessions[0].id == x.id {
      HasIdMeans(sessions[1..], x.id);
      RemoveUnknown(sessions[1..], x.id);
      assert sessions == [sessions[0]] + sessions[1..];
    } else {
      assert sessions == [sessions[0]] + sessions[1..];
      RemoveOneDetached(sessions[1..], x);
    }
  }

  /** Revoking the oldest detached session leaves the other detached ones in their order. */
  lemma EvictsOne(sessions: seq<Session>)
    requires UniqueIds(sessions) && DetachedByAge(sessions) != []
    ensures var detached := DetachedByAge(sessions);
      detached[0] in sessions && detached[0].attached.None? &&
      DetachedByAge(Remove(sessions, detached[0].id)) == detached[1..]
  {
    hide Sorted, NoOlder;
    var detached := DetachedByAge(sessions);
    var x := detached[0];
    SortedByAge(Detached(sessions));
    assert x in multiset(detached);
    DetachedMembers(sessions, x);
    RemoveDetached(sessions, x.id);
    RemoveSorted(Detached(sessions), x.id);
    DetachedIds(sessions, 0);
    SortIds(Detached(sessions), 0);
    RemoveUnknown(detached[1..], x.id);
    assert Remove(detached, x.id) == Remove(detached[1..], x.id);
  }

  /**
   * Revoking the k oldest detached sessions leaves exactly the other detached
   * ones, in their order, and every attached one.
   */
  lemma {:induction false} EvictsOldest(sessions: seq<Session>, k: nat)
    requires UniqueIds(sessions) && k <= |DetachedByAge(sessions)|
    ensures var detached := DetachedByAge(sessions);
      var left := RemoveAll(sessions, detached[..k]);
      DetachedByAge(left) == detached[k..] && AttachedCount(left) == AttachedCount(sessions) &&
      |left| == |sessions| - k && UniqueIds(left)
    decreases k
  {
    hide DetachedByAge, UniqueIds, Remove, AttachedCount;
    var detached := DetachedByAge(sessions);
    if k > 0 {
      var x := detached[0];
      var next := Remove(sessions, x.id);
      EvictsOne(sessions);
      RemoveOneDetached(sessions, x);
      RemoveKeepsUnique(sessions, x.id, 0);
      assert detached[..k][1..] == detached[1..][..k - 1];
      assert detached[..k][0] == x;
      EvictsOldest(next, k - 1);
      assert detached[1..][k - 1..] == detached[k..];
    }
  }

  /** The cap evicts the shortest oldest-first prefix that brings the rest under it. */
  lemma {:induction false} CapEvictsLeast(detached: seq<Session>)
    ensures Bytes(detached[CapEvictions(detached)..]) <= MAX_DETACHED_BYTES
    ensures forall j :: 0 <= j < CapEvictions(detached) ==> Bytes(detached[j..]) > MAX_DETACHED_BYTES
  {
    if Bytes(detached) > MAX_DETACHED_BYTES {
      var k := CapEvictions(detached[1..]);
      CapEvictsLeast(detached[1..]);
      assert detached[1..][k..] == detached[k + 1..];
      forall j | 0 <= j < k + 1 ensures Bytes(detached[j..]) > MAX_DETACHED_BYTES {
        if j > 0 {
          assert detached[1..][j - 1..] == detached[j..];
        } else {
          assert detached[0..] == detached;
        }
      }
    } else {
      assert detached[0..] == detached;
    }
  }

  lemma DetachedBytesByAge(sessions: seq<Session>)
    ensures DetachedBytes(sessions) == Bytes(DetachedByAge(sessions))
  {
    SortedByAge(Detached(sessions));
  }

  /**
   * Enforcing the cap: the detached sessions left pin at most 16 MiB, they are the
   * newest, no fewer evictions would do, and no attached session is touched.
   */
  lemma EnforceCapRestores(sessions: seq<Session>)
    requires UniqueIds(sessions)
    ensures var detached, left := DetachedByAge(sessions), EnforceCap(sessions);
      var k := |sessions| - |left|;
      0 <= k <= |detached| && DetachedByAge(left) == detached[k..] && DetachedBytes(left) <= MAX_DETACHED_BYTES &&
      AttachedCount(left) == AttachedCount(sessions) && UniqueIds(left) &&
      forall j :: 0 <= j < k ==> Bytes(detached[j..]) > MAX_DETACHED_BYTES
  {
    var detached := DetachedByAge(sessions);
    EvictsOldest(sessions, CapEvictions(detached));
    CapEvictsLeast(detached);
    DetachedBytesByAge(EnforceCap(sessions));
  }

  /**
   * Admission: refuses exactly when even evicting every detached session would
   * leave no room, and otherwise evicts exactly the excess, oldest first, and no
   * attached session.
   */
  lemma AdmitEvictsExcess(sessions: seq<Session>, clients: nat, maxSessions: nat)
    requires UniqueIds(sessions)
    ensures var detached, admitted := DetachedByAge(sessions), Admit(sessions, clients, maxSessions);
      (admitted.None? <==> clients > maxSessions) &&
      (admitted.Some? ==>
        var left := admitted.value;
        var k := |sessions| - |left|;
        UniqueIds(left) && AttachedCount(left) == AttachedCount(sessions) &&
        0 <= k <= |detached| && DetachedByAge(left) == detached[k..] &&
        clients + |detached| - k <= maxSessions &&
        (k > 0 ==> clients + |detached| - k == maxSessions))
  {
    var detached := DetachedByAge(sessions);
    var excess := clients + |detached| - maxSessions;
    if 0 < excess <= |detached| {
      EvictsOldest(sessions, excess);
    } else {
      assert detached[0..] == detached;
    }
  }
}
