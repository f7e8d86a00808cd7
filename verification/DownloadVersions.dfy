/**
 * Resuming a download whose remote file changes between the lives: what was kept of
 * one version may be continued with another. When that cannot happen, and a run in
 * which it does.
 */
module DownloadVersions {
  import opened Frames
  import opened Download

  /** The record with the size and time it was stamped with when it was begun. */
  datatype Saved = Saved(disk: Disk, stamp: Stamp)

  /** One life and what it sees: the listing, from which a new record takes its stamp, and then the file. */
  datatype Visit = Visit(listed: Stamp, remote: seq<byte>, mtime: int, life: Life) {
    /** The stamp of the file this life reads. */
    function Now(): Stamp {
      Stamp(|remote|, mtime)
    }

    function File(): RemoteFile {
      AtRest(remote, mtime)
    }
  }

  /** The stamp a life works with: the record's, or for a new record the listing's. */
  function StampFor(saved: Saved, v: Visit): Stamp {
    if saved.disk.record.Some? then saved.stamp else v.listed
  }

  ghost predicate Opens(saved: Saved, v: Visit) {
    Startable(saved.disk) && v.life.saves
  }

  /** What a record that opens holds bytes of after the life. */
  ghost function KeptOf(kept: seq<byte>, saved: Saved, v: Visit): seq<byte>
    requires KeptBytes(saved.disk) <= |kept|
  {
    if Opens(saved, v) then Continued(kept, KeptBytes(saved.disk), StampFor(saved, v), v.File()) else kept
  }

  /**
   * One life. A file that ends it is the version it saw if and only if the bytes kept
   * before are that version's too.
   */
  method RunVisit(ghost kept: seq<byte>, saved: Saved, v: Visit) returns (whole: Option<seq<byte>>, after: Saved)
    requires Persisted(saved.disk, kept) && KeptBytes(saved.disk) <= |kept|
    ensures Persisted(after.disk, KeptOf(kept, saved, v))
    ensures after.disk.record.Some? ==> after.stamp == StampFor(saved, v)
    ensures whole.Some? ==>
      (if Opens(saved, v) then
         LooksUnchanged(kept, KeptBytes(saved.disk), StampFor(saved, v), v.File()) &&
         whole.value == KeptOf(kept, saved, v)
       else whole.value == v.remote)
    ensures whole.Some? && Opens(saved, v) ==>
      (whole.value == v.remote <==>
       KeptBytes(saved.disk) <= |v.remote| && kept[..KeptBytes(saved.disk)] == v.remote[..KeptBytes(saved.disk)])
    ensures Opens(saved, v) && Keeps(v.life) ==> after.disk.record.Some?
    ensures !Opens(saved, v) ==> after.disk == if v.life.deletes then Disk(None, map[]) else saved.disk
    ensures Opens(saved, v) && ReadsWell(v.life, |v.remote|) ==>
      (LooksUnchanged(kept, KeptBytes(saved.disk), StampFor(saved, v), v.File()) ==>
         (whole.Some? <==> v.life.finishOps >= FinishOps(|v.remote|)) &&
         (v.life.finishOps >= CommitOps(|v.remote|) && Keeps(v.life) ==> KeptBytes(after.disk) == |v.remote|))
  {
    hide Kept, Joined, WriteOps, LooksUnchanged, FinishOps, CommitOps, ReadsWell, TailBefore;
    var stamp := StampFor(saved, v);
    if Startable(saved.disk) && v.life.saves {
      var asked, end, finished, disk := RunOpened(kept, stamp, v.remote, v.mtime, saved.disk, v.life);
      if finished.Some? {
        SplicedIsWhole(kept, KeptBytes(saved.disk), stamp, v);
      }
      return finished, Saved(disk, stamp);
    }
    whole := DownloadInMemory(v.remote, v.life.engineFails, v.life.schedule, v.life.cancelledAfter);
    return whole, Saved(if v.life.deletes then Disk(None, map[]) else saved.disk, stamp);
  }

  lemma SplicedIsWhole(kept: seq<byte>, offset: nat, stamp: Stamp, v: Visit)
    requires offset <= |kept| && LooksUnchanged(kept, offset, stamp, v.File())
    ensures offset <= |v.remote|
    ensures Continued(kept, offset, stamp, v.File()) == v.remote <==> kept[..offset] == v.remote[..offset]
  {
    hide TailBefore;
    assert v.remote == v.remote[..offset] + v.remote[offset..];
    var now := kept[..offset] + v.remote[offset..];
    assert now[..offset] == kept[..offset];
  }

  // ---- When no two versions are mixed ----

  /**
   * Time and size tell versions apart, and no version comes back: once the file has
   * lost a stamp that was seen, in the listing or at a start, it never has it again.
   */
  ghost predicate VersionsAreTold(visits: seq<Visit>) {
    (forall i, k :: 0 <= i < k < |visits| && visits[i].Now() == visits[k].Now() ==>
       visits[i].remote == visits[k].remote) &&
    (forall i, j, k :: 0 <= i <= j < k < |visits| && visits[k].Now() == visits[i].listed ==>
       visits[j].Now() == visits[i].listed)
  }

  /** The record was begun with the listing of visit o, and holds bytes of the file of visit j. */
  ghost predicate Traced(saved: Saved, kept: seq<byte>, visits: seq<Visit>, i: nat, o: nat, j: nat)
    requires i <= |visits|
  {
    saved.disk.record.Some? ==> o <= j < i && saved.stamp == visits[o].listed && kept == visits[j].remote
  }

  lemma SameVersion(saved: Saved, kept: seq<byte>, visits: seq<Visit>, i: nat, o: nat, j: nat)
    requires i < |visits| && VersionsAreTold(visits) && Traced(saved, kept, visits, i, o, j)
    requires KeptBytes(saved.disk) <= |kept|
    requires LooksUnchanged(kept, KeptBytes(saved.disk), StampFor(saved, visits[i]), visits[i].File())
    ensures Continued(kept, KeptBytes(saved.disk), StampFor(saved, visits[i]), visits[i].File()) == visits[i].remote
  {
    hide TailBefore;
    var v := visits[i];
    if KeptBytes(saved.disk) > 0 {
      assert visits[i].Now() == visits[o].listed;
      assert visits[j].Now() == visits[o].listed;
      assert kept == v.remote;
      assert v.remote[..KeptBytes(saved.disk)] + v.remote[KeptBytes(saved.disk)..] == v.remote;
    } else {
      assert kept[..0] + v.remote[0..] == v.remote;
    }
  }

  lemma NothingKeptLooksSame(saved: Saved, kept: seq<byte>, v: Visit)
    requires KeptBytes(saved.disk) <= |kept|
    ensures saved.disk.record.None? ==> LooksUnchanged(kept, KeptBytes(saved.disk), StampFor(saved, v), v.File())
  {
  }

  /**
   * Over any lives and any versions that can be told apart and do not come back, the
   * file that ends the download is exactly the version its last life saw, and what is
   * left in between can be trusted.
   */
  method VersionsInLives(visits: seq<Visit>) returns (whole: Option<seq<byte>>, at: nat, saved: Saved)
    requires VersionsAreTold(visits)
    ensures whole.Some? ==> at < |visits| && whole.value == visits[at].remote
    ensures whole.None? && saved.disk.record.Some? ==>
      exists j :: 0 <= j < |visits| && Persisted(saved.disk, visits[j].remote)
  {
    hide Kept, Joined, LooksUnchanged, FinishOps, CommitOps, ReadsWell, TailBefore, VersionsAreTold;
    saved := Saved(Disk(None, map[]), Stamp(0, 0));
    at := 0;
    ghost var kept: seq<byte>, o: nat, j: nat := [], 0, 0;
    while at < |visits|
      invariant 0 <= at <= |visits|
      invariant Persisted(saved.disk, kept) && KeptBytes(saved.disk) <= |kept|
      invariant Traced(saved, kept, visits, at, o, j)
    {
      var v := visits[at];
      var finished, after := RunVisit(kept, saved, v);
      ghost var looks := LooksUnchanged(kept, KeptBytes(saved.disk), StampFor(saved, v), v.File());
      if looks {
        SameVersion(saved, kept, visits, at, o, j);
      } else {
        NothingKeptLooksSame(saved, kept, v);
      }
      ghost var moved := Opens(saved, v) && looks;
      o := if saved.disk.record.Some? then o else at;
      kept, j := KeptOf(kept, saved, v), if moved then at else j;
      KeptBytesFit(after.disk, kept);
      saved, whole := after, finished;
      if whole.Some? {
        return;
      }
      at := at + 1;
    }
    whole := None;
  }

  /**
   * A version that comes back is spliced: the listing shows a file of 8 MiB of zeros, but
   * when the download starts another of 4 MiB is in its place, which differs in its
   * first byte. All of it is kept when the page dies. Then the first file is back, with
   * its size and time, and agrees in the 4096 bytes that are compared. The undisturbed
   * resume ends with a file that is neither.
   */
  method ReturningFileIsSpliced() returns (first: Visit, second: Visit, whole: Option<seq<byte>>)
    ensures first.listed == second.Now() == second.listed && first.Now() != second.Now()
    ensures whole.Some? && whole.value != first.remote && whole.value != second.remote
  {
    hide Kept, Joined, WriteOps, ReadsWell, TailBefore;
    var zeros: seq<byte> := seq(2 * SEGMENT_BYTES, _ => 0);
    var other: seq<byte> := seq(SEGMENT_BYTES, i => if i == 0 then 1 else 0);
    var stamp := Stamp(|zeros|, 1);
    first := Visit(stamp, other, 2, Life(true, true, 2, false, [], false, 0, 0, true, false));
    second := Visit(stamp, zeros, 1, Life(true, true, 2, false, [], false, FinishOps(|zeros|), 0, false, false));
    var saved := Saved(Disk(None, map[]), Stamp(0, 0));
    ReadsWellWhenQuiet(first.life, |other|);
    ReadsWellWhenQuiet(second.life, |zeros|);
    var none, kept := RunVisit([], saved, first);
    SplicedIsWhole([], 0, stamp, first);
    assert KeptOf([], saved, first) == other;
    SegmentsOpen(kept.disk);
    KeptBytesFit(kept.disk, other);
    SameTails(zeros, other);
    var finished, _ := RunVisit(other, kept, second);
    whole := finished;
    assert whole.value[0] == other[0];
  }

  lemma ReadsWellWhenQuiet(life: Life, n: nat)
    requires life.tailOps >= 2 && !life.engineFails && life.schedule == [] && !life.cancelledAfter
    ensures ReadsWell(life, n)
  {
  }

  lemma SegmentsOpen(disk: Disk)
    requires Persisted(disk, seq(SEGMENT_BYTES, i => if i == 0 then 1 else 0)) && disk.record.Some?
    ensures Startable(disk)
  {
    OnlyShortFilesStop(disk, seq(SEGMENT_BYTES, i => if i == 0 then 1 else 0));
  }

  lemma SameTails(zeros: seq<byte>, other: seq<byte>)
    requires |other| == SEGMENT_BYTES <= |zeros|
    requires (forall i :: 0 <= i < |zeros| ==> zeros[i] == 0) && forall i :: 0 < i < |other| ==> other[i] == 0
    ensures TailBefore(zeros, SEGMENT_BYTES) == TailBefore(other, SEGMENT_BYTES)
  {
  }
}
