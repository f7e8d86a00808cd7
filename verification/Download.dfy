/** Resumable downloads, from the engine's stream to the page's storage and back. */
module Download {
  import opened Frames

  // The engine streams a remote file and never passes the size it first saw; the page
  // keeps the bytes in fixed-size segments, each closed when full, with a record of the
  // closed ones. Storage may fail, or the page die, before any storage operation: `ops`
  // is how many succeed before that.

  const SEGMENT_BYTES: nat := 4194304
  const TAIL_BYTES: nat := 4096

  /** The closed segments, named by index, and the bytes they hold. */
  datatype Record = Record(segments: seq<nat>, committedBytes: nat)

  /** What outlives the page. */
  datatype Disk = Disk(record: Option<Record>, files: map<nat, seq<byte>>)

  datatype Open = Open(name: nat, bytes: seq<byte>)

  // ---- The file in segments ----

  /** Where segment k begins in a file of this size. */
  function Bound(size: nat, k: nat): (n: nat)
    ensures n <= size
  {
    Min(k * SEGMENT_BYTES, size)
  }

  lemma BoundsGrow(size: nat, k: nat)
    ensures Bound(size, k) <= Bound(size, k + 1)
  {
  }

  function SegmentOf(remote: seq<byte>, k: nat): seq<byte> {
    BoundsGrow(|remote|, k);
    remote[Bound(|remote|, k)..Bound(|remote|, k + 1)]
  }

  function Names(n: nat): seq<nat> {
    if n == 0 then [] else Names(n - 1) + [n - 1]
  }

  function Joined(files: map<nat, seq<byte>>, segments: seq<nat>): seq<byte> {
    if segments == [] then []
    else
      var last := segments[|segments| - 1];
      Joined(files, segments[..|segments| - 1]) + if last in files then files[last] else []
  }

  /** The record's segments are closed files that hold the file's first segments, each begun inside it. */
  ghost predicate Kept(record: Record, files: map<nat, seq<byte>>, remote: seq<byte>) {
    var n := |record.segments|;
    record.segments == Names(n) && record.committedBytes == Bound(|remote|, n) &&
    (n > 0 ==> (n - 1) * SEGMENT_BYTES < |remote|) &&
    forall k :: 0 <= k < n ==> k in files && files[k] == SegmentOf(remote, k)
  }

  ghost predicate Persisted(disk: Disk, remote: seq<byte>) {
    disk.record.Some? ==> Kept(disk.record.value, disk.files, remote)
  }

  lemma {:induction false} NamesCount(n: nat)
    ensures |Names(n)| == n
  {
    if n > 0 {
      NamesCount(n - 1);
    }
  }

  /** The first segments and the next one are a longer prefix. */
  lemma NextSegment(remote: seq<byte>, n: nat)
    ensures remote[..Bound(|remote|, n)] + SegmentOf(remote, n) == remote[..Bound(|remote|, n + 1)]
  {
    BoundsGrow(|remote|, n);
    SlicesJoin(remote, 0, Bound(|remote|, n), Bound(|remote|, n + 1));
  }

  lemma {:induction false} JoinedIsPrefix(files: map<nat, seq<byte>>, n: nat, remote: seq<byte>)
    requires forall k :: 0 <= k < n ==> k in files && files[k] == SegmentOf(remote, k)
    ensures Joined(files, Names(n)) == remote[..Bound(|remote|, n)]
  {
    hide SegmentOf;
    if n > 0 {
      NamesCount(n - 1);
      JoinedIsPrefix(files, n - 1, remote);
      assert Names(n)[..n - 1] == Names(n - 1);
      NextSegment(remote, n - 1);
    }
  }

  /** The bytes a record keeps are a prefix of the file, and every segment but possibly the file's last is full. */
  lemma KeptIsAPrefix(record: Record, files: map<nat, seq<byte>>, remote: seq<byte>)
    requires Kept(record, files, remote)
    ensures record.committedBytes <= |remote|
    ensures Joined(files, record.segments) == remote[..record.committedBytes]
    ensures forall k :: 0 <= k < |record.segments| ==>
      (k in files && (|files[k]| == SEGMENT_BYTES || (k == |record.segments| - 1 && record.committedBytes == |remote|)))
  {
    JoinedIsPrefix(files, |record.segments|, remote);
    forall k | 0 <= k < |record.segments|
      ensures |files[k]| == SEGMENT_BYTES || (k == |record.segments| - 1 && record.committedBytes == |remote|)
    {
      assert files[k] == SegmentOf(remote, k);
    }
  }

  /** A record opens again exactly when its last segment is full. */
  predicate Reopens(record: Record) {
    record.committedBytes == |record.segments| * SEGMENT_BYTES
  }

  /**
   * Only a record of the whole file does not open again, and only when the file's size
   * is no multiple of the segment size.
   */
  lemma ReopensUnlessAShortFileIsComplete(record: Record, files: map<nat, seq<byte>>, remote: seq<byte>)
    requires Kept(record, files, remote)
    ensures Reopens(record) <==> !(record.committedBytes == |remote| && |remote| % SEGMENT_BYTES != 0)
  {
  }

  /** A finished download of one byte leaves a record that does not open again. */
  lemma ShortRecordDoesNotReopen()
    ensures Kept(Record([0], 1), map[0 := [7]], [7]) && !Reopens(Record([0], 1))
  {
    assert Names(1) == [0];
    assert SegmentOf([7], 0) == [7];
  }

  // ---- recordIsUsable ----

  function TotalSize(files: map<nat, seq<byte>>, segments: seq<nat>): nat {
    if segments == [] then 0
    else
      var last := segments[|segments| - 1];
      TotalSize(files, segments[..|segments| - 1]) + if last in files then |files[last]| else 0
  }

  /** Adds up the sizes of the segments that are still there; one missing makes the record useless. */
  method RecordIsUsable(files: map<nat, seq<byte>>, record: Record) returns (usable: bool)
    ensures usable <==>
      ((forall k :: 0 <= k < |record.segments| ==> record.segments[k] in files) &&
       TotalSize(files, record.segments) == record.committedBytes)
  {
    var total := 0;
    var i := 0;
    while i < |record.segments|
      invariant 0 <= i <= |record.segments|
      invariant forall k :: 0 <= k < i ==> record.segments[k] in files
      invariant total == TotalSize(files, record.segments[..i])
    {
      var name := record.segments[i];
      if name !in files {
        return false;
      }
      total := total + |files[name]|;
      assert record.segments[..i + 1][..i] == record.segments[..i];
      i := i + 1;
    }
    assert record.segments[..i] == record.segments;
    return total == record.committedBytes;
  }

  lemma {:induction false} TotalIsJoinedLength(files: map<nat, seq<byte>>, segments: seq<nat>)
    ensures TotalSize(files, segments) == |Joined(files, segments)|
  {
    if segments != [] {
      TotalIsJoinedLength(files, segments[..|segments| - 1]);
    }
  }

  /** Without eviction a kept record is usable. */
  lemma KeptIsUsable(record: Record, files: map<nat, seq<byte>>, remote: seq<byte>)
    requires Kept(record, files, remote)
    ensures forall k :: 0 <= k < |record.segments| ==> record.segments[k] in files
    ensures TotalSize(files, record.segments) == record.committedBytes
  {
    KeptIsAPrefix(record, files, remote);
    TotalIsJoinedLength(files, record.segments);
    forall k | 0 <= k < |record.segments| ensures record.segments[k] in files {
      NameAt(|record.segments|, k);
    }
  }

  lemma {:induction false} NameAt(n: nat, k: nat)
    requires k < n
    ensures |Names(n)| == n && Names(n)[k] == k
  {
    NamesCount(n - 1);
    if k < n - 1 {
      NameAt(n - 1, k);
    }
  }

  // ---- What each storage operation leaves ----

  function Touched(files: map<nat, seq<byte>>, name: nat): map<nat, seq<byte>> {
    if name in files then files else files[name := []]
  }

  /** A file outside the record may be written, touched or removed. */
  lemma FileOutsideRecord(record: Record, files: map<nat, seq<byte>>, name: nat, bytes: seq<byte>, data: seq<byte>)
    requires Kept(record, files, data) && |record.segments| <= name
    ensures Kept(record, files[name := bytes], data)
    ensures Kept(record, Touched(files, name), data)
    ensures Kept(record, files - {name}, data)
  {
  }

  /** The next segment, closed in its file, extends the record. */
  lemma OneMoreSegment(record: Record, files: map<nat, seq<byte>>, bytes: seq<byte>, data: seq<byte>)
    requires Kept(record, files, data) && Reopens(record)
    requires 0 < |bytes| <= SEGMENT_BYTES && record.committedBytes + |bytes| == |data|
    requires bytes == data[record.committedBytes..]
    requires |record.segments| in files && files[|record.segments|] == bytes
    ensures Kept(Record(record.segments + [|record.segments|], record.committedBytes + |bytes|), files, data)
  {
    assert SegmentOf(data, |record.segments|) == bytes;
  }

  /** Full segments stay what they are when more data follows. */
  lemma KeptGrows(record: Record, files: map<nat, seq<byte>>, data: seq<byte>, whole: seq<byte>)
    requires Kept(record, files, data) && data <= whole && (Reopens(record) || data == whole)
    ensures Kept(record, files, whole)
  {
    if Reopens(record) {
      forall k | 0 <= k < |record.segments| ensures k in files && files[k] == SegmentOf(whole, k) {
        assert files[k] == SegmentOf(data, k);
      }
    }
  }

  // ---- The segmented writer ----

  /** Storage operations that are enough to take n bytes: two to open, one to write and two to commit a segment. */
  function WriteOps(n: nat): nat {
    5 * (n / SEGMENT_BYTES + 2)
  }

  /** Storage operations enough for the next n bytes, with a segment open or not. */
  function OpsLeft(n: nat, isOpen: bool): nat {
    5 * (n / SEGMENT_BYTES + if isOpen then 2 else 1)
  }

  lemma WriteOpsSuffice(n: nat)
    ensures OpsLeft(n, false) <= WriteOps(n) && OpsLeft(n, true) <= WriteOps(n)
  {
  }

  /** What a full segment takes off the rest pays for the next one. */
  lemma OpsSuffice(n: nat, take: nat)
    requires take <= n
    ensures OpsLeft(n - take, false) + 5 <= OpsLeft(n, true) && OpsLeft(n, false) >= 5
    ensures take == SEGMENT_BYTES ==> OpsLeft(n - take, false) + 5 <= OpsLeft(n, false)
  {
  }

  /** Segments of a file of n bytes. */
  function SegmentCount(n: nat): nat {
    (n + SEGMENT_BYTES - 1) / SEGMENT_BYTES
  }

  /** Storage operations that commit what is open at the end: closing it and recording it. */
  function CommitOps(n: nat): nat {
    if n % SEGMENT_BYTES == 0 then 0 else 2
  }

  /** Storage operations that finish a download of n bytes: committing, and two to read each segment back. */
  function FinishOps(n: nat): nat {
    CommitOps(n) + 2 * SegmentCount(n)
  }

  lemma CountWhenComplete(record: Record, files: map<nat, seq<byte>>, data: seq<byte>)
    requires Kept(record, files, data) && record.committedBytes == |data|
    ensures |record.segments| == SegmentCount(|data|)
  {
  }

  /** A segment is open exactly when the bytes handed over do not end one. */
  lemma PartlyFilled(page: SegmentedDownload)
    requires page.Valid() && !page.closed
    ensures page.open.Some? <==> |page.given| % SEGMENT_BYTES != 0
  {
    hide Kept, Joined;
    assert page.record.committedBytes == |page.record.segments| * SEGMENT_BYTES;
  }

  lemma PartOfChunk(chunk: seq<byte>, offset: nat, take: nat)
    requires offset + take <= |chunk|
    ensures chunk[..offset] + chunk[offset..][..take] == chunk[..offset + take]
    ensures chunk[..offset] <= chunk && chunk[..offset + take] <= chunk
  {
  }

  /** The writer of one page; `given` is every byte it was handed, those of earlier pages in its record included. */
  class SegmentedDownload {
    ghost var given: seq<byte>
    var disk: Disk
    var record: Record
    var open: Option<Open>
    var closed: bool

    constructor (disk: Disk, record: Record)
      ensures this.disk == disk && this.record == record && open.None? && !closed
      ensures given == Joined(disk.files, record.segments)
    {
      this.disk, this.record, this.open, this.closed := disk, record, None, false;
      this.given := Joined(disk.files, record.segments);
    }

    /** What holds at every moment, even after a storage failure: the persisted record can be trusted. */
    ghost predicate Safe()
      reads this
    {
      disk.record.Some? && Kept(disk.record.value, disk.files, given) && (closed || Reopens(disk.record.value)) &&
      |disk.record.value.segments| <= |record.segments| &&
      (open.Some? ==> open.value.name == |record.segments|)
    }

    /** Between calls of a healthy writer: memory and disk agree, and record and open segment hold all it was given. */
    ghost predicate Valid()
      reads this
    {
      Safe() && disk.record == Some(record) && record.committedBytes <= |given| &&
      (if open.Some? then 0 < |open.value.bytes| < SEGMENT_BYTES && open.value.bytes == given[record.committedBytes..]
       else record.committedBytes == |given|)
    }

    /** Closes the open segment, then records it: the page may die between the two. */
    method CommitOpenSegment(ops: nat) returns (ok: bool, left: nat)
      requires Safe() && disk.record == Some(record) && Reopens(record) && open.Some?
      requires 0 < |open.value.bytes| <= SEGMENT_BYTES && (closed || |open.value.bytes| == SEGMENT_BYTES)
      requires record.committedBytes <= |given| && open.value.bytes == given[record.committedBytes..]
      modifies this
      ensures Safe() && open.None? && closed == old(closed) && given == old(given)
      ensures ok ==> disk.record == Some(record) && record.committedBytes == |given|
      ensures disk.record.value.committedBytes >= old(disk.record.value.committedBytes)
      ensures ok <==> ops >= 2
      ensures ok ==> left == ops - 2
      ensures !ok ==> disk.record == old(disk.record)
    {
      hide Kept, Joined;
      var segment := open.value;
      open := None;
      if ops == 0 {
        return false, 0;
      }
      FileOutsideRecord(record, disk.files, segment.name, segment.bytes, given);
      disk := disk.(files := disk.files[segment.name := segment.bytes]);
      ghost var committed := record;
      record := Record(record.segments + [segment.name], record.committedBytes + |segment.bytes|);
      if ops == 1 {
        return false, 0;
      }
      OneMoreSegment(committed, disk.files, segment.bytes, given);
      disk := disk.(record := Some(record));
      return true, ops - 2;
    }

    /** Creates the next segment's file and opens it. */
    method OpenSegment(ops: nat) returns (ok: bool, left: nat)
      requires Safe() && open.None?
      modifies this`disk, this`open
      ensures Safe() && disk.record == old(disk.record)
      ensures ok <==> ops >= 2
      ensures ok ==> left == ops - 2 && open == Some(Open(|record.segments|, []))
      ensures !ok ==> open.None?
    {
      hide Kept, Joined;
      var name := |record.segments|;
      if ops >= 1 {
        FileOutsideRecord(disk.record.value, disk.files, name, [], given);
        disk := disk.(files := Touched(disk.files, name));
      }
      if ops < 2 {
        return false, 0;
      }
      open := Some(Open(name, []));
      return true, ops - 2;
    }

    /** Writes bytes that fit the open segment, and commits it when it is full. */
    method Fill(taken: seq<byte>, ops: nat) returns (ok: bool, left: nat)
      requires Safe() && !closed && disk.record == Some(record) && open.Some? && 0 < |taken|
      requires record.committedBytes <= |given| && open.value.bytes == given[record.committedBytes..]
      requires |open.value.bytes| + |taken| <= SEGMENT_BYTES
      modifies this
      ensures Safe() && !closed
      ensures ok ==> Valid() && given == old(given) + taken
      ensures ok ==> (open.Some? <==> old(|open.value.bytes|) + |taken| < SEGMENT_BYTES)
      ensures given == old(given) || given == old(given) + taken
      ensures disk.record.value.committedBytes >= old(disk.record.value.committedBytes)
      ensures ops >= 3 ==> ok && left >= ops - 3
    {
      hide Kept, Joined;
      if ops == 0 {
        return false, 0;
      }
      KeptGrows(record, disk.files, given, given + taken);
      assert (given + taken)[record.committedBytes..] == given[record.committedBytes..] + taken;
      given := given + taken;
      open := Some(Open(open.value.name, open.value.bytes + taken));
      if |open.value.bytes| < SEGMENT_BYTES {
        return true, ops - 1;
      }
      ok, left := CommitOpenSegment(ops - 1);
    }

    /** Takes what the open segment, or a new one, has room for. */
    method TakePart(rest: seq<byte>, ops: nat) returns (ok: bool, take: nat, left: nat)
      requires Valid() && !closed && rest != []
      modifies this
      ensures Safe() && !closed && take <= |rest|
      ensures ok ==> Valid() && 0 < take && given == old(given) + rest[..take]
      ensures given == old(given) || given == old(given) + rest[..take]
      ensures disk.record.value.committedBytes >= old(disk.record.value.committedBytes)
      ensures ops >= OpsLeft(|rest|, old(open.Some?)) ==> ok
      ensures ops >= OpsLeft(|rest|, old(open.Some?)) && take < |rest| ==> left >= OpsLeft(|rest| - take, open.Some?)
    {
      hide Kept, Joined, OpsLeft;
      OpsSuffice(|rest|, 0);
      take, left := 0, ops;
      if open.None? {
        ok, left := OpenSegment(left);
        if !ok {
          return;
        }
      }
      take := Min(SEGMENT_BYTES - |open.value.bytes|, |rest|);
      OpsSuffice(|rest|, take);
      ok, left := Fill(rest[..take], left);
    }

    /**
     * Takes one chunk of the stream, opening and committing segments as they fill.
     * Enough storage operations make it succeed; a failure loses at most one
     * segment of what was taken before.
     */
    method Write(chunk: seq<byte>, ops: nat) returns (ok: bool)
      requires Valid() && !closed
      modifies this
      ensures Safe() && !closed
      ensures ok ==> Valid() && given == old(given) + chunk
      ensures old(given) <= given <= old(given) + chunk
      ensures disk.record.value.committedBytes >= old(disk.record.value.committedBytes)
      ensures disk.record.value.committedBytes + SEGMENT_BYTES >= |old(given)|
      ensures ops >= WriteOps(|chunk|) ==> ok
    {
      hide Kept, Joined, OpsLeft, WriteOps;
      var offset: nat, left: nat := 0, ops;
      WriteOpsSuffice(|chunk|);
      assert given == old(given) + chunk[..0];
      while offset < |chunk|
        invariant 0 <= offset <= |chunk|
        invariant Valid() && !closed && given == old(given) + chunk[..offset]
        invariant disk.record.value.committedBytes >= old(disk.record.value.committedBytes)
        invariant ops >= WriteOps(|chunk|) && offset < |chunk| ==> left >= OpsLeft(|chunk| - offset, open.Some?)
      {
        var take;
        ok, take, left := TakePart(chunk[offset..], left);
        PartOfChunk(chunk, offset, take);
        if !ok {
          return;
        }
        offset := offset + take;
      }
      assert chunk[..offset] == chunk;
      return true;
    }

    /**
     * Commits what is open, then reads the segments back and puts them together: the
     * storage may fail, or the page die, when everything is committed and nothing read.
     */
    method Finish(ops: nat) returns (whole: Option<seq<byte>>)
      requires Valid() && !closed
      modifies this
      ensures Safe() && closed && given == old(given)
      ensures whole.Some? ==> whole.value == given
      ensures whole.Some? <==> ops >= FinishOps(|given|)
      ensures if ops >= CommitOps(|given|) then disk.record.value.committedBytes == |given|
              else disk.record == old(disk.record) && whole.None?
    {
      hide Kept, Joined;
      PartlyFilled(this);
      closed := true;
      var left := ops;
      if open.Some? {
        var ok;
        ok, left := CommitOpenSegment(left);
        if !ok {
          return None;
        }
      }
      CountWhenComplete(record, disk.files, given);
      // A handle and a file for each segment.
      if left < 2 * |record.segments| {
        return None;
      }
      KeptIsAPrefix(record, disk.files, given);
      assert given[..|given|] == given;
      return Some(Joined(disk.files, record.segments));
    }

    /** Drops the open segment and its file; everything else stays. */
    method Abort(ops: nat)
      requires Safe()
      modifies this
      ensures Safe() && closed && open.None? && given == old(given) && disk.record == old(disk.record)
      ensures disk.files ==
        if !old(closed) && old(open).Some? && ops >= 2 then old(disk.files) - {old(open).value.name}
        else old(disk.files)
    {
      hide Kept;
      if closed {
        open := None;
        return;
      }
      closed := true;
      if open.None? {
        return;
      }
      var segment := open.value;
      open := None;
      if ops >= 2 {
        FileOutsideRecord(disk.record.value, disk.files, segment.name, [], given);
        disk := disk.(files := disk.files - {segment.name});
      }
    }

    /** Up to 4096 bytes that end at the committed offset, from the last segment. */
    method Tail(ops: nat) returns (tail: Option<seq<byte>>)
      requires Valid() && !closed
      ensures tail.Some? <==> record.committedBytes == 0 || ops >= 2
      ensures tail.Some? ==>
        tail.value == given[record.committedBytes - Min(TAIL_BYTES, record.committedBytes)..record.committedBytes]
    {
      KeptIsAPrefix(record, disk.files, given);
      if record.segments == [] {
        return Some([]);
      }
      if ops < 2 {
        return None;
      }
      var n := |record.segments|;
      NameAt(n, n - 1);
      var file := disk.files[record.segments[n - 1]];
      assert file == SegmentOf(given, n - 1);
      return Some(file[|file| - TAIL_BYTES..]);
    }
  }

  // ---- The engine's side ----

  datatype WriteEnd = Fine | Cancelled | Grew | Failed

  /** The writer the file is streamed through, on its way to the page. */
  class CancelWriter {
    var written: nat
    const total: nat
    const page: SegmentedDownload

    constructor (offset: nat, total: nat, page: SegmentedDownload)
      ensures written == offset && this.total == total && this.page == page
    {
      written := offset;
      this.total, this.page := total, page;
    }

    /** Passes on at most what is left of the size; `ops` is how many of the page's storage operations succeed. */
    method Write(p: seq<byte>, cancelled: bool, ops: nat) returns (end: WriteEnd)
      requires written <= total && page.Valid() && !page.closed
      modifies this, page
      ensures written <= total && page.Safe() && !page.closed
      ensures end.Cancelled? <==> cancelled
      ensures end.Cancelled? ==> page.Valid() && page.given == old(page.given)
      ensures end.Fine? || end.Grew? ==>
        (page.Valid() && written == old(written) + Min(|p|, total - old(written)) &&
         page.given == old(page.given) + p[..written - old(written)] && (end.Grew? <==> |p| > total - old(written)))
      ensures end.Failed? ==> ops < WriteOps(|p|)
      ensures old(page.given) <= page.given <= old(page.given) + p[..Min(|p|, total - old(written))]
      ensures page.disk.record.value.committedBytes >= old(page.disk.record.value.committedBytes)
    {
      if cancelled {
        return Cancelled;
      }
      var extra := false;
      var passing := p;
      if |p| > total - written {
        passing, extra := p[..total - written], true;
      }
      assert passing == p[..|passing|];
      FewerOps(|passing|, |p|);
      var ok := page.Write(passing, ops);
      if !ok {
        return Failed;
      }
      written := written + |passing|;
      return if extra then Grew else Fine;
    }
  }

  lemma FewerOps(n: nat, m: nat)
    requires n <= m
    ensures WriteOps(n) <= WriteOps(m)
  {
  }

  /** A remote file: what Stat says and what reading it yields, which may have changed since. */
  datatype RemoteFile = RemoteFile(regular: bool, size: nat, mtime: int, content: seq<byte>)

  datatype Options = Options(offset: int, expectSize: int, expectMtime: int, tail: seq<byte>)

  datatype DownloadEnd = InvalidOptions | NotRegular | RemoteChanged | WasCancelled | Broken | Complete(grew: bool)

  predicate OptionsOk(o: Options) {
    o.offset >= 0 && (o.offset > 0 ==> 0 < |o.tail| <= o.offset)
  }

  /** The first reason not to stream; None lets the stream begin. */
  function Refusal(file: RemoteFile, o: Options): Option<DownloadEnd> {
    if !OptionsOk(o) then Some(InvalidOptions)
    else if !file.regular then Some(NotRegular)
    else if o.offset == 0 then None
    else if file.size != o.expectSize || file.mtime != o.expectMtime then Some(RemoteChanged)
    else if o.offset > file.size then Some(InvalidOptions)
    else if o.offset > |file.content| || file.content[o.offset - |o.tail|..o.offset] != o.tail then Some(RemoteChanged)
    else None
  }

  /** One read of the stream: its length, whether it is cancelled or the connection lost, and the page's luck. */
  datatype Read = Read(length: nat, cancelled: bool, lost: bool, ops: nat)

  predicate Undisturbed(schedule: seq<Read>, n: nat) {
    forall r :: r in schedule ==> !r.cancelled && !r.lost && r.ops >= WriteOps(n)
  }

  /** The bytes a download from the offset may hand on. */
  function Wanted(file: RemoteFile, offset: nat): seq<byte>
    requires offset <= Min(file.size, |file.content|)
  {
    file.content[offset..Min(file.size, |file.content|)]
  }

  /** Hands on one read of at least one byte. */
  method PassRead(file: RemoteFile, offset: nat, w: CancelWriter, read: Read, ghost before: seq<byte>)
      returns (length: nat, end: WriteEnd)
    requires offset <= w.written < |file.content| && w.written <= file.size == w.total
    requires w.page.Valid() && !w.page.closed && w.page.given == before + file.content[offset..w.written]
    modifies w, w.page
    ensures w.page.Safe() && !w.page.closed
    ensures before <= w.page.given <= before + Wanted(file, offset)
    ensures end.Fine? || end.Grew? ==> old(w.written) <= w.written <= Min(file.size, |file.content|)
    ensures end.Fine? || end.Grew? ==> w.page.Valid() && w.page.given == before + file.content[offset..w.written]
    ensures end.Grew? ==> w.written == file.size < |file.content|
    ensures end.Fine? ==> old(w.written) < w.written
    ensures w.page.disk.record.value.committedBytes >= old(w.page.disk.record.value.committedBytes)
    ensures end.Cancelled? <==> read.cancelled
    ensures end.Failed? ==> read.ops < WriteOps(|file.content|)
  {
    hide Kept, Joined, WriteOps, Wanted;
    var position := w.written;
    length := Min(if read.length == 0 then 1 else read.length, |file.content| - position);
    FewerOps(length, |file.content|);
    ghost var sofar, passed := w.page.given, Min(length, file.size - position);
    end := w.Write(file.content[position..position + length], read.cancelled, read.ops);
    SliceOfSlice(file.content, position, position + length, position, passed);
    HandedOn(before, sofar, file, offset, position, passed, w.page.given);
  }

  /** What is handed on, whole reads and parts of them, stays a prefix of what is wanted. */
  lemma HandedOn(before: seq<byte>, sofar: seq<byte>, file: RemoteFile, offset: nat, position: nat, passed: nat,
                 given: seq<byte>)
    requires offset <= position && position + passed <= Min(file.size, |file.content|)
    requires sofar == before + file.content[offset..position]
    requires sofar <= given <= sofar + file.content[position..position + passed]
    ensures before <= given <= before + Wanted(file, offset)
    ensures given == sofar + file.content[position..position + passed] ==>
      given == before + file.content[offset..position + passed]
  {
    var content, limit := file.content, Min(file.size, |file.content|);
    SlicesJoin(content, offset, position, position + passed);
    SlicesJoin(content, offset, position + passed, limit);
    var all := before + content[offset..limit];
    assert all == before + content[offset..position + passed] + content[position + passed..limit];
    assert all == sofar + content[position..position + passed] + content[position + passed..limit];
  }

  /**
   * Streams the file from the offset into the page. Whatever happens, the page is
   * handed a prefix of the file from there, never past the size. The stream ends
   * complete only when it handed on all of that, and when nothing disturbs it, it does.
   */
  method Stream(file: RemoteFile, offset: nat, page: SegmentedDownload, schedule: seq<Read>, cancelledAfter: bool)
      returns (end: DownloadEnd)
    requires offset <= Min(file.size, |file.content|) && page.Valid() && !page.closed
    modifies page
    ensures page.Safe() && !page.closed
    ensures old(page.given) <= page.given <= old(page.given) + Wanted(file, offset)
    ensures end.Complete? ==> page.Valid() && page.given == old(page.given) + Wanted(file, offset)
    ensures end.Complete? ==> (end.grew <==> |file.content| > file.size)
    ensures page.disk.record.value.committedBytes >= old(page.disk.record.value.committedBytes)
    ensures !cancelledAfter && Undisturbed(schedule, |file.content|) ==> end == Complete(|file.content| > file.size)
    ensures end in {WasCancelled, Broken, Complete(true), Complete(false)}
    ensures cancelledAfter ==> end == WasCancelled
    ensures end == WasCancelled ==> cancelledAfter || exists r :: r in schedule && r.cancelled
    ensures end == Broken ==> exists r :: r in schedule && (r.lost || r.ops < WriteOps(|file.content|))
  {
    hide Kept, Joined, WriteOps;
    var w := new CancelWriter(offset, file.size, page);
    var i := 0;
    ghost var before, limit := page.given, Min(file.size, |file.content|);
    assert page.given == before + file.content[offset..w.written];
    while w.written < |file.content|
      invariant fresh(w) && w.page == page && w.total == file.size && offset <= w.written <= limit
      invariant page.Valid() && !page.closed && page.given == before + file.content[offset..w.written]
      invariant page.disk.record.value.committedBytes >= old(page.disk.record.value.committedBytes)
      decreases |file.content| - w.written
    {
      HandedOn(before, page.given, file, offset, w.written, 0, page.given);
      // Past the schedule one undisturbed read yields the rest.
      var read := Read(|file.content|, false, false, WriteOps(|file.content|));
      if i < |schedule| {
        read := schedule[i];
      }
      if read.lost {
        return if cancelledAfter then WasCancelled else Broken;
      }
      var _, passed := PassRead(file, offset, w, read, before);
      if !passed.Fine? {
        return if cancelledAfter || passed.Cancelled? then WasCancelled
               else if passed.Grew? then Complete(true) else Broken;
      }
      i := i + 1;
    }
    return if cancelledAfter then WasCancelled else Complete(false);
  }

  /**
   * Downloads into the page. A refused request hands on nothing. An undisturbed one
   * ends complete whatever the file did since it was measured: all of its size was
   * handed on if and only if the file is still that long.
   */
  method Download(file: RemoteFile, o: Options, page: SegmentedDownload, schedule: seq<Read>, cancelledAfter: bool)
      returns (end: DownloadEnd)
    requires page.Valid() && !page.closed
    modifies page
    ensures page.Safe() && !page.closed
    ensures Refusal(file, o).Some? ==>
      end == Refusal(file, o).value && page.Valid() && page.given == old(page.given) && page.disk == old(page.disk)
    ensures Refusal(file, o).None? ==>
      0 <= o.offset <= Min(file.size, |file.content|) && !end.InvalidOptions? && !end.NotRegular? && !end.RemoteChanged?
    ensures Refusal(file, o).None? ==> old(page.given) <= page.given <= old(page.given) + Wanted(file, o.offset)
    ensures end.Complete? ==> Refusal(file, o).None? && page.Valid() && (end.grew <==> |file.content| > file.size)
    ensures end.Complete? ==> page.given == old(page.given) + Wanted(file, o.offset)
    ensures page.disk.record.value.committedBytes >= old(page.disk.record.value.committedBytes)
    ensures Refusal(file, o).None? && !cancelledAfter && Undisturbed(schedule, |file.content|) ==>
      (end == Complete(|file.content| > file.size) &&
       (|page.given| == |old(page.given)| + file.size - o.offset <==> |file.content| >= file.size))
    ensures Refusal(file, o).None? && cancelledAfter ==> end == WasCancelled
    ensures end == WasCancelled ==> cancelledAfter || exists r :: r in schedule && r.cancelled
    ensures end == Broken ==> exists r :: r in schedule && (r.lost || r.ops < WriteOps(|file.content|))
  {
    hide Kept, Joined, WriteOps;
    var refused := Refusal(file, o);
    if refused.Some? {
      return refused.value;
    }
    end := Stream(file, o.offset, page, schedule, cancelledAfter);
  }

  /** A file of two bytes that shrank to one ends as complete, and the page finishes with the one. */
  method ShrunkFileEndsComplete() returns (end: DownloadEnd, whole: Option<seq<byte>>)
    ensures end == Complete(false) && whole == Some([7])
  {
    hide Kept, Joined, WriteOps;
    var file := RemoteFile(true, 2, 0, [7]);
    NothingKept(map[], []);
    var page := new SegmentedDownload(Disk(Some(Record([], 0)), map[]), Record([], 0));
    end := Download(file, Options(0, 0, 0, []), page, [], false);
    assert Wanted(file, 0) == [7] && page.given == [7];
    whole := page.Finish(4);
  }

  /** An empty record keeps nothing of any file. */
  lemma NothingKept(files: map<nat, seq<byte>>, data: seq<byte>)
    ensures Kept(Record([], 0), files, data) && Reopens(Record([], 0)) && Joined(files, []) == []
  {
  }

  // ---- What a refusal means ----

  /** The bytes that a resume at this offset compares. */
  function TailBefore(data: seq<byte>, offset: nat): seq<byte>
    requires offset <= |data|
  {
    data[offset - Min(TAIL_BYTES, offset)..offset]
  }

  /** A download begins exactly for a regular file, from its beginning or where the caller's tail fits. */
  lemma BeginsExactlyWhenTailFits(file: RemoteFile, o: Options)
    ensures Refusal(file, o).None? <==>
      (file.regular &&
       (o.offset == 0 ||
        (file.size == o.expectSize && file.mtime == o.expectMtime && 0 < |o.tail| <= o.offset <= file.size &&
         exists before, after :: |before| + |o.tail| == o.offset && file.content == before + o.tail + after)))
  {
    if Refusal(file, o).None? && o.offset > 0 {
      var start := o.offset - |o.tail|;
      assert file.content == file.content[..start] + o.tail + file.content[o.offset..];
    }
    forall before, after | |before| + |o.tail| == o.offset && file.content == before + o.tail + after
      ensures file.content[|before|..o.offset] == o.tail
    {
    }
  }

  /** Which refusal it is otherwise, by what the request and the file are. */
  lemma RefusalsAre(file: RemoteFile, o: Options)
    ensures var wrong := o.offset < 0 || (o.offset > 0 && (o.tail == [] || |o.tail| > o.offset));
      var changed := file.size != o.expectSize || file.mtime != o.expectMtime;
      (Refusal(file, o) == Some(InvalidOptions) <==>
         wrong || (file.regular && o.offset > 0 && !changed && o.offset > file.size)) &&
      (Refusal(file, o) == Some(NotRegular) <==> !wrong && !file.regular) &&
      (Refusal(file, o) == Some(RemoteChanged) <==>
         !wrong && file.regular && o.offset > 0 &&
         (changed || (o.offset <= file.size && !EndsAt(file.content, o.offset, o.tail))))
    ensures Refusal(file, o).Some? ==> Refusal(file, o).value in {InvalidOptions, NotRegular, RemoteChanged}
  {
  }

  /** The bytes before the offset are the tail. */
  predicate EndsAt(content: seq<byte>, offset: int, tail: seq<byte>) {
    |tail| <= offset <= |content| && tail == content[offset - |tail|..offset]
  }

  /** They are the last 4096 before it, or all of them when there are fewer. */
  lemma TailIs(data: seq<byte>, offset: nat)
    requires offset <= |data|
    ensures offset <= 4096 ==> TailBefore(data, offset) == data[..offset]
    ensures offset > 4096 ==> TailBefore(data, offset) == data[offset - 4096..offset]
  {
  }

  /** What a record says of the file it was begun with. */
  datatype Stamp = Stamp(size: nat, mtime: int)

  /** The file has the record's size and time and agrees with what was kept in the last 4096 bytes before the offset. */
  predicate LooksUnchanged(kept: seq<byte>, offset: nat, stamp: Stamp, file: RemoteFile)
    requires offset <= |kept|
  {
    offset == 0 || (Stamp(file.size, file.mtime) == stamp && offset <= Min(file.size, |file.content|) &&
                    TailBefore(file.content, offset) == TailBefore(kept, offset))
  }

  /**
   * Resuming what was kept of an earlier file is refused, as changed, exactly when the
   * file looks changed, and past its end, as invalid. A change before the last 4096
   * bytes goes unseen.
   */
  lemma ResumeRefusedExactlyWhenChangeIsSeen(kept: seq<byte>, offset: nat, stamp: Stamp, file: RemoteFile)
    requires offset <= |kept| && file.regular
    ensures var refused := Refusal(file, Options(offset, stamp.size, stamp.mtime, TailBefore(kept, offset)));
      (refused.None? <==> LooksUnchanged(kept, offset, stamp, file)) &&
      (refused.Some? ==> refused == Some(RemoteChanged) || (refused == Some(InvalidOptions) && offset > stamp.size))
  {
  }

  // ---- Any number of lives ----

  /**
   * One page's attempt: whether the record can be saved and deleted, what storage, the
   * engine's first requests and the reads do, and, after a failure, whether the page
   * dies or the session was lost; only a page that is alive and has its session deletes
   * the record.
   */
  datatype Life = Life(saves: bool, deletes: bool, tailOps: nat, engineFails: bool, schedule: seq<Read>,
                       cancelledAfter: bool, finishOps: nat, abortOps: nat, pageDies: bool, lost: bool)

  /** The record outlives a failure of this life. */
  predicate Keeps(life: Life) {
    life.pageDies || life.lost || !life.deletes
  }

  predicate ReadsWell(life: Life, n: nat) {
    life.tailOps >= 2 && !life.engineFails && Undisturbed(life.schedule, n) && !life.cancelledAfter
  }

  predicate LifeUndisturbed(life: Life, n: nat) {
    life.saves && life.deletes && ReadsWell(life, n) && life.finishOps >= FinishOps(n)
  }

  /** There is nothing to go on with, or something that opens. */
  predicate Startable(disk: Disk) {
    disk.record.Some? ==> Reopens(disk.record.value)
  }

  /** A full prefix kept of the file is kept of itself. */
  lemma KeptOfPrefix(record: Record, files: map<nat, seq<byte>>, remote: seq<byte>)
    requires Kept(record, files, remote) && Reopens(record)
    ensures record.committedBytes <= |remote| && Joined(files, record.segments) == remote[..record.committedBytes]
    ensures Kept(record, files, remote[..record.committedBytes])
  {
    KeptIsAPrefix(record, files, remote);
    var data := remote[..record.committedBytes];
    assert Kept(record, files, data) by {
      hide Joined, SegmentOf;
      forall k | 0 <= k < |record.segments| ensures files[k] == SegmentOf(data, k) {
        SegmentOfPrefix(remote, record.committedBytes, k);
      }
    }
  }

  lemma SegmentOfPrefix(remote: seq<byte>, n: nat, k: nat)
    requires (k + 1) * SEGMENT_BYTES <= n <= |remote|
    ensures SegmentOf(remote[..n], k) == SegmentOf(remote, k)
  {
  }

  /** Continues the record, or starts a new one, and opens the first segment's file as a test of the storage. */
  method OpenLife(ghost remote: seq<byte>, disk: Disk) returns (page: SegmentedDownload)
    requires Persisted(disk, remote) && Startable(disk)
    ensures fresh(page) && page.Valid() && !page.closed && page.open.None?
    ensures page.record.committedBytes <= |remote| && page.given == remote[..page.record.committedBytes]
    ensures page.record.committedBytes == if disk.record.Some? then disk.record.value.committedBytes else 0
  {
    var record, files := Record([], 0), map[];
    if disk.record.Some? {
      record, files := disk.record.value, disk.files;
    } else {
      NothingKept(files, remote);
    }
    FirstFileTouched(record, files, remote);
    files := Touched(files, 0);
    KeptOfPrefix(record, files, remote);
    page := new SegmentedDownload(Disk(Some(record), files), record);
  }

  lemma FirstFileTouched(record: Record, files: map<nat, seq<byte>>, remote: seq<byte>)
    requires Kept(record, files, remote)
    ensures Kept(record, Touched(files, 0), remote)
  {
  }

  /** What the page leaves when it dies or aborts is still of the file. */
  method LeaveLife(ghost remote: seq<byte>, page: SegmentedDownload, life: Life) returns (disk: Disk)
    requires page.Safe() && page.given <= remote && (Reopens(page.disk.record.value) || page.given == remote)
    modifies page
    ensures Persisted(disk, remote)
    ensures disk.record == if Keeps(life) then old(page.disk.record) else None
  {
    hide Kept, Joined;
    KeptGrows(page.disk.record.value, page.disk.files, page.given, remote);
    if life.pageDies {
      return page.disk;
    }
    if page.open.Some? {
      FileOutsideRecord(page.disk.record.value, page.disk.files, page.open.value.name, [], remote);
    }
    page.Abort(life.abortOps);
    return if Keeps(life) then page.disk else Disk(None, map[]);
  }

  /** Bytes the page is ready to hold in memory. */
  const FALLBACK_LIMIT: nat := 16777216

  /** The way out when storage cannot be used: the unchanged file from its beginning, in memory, up to the limit. */
  method DownloadInMemory(remote: seq<byte>, engineFails: bool, schedule: seq<Read>, cancelledAfter: bool)
      returns (whole: Option<seq<byte>>)
    ensures whole.Some? ==> whole.value == remote && |remote| <= FALLBACK_LIMIT
    ensures !engineFails && Undisturbed(schedule, |remote|) && !cancelledAfter ==>
      (whole.Some? <==> |remote| <= FALLBACK_LIMIT)
  {
    hide WriteOps;
    if engineFails {
      return None;
    }
    var i := 0;
    var chunks: seq<byte> := [];
    while |chunks| < |remote|
      invariant |chunks| <= |remote| && chunks == remote[..|chunks|] && |chunks| <= FALLBACK_LIMIT
      decreases |remote| - |chunks|
    {
      var read := Read(|remote|, false, false, 0);
      if i < |schedule| {
        read := schedule[i];
      }
      var length: nat := Min(if read.length == 0 then 1 else read.length, |remote| - |chunks|);
      if read.lost || read.cancelled || |chunks| + length > FALLBACK_LIMIT {
        return None;
      }
      SlicesJoin(remote, 0, |chunks|, |chunks| + length);
      chunks := chunks + remote[|chunks|..|chunks| + length];
      i := i + 1;
    }
    return if cancelledAfter then None else Some(chunks);
  }

  /** What a life makes of what was kept: the file from the offset on, unless it looks changed. */
  function Continued(kept: seq<byte>, offset: nat, stamp: Stamp, file: RemoteFile): seq<byte>
    requires offset <= |kept| && file.size == |file.content|
  {
    if LooksUnchanged(kept, offset, stamp, file) then kept[..offset] + file.content[offset..] else kept
  }

  /** A version of the remote file, at rest while it is read. */
  function AtRest(remote: seq<byte>, mtime: int): RemoteFile {
    RemoteFile(true, |remote|, mtime, remote)
  }

  lemma KeptBytesFit(disk: Disk, kept: seq<byte>)
    requires Persisted(disk, kept)
    ensures KeptBytes(disk) <= |kept|
  {
    hide Joined, SegmentOf;
  }

  /**
   * The rest of a life whose record could be saved. The file may not be the one the
   * bytes were kept of: it is continued with when it looks the same and refused when
   * it does not.
   */
  method RunOpened(ghost kept: seq<byte>, stamp: Stamp, remote: seq<byte>, mtime: int, disk: Disk, life: Life)
      returns (asked: Option<Options>, end: Option<DownloadEnd>, whole: Option<seq<byte>>, after: Disk)
    requires Persisted(disk, kept) && Startable(disk) && KeptBytes(disk) <= |kept|
    ensures Persisted(after, Continued(kept, KeptBytes(disk), stamp, AtRest(remote, mtime)))
    ensures whole.Some? ==>
      (LooksUnchanged(kept, KeptBytes(disk), stamp, AtRest(remote, mtime)) &&
       whole.value == Continued(kept, KeptBytes(disk), stamp, AtRest(remote, mtime)))
    ensures asked == if KeptBytes(disk) == 0 || life.tailOps >= 2
                     then Some(Options(KeptBytes(disk), stamp.size, stamp.mtime, TailBefore(kept, KeptBytes(disk))))
                     else None
    ensures Keeps(life) ==> after.record.Some? && KeptBytes(after) >= KeptBytes(disk)
    ensures ReadsWell(life, |remote|) ==>
      (end == Some(Complete(false)) <==> LooksUnchanged(kept, KeptBytes(disk), stamp, AtRest(remote, mtime)))
    ensures whole.Some? <==> end == Some(Complete(false)) && life.finishOps >= FinishOps(|remote|)
    ensures end == Some(Complete(false)) && life.finishOps >= CommitOps(|remote|) && Keeps(life) ==>
      KeptBytes(after) == |remote|
    ensures whole.None? ==> (Startable(after) <==> !StopsResumes(end == Some(Complete(false)), life, |remote|))
  {
    hide Kept, Joined, WriteOps, FinishOps, CommitOps, LooksUnchanged, TailBefore;
    var page := OpenLife(kept, disk);
    asked, end := AskForRest(kept, stamp, remote, mtime, page, life);
    ContinuedCount(kept, KeptBytes(disk), stamp, remote, mtime);
    whole, after := EndLife(Continued(kept, KeptBytes(disk), stamp, AtRest(remote, mtime)), page,
                            end == Some(Complete(false)), life);
  }

  lemma ContinuedCount(kept: seq<byte>, offset: nat, stamp: Stamp, remote: seq<byte>, mtime: int)
    requires offset <= |kept|
    ensures LooksUnchanged(kept, offset, stamp, AtRest(remote, mtime)) ==>
      |Continued(kept, offset, stamp, AtRest(remote, mtime))| == |remote|
  {
  }

  /** Asks the engine for what lies past the committed bytes and takes what it streams. */
  method AskForRest(ghost kept: seq<byte>, stamp: Stamp, remote: seq<byte>, mtime: int, page: SegmentedDownload,
                    life: Life)
      returns (asked: Option<Options>, end: Option<DownloadEnd>)
    requires page.Valid() && !page.closed && page.record.committedBytes <= |kept|
    requires page.given == kept[..page.record.committedBytes]
    modifies page
    ensures var offset := old(page.record.committedBytes);
      var now := Continued(kept, offset, stamp, AtRest(remote, mtime));
      page.Safe() && !page.closed && page.given <= now &&
      (end == Some(Complete(false)) ==>
         LooksUnchanged(kept, offset, stamp, AtRest(remote, mtime)) && page.Valid() && page.given == now) &&
      (ReadsWell(life, |remote|) ==>
         (end == Some(Complete(false)) <==> LooksUnchanged(kept, offset, stamp, AtRest(remote, mtime)))) &&
      page.disk.record.value.committedBytes >= offset &&
      asked == if offset == 0 || life.tailOps >= 2
               then Some(Options(offset, stamp.size, stamp.mtime, TailBefore(kept, offset))) else None
  {
    hide Kept, Joined, WriteOps, Undisturbed, Wanted, Refusal;
    var offset := page.record.committedBytes;
    var file := AtRest(remote, mtime);
    StillKept(kept, offset, stamp, remote, mtime);
    var tail := page.Tail(life.tailOps);
    if tail.None? {
      return None, None;
    }
    assert tail.value == TailBefore(kept, offset);
    asked := Some(Options(offset, stamp.size, stamp.mtime, tail.value));
    if life.engineFails {
      return asked, Some(Broken);
    }
    ResumeRefusedExactlyWhenChangeIsSeen(kept, offset, stamp, file);
    hide TailBefore, LooksUnchanged;
    var ended := Download(file, asked.value, page, life.schedule, life.cancelledAfter);
    return asked, Some(ended);
  }

  lemma StillKept(kept: seq<byte>, offset: nat, stamp: Stamp, remote: seq<byte>, mtime: int)
    requires offset <= |kept|
    ensures kept[..offset] <= Continued(kept, offset, stamp, AtRest(remote, mtime))
    ensures LooksUnchanged(kept, offset, stamp, AtRest(remote, mtime)) ==>
      (offset <= |remote| &&
       Continued(kept, offset, stamp, AtRest(remote, mtime)) == kept[..offset] + Wanted(AtRest(remote, mtime), offset))
  {
    assert kept[..offset] <= kept;
  }

  /** Finishes a complete stream, or leaves what there is. */
  method EndLife(ghost remote: seq<byte>, page: SegmentedDownload, complete: bool, life: Life)
      returns (whole: Option<seq<byte>>, after: Disk)
    requires page.Safe() && !page.closed && page.given <= remote
    requires complete ==> page.Valid() && page.given == remote
    modifies page
    ensures Persisted(after, remote) && (whole.Some? ==> whole.value == remote)
    ensures whole.Some? <==> complete && life.finishOps >= FinishOps(|remote|)
    ensures Keeps(life) || whole.Some? ==>
      after.record.Some? && KeptBytes(after) >= old(page.disk.record.value.committedBytes)
    ensures complete && life.finishOps >= CommitOps(|remote|) && Keeps(life) ==> KeptBytes(after) == |remote|
    ensures whole.None? ==> (Startable(after) <==> !StopsResumes(complete, life, |remote|))
  {
    hide Kept, Joined, FinishOps, CommitOps;
    whole := None;
    if complete {
      whole := page.Finish(life.finishOps);
      if whole.Some? {
        return whole, page.disk;
      }
    }
    after := LeaveLife(remote, page, life);
    OnlyShortFilesStop(after, remote);
  }

  /** A life that committed all of a file with a short last segment leaves a record that does not open. */
  predicate StopsResumes(complete: bool, life: Life, n: nat) {
    n % SEGMENT_BYTES != 0 && complete && life.finishOps >= CommitOps(n) && Keeps(life)
  }

  function KeptBytes(disk: Disk): nat {
    if disk.record.Some? then disk.record.value.committedBytes else 0
  }

  /**
   * One life over an unchanged file. What it leaves can be trusted. A record that can
   * be saved again is continued where it stands, and the life ends with the file if
   * and only if the stream completes and every segment can be read back. A record that
   * does not open, or cannot be saved, is deleted, and the file fits in memory or is lost.
   */
  method RunLife(remote: seq<byte>, mtime: int, disk: Disk, life: Life)
      returns (asked: Option<Options>, end: Option<DownloadEnd>, whole: Option<seq<byte>>, after: Disk)
    requires Persisted(disk, remote)
    ensures Persisted(after, remote) && (whole.Some? ==> whole.value == remote)
    ensures asked.Some? <==> Startable(disk) && life.saves && (KeptBytes(disk) == 0 || life.tailOps >= 2)
    ensures asked.Some? ==>
      (KeptBytes(disk) <= |remote| &&
       asked.value == Options(KeptBytes(disk), |remote|, mtime, TailBefore(remote, KeptBytes(disk))))
    ensures ReadsWell(life, |remote|) ==>
      (whole.Some? <==> if Startable(disk) && life.saves then life.finishOps >= FinishOps(|remote|)
                        else |remote| <= FALLBACK_LIMIT)
    ensures Startable(disk) && life.saves && Keeps(life) ==> KeptBytes(after) >= KeptBytes(disk)
    ensures Startable(disk) && life.saves && end == Some(Complete(false)) && Keeps(life) ==>
      (life.finishOps >= CommitOps(|remote|) ==> KeptBytes(after) == |remote|)
    ensures Startable(disk) && life.saves && whole.None? ==>
      (Startable(after) <==> !StopsResumes(end == Some(Complete(false)), life, |remote|))
    ensures Startable(disk) && life.saves && ReadsWell(life, |remote|) ==> end == Some(Complete(false))
    ensures !(Startable(disk) && life.saves) ==> after == if life.deletes then Disk(None, map[]) else disk
  {
    hide Kept, Joined, WriteOps;
    KeptBytesFit(disk, remote);
    SameIsUnchanged(remote, KeptBytes(disk), mtime);
    if Startable(disk) && life.saves {
      asked, end, whole, after := RunOpened(remote, Stamp(|remote|, mtime), remote, mtime, disk, life);
      return;
    }
    whole := DownloadInMemory(remote, life.engineFails, life.schedule, life.cancelledAfter);
    return None, None, whole, if life.deletes then Disk(None, map[]) else disk;
  }

  lemma SameIsUnchanged(remote: seq<byte>, offset: nat, mtime: int)
    requires offset <= |remote|
    ensures LooksUnchanged(remote, offset, Stamp(|remote|, mtime), AtRest(remote, mtime))
    ensures Continued(remote, offset, Stamp(|remote|, mtime), AtRest(remote, mtime)) == remote
  {
  }

  lemma OnlyShortFilesStop(disk: Disk, remote: seq<byte>)
    requires Persisted(disk, remote)
    ensures !Startable(disk) <==>
      disk.record.Some? && KeptBytes(disk) == |remote| && |remote| % SEGMENT_BYTES != 0
  {
    if disk.record.Some? {
      ReopensUnlessAShortFileIsComplete(disk.record.value, disk.files, remote);
    }
  }

  predicate OneUndisturbed(lives: seq<Life>, n: nat) {
    exists k :: 0 <= k < |lives| && LifeUndisturbed(lives[k], n)
  }

  /** Two lives in a row. */
  predicate TwoUndisturbed(lives: seq<Life>, n: nat) {
    exists k :: 0 < k < |lives| && LifeUndisturbed(lives[k - 1], n) && LifeUndisturbed(lives[k], n)
  }

  /**
   * Stops and resumes: however many lives fail, wherever storage fails or the page
   * dies in them, the record left behind can be trusted and the life that finishes
   * gives exactly the remote file. One undisturbed life is enough when the file's size
   * is a multiple of the segment size or fits in memory; two in a row are always
   * enough, because the first at least gets rid of a record that does not open.
   */
  method DownloadInLives(remote: seq<byte>, mtime: int, lives: seq<Life>) returns (whole: Option<seq<byte>>, disk: Disk)
    ensures Persisted(disk, remote) && (whole.Some? ==> whole.value == remote)
    ensures (|remote| % SEGMENT_BYTES == 0 || |remote| <= FALLBACK_LIMIT) && OneUndisturbed(lives, |remote|) ==>
      whole.Some?
    ensures TwoUndisturbed(lives, |remote|) ==> whole.Some?
  {
    hide Kept, Joined, WriteOps, FinishOps, ReadsWell;
    disk := Disk(None, map[]);
    var i := 0;
    while i < |lives|
      invariant 0 <= i <= |lives|
      invariant Persisted(disk, remote)
      invariant |remote| % SEGMENT_BYTES == 0 || |remote| <= FALLBACK_LIMIT ==>
        forall k :: 0 <= k < i ==> !LifeUndisturbed(lives[k], |remote|)
      invariant forall k :: 0 < k < i ==>
        !(LifeUndisturbed(lives[k - 1], |remote|) && LifeUndisturbed(lives[k], |remote|))
      invariant i > 0 && LifeUndisturbed(lives[i - 1], |remote|) ==> Startable(disk)
    {
      OnlyShortFilesStop(disk, remote);
      var _, _, finished, after := RunLife(remote, mtime, disk, lives[i]);
      whole, disk := finished, after;
      if whole.Some? {
        return;
      }
      i := i + 1;
    }
    whole := None;
  }

  /**
   * One undisturbed life is not always enough: a page dies when it has committed the
   * last of 16 MiB and one byte and read nothing back. The undisturbed life after it
   * finds a record that does not open, deletes it, and cannot hold the file in memory.
   * Only the one after that ends with the file.
   */
  method CommittedButNotReadBack(mtime: int)
      returns (remote: seq<byte>, first: Option<seq<byte>>, second: Option<seq<byte>>, third: Option<seq<byte>>)
    ensures |remote| == FALLBACK_LIMIT + 1 && first.None? && second.None? && third == Some(remote)
  {
    hide Kept, Joined, WriteOps;
    remote := seq(FALLBACK_LIMIT + 1, _ => 7);
    var dying := Life(true, true, 2, false, [], false, 2, 0, true, false);
    var undisturbed := Life(true, true, 2, false, [], false, FinishOps(|remote|), 0, false, false);
    var nothing := Disk(None, map[]);
    var _, _, whole1, disk1 := RunLife(remote, mtime, nothing, dying);
    OnlyShortFilesStop(disk1, remote);
    var _, _, whole2, disk2 := RunLife(remote, mtime, disk1, undisturbed);
    var _, _, whole3, _ := RunLife(remote, mtime, disk2, undisturbed);
    return remote, whole1, whole2, whole3;
  }
}
