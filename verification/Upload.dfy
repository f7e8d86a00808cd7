/**
 * Staged upload: the bytes go to a temporary file beside the target and are
 * renamed into place. Any operation on the server may fail, the transfer may be
 * cancelled, and another client may act on any path but the temporary one before
 * every operation.
 */
module Upload {
  import opened Frames

  datatype Node =
    | File(content: seq<byte>, mode: nat)
    | Link(to: string)
    | Folder

  const DEFAULT_MODE: nat := 420

  datatype Outcome =
    | Done
    | InvalidPath
    | IsFolder
    | Exists
    | Cancelled
    | ShortSource
    | Failed
    | KeptAt(temp: string)

  // ---- Paths ----

  function StripSlashes(s: string): string {
    if s != "" && s[|s| - 1] == '/' then StripSlashes(s[..|s| - 1]) else s
  }

  function LastElement(s: string): string {
    if '/' in s then LastElement(s[1..]) else s
  }

  /** Go's path.Base. */
  function Base(s: string): string {
    if s == "" then "."
    else if StripSlashes(s) == "" then "/"
    else LastElement(StripSlashes(s))
  }

  predicate BadPath(name: string) {
    name == "" || Base(name) == "." || Base(name) == "/"
  }

  // What path.Base leaves, without naming it: the characters before the trailing slashes
  // and after the last slash among them.

  predicate SlashesFrom(s: string, k: nat) {
    forall i :: k <= i < |s| ==> s[i] == '/'
  }

  lemma {:induction false} StripsTheEnd(s: string)
    ensures var t := StripSlashes(s);
      t <= s && SlashesFrom(s, |t|) && (t != "" ==> t[|t| - 1] != '/')
  {
    if s != "" && s[|s| - 1] == '/' {
      StripsTheEnd(s[..|s| - 1]);
    }
  }

  lemma {:induction false} LastElementIs(s: string)
    ensures var t := LastElement(s);
      |t| <= |s| && t == s[|s| - |t|..] && '/' !in t && (|t| < |s| ==> s[|s| - |t| - 1] == '/')
  {
    if '/' in s {
      var t := LastElement(s);
      LastElementIs(s[1..]);
      assert s == [s[0]] + s[1..];
      assert s[1..][|s| - 1 - |t|..] == s[|s| - |t|..];
    }
  }

  /** The last element is the dot at k. */
  predicate DotAt(name: string, k: nat) {
    k < |name| && name[k] == '.' && (k == 0 || name[k - 1] == '/') && SlashesFrom(name, k + 1)
  }

  /** A name is refused when it is nothing but slashes, or its last element is a single dot. */
  lemma BadPathMeans(name: string)
    ensures BadPath(name) <==> SlashesFrom(name, 0) || exists k :: DotAt(name, k)
  {
    var t := StripSlashes(name);
    StripsTheEnd(name);
    LastElementIs(t);
    if t != "" {
      var k: nat := |t| - 1;
      assert name[k] == t[k];
      assert '/' in "/" by { assert "/"[0] == '/'; }
      if BadPath(name) {
        assert t[k] == LastElement(t)[0];
        assert k > 0 ==> name[k - 1] == t[k - 1];
        assert DotAt(name, k);
      }
      if j :| DotAt(name, j) {
        DotIsLast(name, t, j);
      }
    }
  }

  lemma DotIsLast(name: string, t: string, k: nat)
    requires t != "" && t <= name && t[|t| - 1] != '/' && SlashesFrom(name, |t|)
    requires DotAt(name, k)
    ensures LastElement(t) == "."
  {
    assert name[|t| - 1] == t[|t| - 1];
    assert t == name[..k] + ".";
    LastElementOf(name[..k], ".");
  }

  lemma {:induction false} LastElementOf(a: string, b: string)
    requires '/' !in b && (a == "" || a[|a| - 1] == '/')
    ensures LastElement(a + b) == b
  {
    if a == "" {
      assert a + b == b;
    } else {
      assert (a + b)[|a| - 1] == '/';
      assert (a + b)[1..] == a[1..] + b;
      LastElementOf(a[1..], b);
    }
  }

  // ---- The server ----

  /** One change this client made at a path: what was there and what is there now. */
  datatype Change = Change(was: Option<Node>, now: Option<Node>)

  /**
   * Remote files by path. `fails` says of the n-th operation whether it fails, which
   * changes nothing, and `others` what other clients put or remove just before it.
   * `own` is what this client changed, path by path; `unremoved` the paths whose
   * removal failed.
   */
  class Server {
    var files: map<string, Node>
    var step: nat
    ghost var own: map<string, seq<Change>>
    ghost var unremoved: seq<string>
    const fails: nat -> bool
    const others: nat -> map<string, Option<Node>>
    const posixRename: bool

    constructor (files: map<string, Node>, fails: nat -> bool, others: nat -> map<string, Option<Node>>,
                 posixRename: bool)
      ensures this.files == files && step == 0 && own == map[] && unremoved == []
      ensures this.fails == fails && this.others == others && this.posixRename == posixRename
    {
      this.files, step, own, unremoved := files, 0, map[], [];
      this.fails, this.others, this.posixRename := fails, others, posixRename;
    }

    ghost function NodeAt(path: string): Option<Node>
      reads this`files
    {
      if path in files then Some(files[path]) else None
    }

    ghost predicate HasFile(path: string)
      reads this`files
    {
      NodeAt(path).Some? && NodeAt(path).value.File?
    }

    /** What is at the path when the next operation runs. */
    ghost function Seen(path: string): Option<Node>
      reads this`files, this`step
    {
      if path in others(step) then others(step)[path] else NodeAt(path)
    }

    ghost function Changes(path: string): seq<Change>
      reads this`own
    {
      if path in own then own[path] else []
    }

    /** Nobody else knows this path. */
    ghost predicate Private(path: string) {
      forall n :: path !in others(n)
    }

    /** Nobody else acts on the path between these operations. */
    ghost predicate Quiet(path: string, from: nat, to: nat) {
      forall n :: from <= n < to ==> path !in others(n)
    }

    /** The latest failed removal was of this path and came after the first n. */
    ghost predicate FailedToRemove(path: string, n: nat)
      reads this
    {
      |unremoved| > n && unremoved[|unremoved| - 1] == path
    }

    /** Other clients act, then this client's operation begins. */
    method Turn() returns (ok: bool)
      modifies this`files, this`step
      ensures ok == !fails(old(step)) && step == old(step) + 1
      ensures forall q :: NodeAt(q) == old(Seen(q))
    {
      var acts := others(step);
      ok := !fails(step);
      step := step + 1;
      files := map p | p in files.Keys + acts.Keys && (p in acts ==> acts[p].Some?) ::
                 if p in acts then acts[p].value else files[p];
    }

    /** This client's change. */
    method Put(path: string, node: Option<Node>)
      modifies this`files, this`own
      ensures forall q :: NodeAt(q) == if q == path then node else old(NodeAt(q))
      ensures forall q ::
        Changes(q) == (if q == path then old(Changes(q)) + [Change(old(NodeAt(q)), node)] else old(Changes(q)))
    {
      own := own[path := Changes(path) + [Change(NodeAt(path), node)]];
      files := if node.Some? then files[path := node.value] else files - {path};
    }

    method Lstat(path: string) returns (ok: bool, node: Option<Node>)
      modifies this`files, this`step
      ensures ok == !fails(old(step)) && step == old(step) + 1 && (ok ==> node == old(Seen(path)))
      ensures forall q :: NodeAt(q) == old(Seen(q))
    {
      ok := Turn();
      node := if path in files then Some(files[path]) else None;
    }

    /** Creates an empty file where nothing was. */
    method CreateExclusive(path: string) returns (ok: bool)
      modifies this`files, this`step, this`own
      ensures ok == (!fails(old(step)) && old(Seen(path)).None?) && step == old(step) + 1
      ensures forall q :: NodeAt(q) == if ok && q == path then Some(File([], DEFAULT_MODE)) else old(Seen(q))
      ensures forall q :: q != path || !ok ==> Changes(q) == old(Changes(q))
    {
      ok := Turn();
      ok := ok && path !in files;
      if ok {
        Put(path, Some(File([], DEFAULT_MODE)));
      }
    }

    /** Writes the whole content, or fails and leaves whatever had arrived. */
    method WriteAll(path: string, content: seq<byte>, arrived: seq<byte>) returns (ok: bool)
      requires Private(path) && HasFile(path)
      modifies this`files, this`step, this`own
      ensures ok == !fails(old(step)) && step == old(step) + 1
      ensures forall q ::
        NodeAt(q) == (if q == path then Some(File(if ok then content else arrived, old(files)[path].mode))
                      else old(Seen(q)))
      ensures forall q :: q != path ==> Changes(q) == old(Changes(q))
    {
      ghost var was := NodeAt(path);
      ok := Turn();
      assert NodeAt(path) == was;
      Put(path, Some(File(if ok then content else arrived, files[path].mode)));
    }

    method Chmod(path: string, mode: nat) returns (ok: bool)
      requires Private(path) && HasFile(path)
      modifies this`files, this`step, this`own
      ensures ok == !fails(old(step)) && step == old(step) + 1
      ensures forall q ::
        NodeAt(q) == (if q == path && ok then Some(File(old(files)[path].content, mode)) else old(Seen(q)))
      ensures forall q :: q != path ==> Changes(q) == old(Changes(q))
    {
      ghost var was := NodeAt(path);
      ok := Turn();
      assert NodeAt(path) == was;
      if ok {
        Put(path, Some(File(files[path].content, mode)));
      }
    }

    method Remove(path: string) returns (ok: bool)
      modifies this
      ensures ok == (!fails(old(step)) && old(Seen(path)).Some?) && step == old(step) + 1
      ensures forall q :: NodeAt(q) == if ok && q == path then None else old(Seen(q))
      ensures forall q ::
        Changes(q) == (if ok && q == path then old(Changes(q)) + [Change(old(Seen(q)), None)] else old(Changes(q)))
      ensures unremoved == if fails(old(step)) then old(unremoved) + [path] else old(unremoved)
    {
      ok := Turn();
      unremoved := if ok then unremoved else unremoved + [path];
      ok := ok && path in files;
      if ok {
        Put(path, None);
      }
    }

    /** A plain rename refuses an existing target; the posix-rename extension replaces it unless it is a folder. */
    method Rename(from: string, to: string, replace: bool) returns (ok: bool)
      requires Private(from) && from in files && from != to
      modifies this`files, this`step, this`own
      ensures ok == (!fails(old(step)) && (old(Seen(to)).None? || (replace && !old(Seen(to)).value.Folder?)))
      ensures step == old(step) + 1
      ensures forall q ::
        NodeAt(q) == (if ok && q == to then old(NodeAt(from)) else if ok && q == from then None else old(Seen(q)))
      ensures forall q :: q != from ==>
        Changes(q) == (if ok && q == to then old(Changes(q)) + [Change(old(Seen(q)), old(NodeAt(from)))]
                       else old(Changes(q)))
    {
      ghost var was := NodeAt(from);
      ok := Turn();
      assert NodeAt(from) == was;
      ok := ok && (to !in files || (replace && !files[to].Folder?));
      if ok {
        var moved := files[from];
        Put(from, None);
        Put(to, Some(moved));
      }
    }
  }

  // ---- What an upload may leave ----

  /** The bits a replacement keeps: those of a replaced regular file. */
  function KeptMode(target: Option<Node>): nat {
    if target.Some? && target.value.File? then target.value.mode else DEFAULT_MODE
  }

  /** The name got this node: where nothing was, or in the place of what was there, or after removing that first. */
  ghost predicate Placed(mine: seq<Change>, target: Option<Node>, posixRename: bool, node: Node) {
    if target.None? then mine == [Change(None, Some(node))]
    else if posixRename then |mine| == 1 && mine[0].now == Some(node)
    else |mine| == 2 && mine[0].was.Some? && mine[0].now.None? && mine[1] == Change(None, Some(node))
  }

  /** What the name holds at the end if nobody else acted on it. */
  ghost function LastOf(before: Option<Node>, mine: seq<Change>): Option<Node> {
    if mine == [] then before else mine[|mine| - 1].now
  }

  /** How staging ends on a server that does not fail, in the order of the tests; None is with the whole content. */
  function StagingError(taken: bool, cancelledDuring: bool, fits: bool, cancelledAfter: bool): Option<Outcome> {
    if taken then Some(Failed)
    else if cancelledDuring then Some(Cancelled)
    else if !fits then Some(ShortSource)
    else if cancelledAfter then Some(Cancelled)
    else None
  }

  /** Stages the bytes. The temporary file exists when this succeeds, and may exist when it fails. */
  method Stage(server: Server, temp: string, src: seq<byte>, size: int, arrived: seq<byte>,
               cancelledDuring: bool, cancelledAfter: bool) returns (failed: Option<Outcome>, created: bool)
    requires server.Private(temp)
    modifies server`files, server`step, server`own
    ensures server.step >= old(server.step)
    ensures created <==> !server.fails(old(server.step)) && old(server.NodeAt(temp)).None?
    ensures created ==> server.HasFile(temp)
    ensures !created ==> failed.Some? && server.NodeAt(temp) == old(server.NodeAt(temp))
    ensures forall q :: q != temp ==> server.Changes(q) == old(server.Changes(q))
    ensures forall q :: q != temp && server.Quiet(q, old(server.step), server.step) ==>
      server.NodeAt(q) == old(server.NodeAt(q))
    ensures failed.None? ==>
      0 <= size <= |src| && server.NodeAt(temp) == Some(File(src[..size], DEFAULT_MODE))
    ensures failed.Some? ==> failed.value in {Cancelled, ShortSource, Failed}
    ensures (forall n :: !server.fails(n)) ==>
      failed == StagingError(old(server.NodeAt(temp)).Some?, cancelledDuring, 0 <= size <= |src|, cancelledAfter)
  {
    created := server.CreateExclusive(temp);
    if !created {
      return Some(Failed), false;
    }
    var available := if size <= 0 then [] else src[..Min(size, |src|)];
    if cancelledDuring {
      var _ := server.WriteAll(temp, arrived, arrived);
      return Some(Cancelled), true;
    }
    var wrote := server.WriteAll(temp, available, arrived);
    if !wrote {
      return Some(Failed), true;
    }
    var closed := server.Turn();
    if !closed {
      return Some(Failed), true;
    }
    if |available| != size {
      return Some(ShortSource), true;
    }
    if cancelledAfter {
      return Some(Cancelled), true;
    }
    return None, true;
  }

  /**
   * Since the old state this client changed the name by `mine`, the temporary file in
   * some way and nothing else; if nobody else acted on the name, that is all that
   * happened to it.
   */
  twostate predicate Touched(server: Server, name: string, temp: string, mine: seq<Change>)
    reads server
  {
    old(server.step) <= server.step &&
    server.Changes(name) == old(server.Changes(name)) + mine &&
    (forall q :: q != name && q != temp ==> server.Changes(q) == old(server.Changes(q))) &&
    (server.Quiet(name, old(server.step), server.step) ==>
       server.NodeAt(name) == LastOf(old(server.NodeAt(name)), mine))
  }

  /** What is left of the staged file when placing it ends like this. */
  ghost predicate StagedLeft(outcome: Outcome, temp: string, staged: Node, left: Option<Node>)
    requires staged.File?
  {
    match outcome
    case Done => left.None?
    case KeptAt(at) => at == temp && left.Some? && left.value.File? && left.value.content == staged.content
    case _ => left.Some?
  }

  /** No operation fails, and nobody else acts on the name. */
  ghost predicate Undisturbed(server: Server, name: string, from: nat, to: nat) {
    (forall n :: !server.fails(n)) && server.Quiet(name, from, to)
  }

  /** Renames to a free name, which another client may take first. */
  method PlaceNew(server: Server, name: string, temp: string) returns (outcome: Outcome, ghost mine: seq<Change>)
    requires temp != name && server.Private(temp) && server.HasFile(temp)
    modifies server`files, server`step, server`own
    ensures Touched(server, name, temp, mine)
    ensures old(server.step) < server.step
    ensures StagedLeft(outcome, temp, old(server.files[temp]), server.NodeAt(temp))
    ensures if outcome == Done then mine == [Change(None, Some(old(server.files[temp])))]
            else mine == [] && outcome in {Exists, Failed}
    ensures (forall n :: !server.fails(n)) && old(server.Seen(name)).None? ==> outcome == Done
  {
    var ok := server.Rename(temp, name, false);
    if ok {
      return Done, [Change(None, Some(old(server.files[temp])))];
    }
    var up, node := server.Lstat(name);
    return if up && node.Some? then Exists else Failed, [];
  }

  /** Without posix-rename the old file goes first; a failed rename then leaves the upload as the only copy. */
  method PlaceByRemoving(server: Server, name: string, temp: string)
      returns (outcome: Outcome, ghost mine: seq<Change>)
    requires temp != name && server.Private(temp) && server.HasFile(temp)
    modifies server
    ensures Touched(server, name, temp, mine) && old(server.unremoved) <= server.unremoved
    ensures old(server.step) < server.step
    ensures StagedLeft(outcome, temp, old(server.files[temp]), server.NodeAt(temp))
    ensures match outcome
      case Done => Placed(mine, old(server.Seen(name)), false, old(server.files[temp])) && |mine| == 2
      case KeptAt(_) => mine == [Change(old(server.Seen(name)), None)] && old(server.Seen(name)).Some?
      case Failed => mine == []
      case _ => false
    ensures (forall n :: !server.fails(n)) && old(server.Seen(name)).Some? ==>
      (server.Quiet(name, old(server.step), server.step) ==> outcome == Done)
  {
    ghost var staged, seen := server.files[temp], server.Seen(name);
    var removed := server.Remove(name);
    if !removed {
      return Failed, [];
    }
    assert server.NodeAt(temp) == Some(staged);
    mine := [Change(seen, None)];
    var ok := server.Rename(temp, name, false);
    if !ok {
      return KeptAt(temp), mine;
    }
    return Done, mine + [Change(None, Some(staged))];
  }

  /** Puts the staged file in place; `target` is what Lstat saw at the name. */
  method Place(server: Server, name: string, temp: string, target: Option<Node>)
      returns (outcome: Outcome, ghost mine: seq<Change>)
    requires temp != name && server.Private(temp) && server.HasFile(temp)
    requires server.files[temp].mode == DEFAULT_MODE && (target.Some? ==> !target.value.Folder?)
    modifies server
    ensures Touched(server, name, temp, mine) && old(server.unremoved) <= server.unremoved
    ensures StagedLeft(outcome, temp, old(server.files[temp]), server.NodeAt(temp))
    ensures match outcome
      case Done =>
        Placed(mine, target, server.posixRename, File(old(server.files[temp]).content, KeptMode(target)))
      case KeptAt(_) => target.Some? && !server.posixRename && |mine| == 1 && mine[0].now.None?
      case Exists => target.None? && mine == []
      case Failed => mine == []
      case _ => false
    ensures (forall n :: !server.fails(n)) && old(server.NodeAt(name)) == target ==>
      (server.Quiet(name, old(server.step), server.step) ==> outcome == Done)
  {
    if target.None? {
      ghost var seen := server.Seen(name);
      outcome, mine := PlaceNew(server, name, temp);
      assert server.Quiet(name, old(server.step), server.step) ==> seen == old(server.NodeAt(name));
      return;
    }
    if target.value.File? {
      var ok := server.Chmod(temp, target.value.mode);
      if !ok {
        return Failed, [];
      }
    }
    outcome, mine := PlaceOver(server, name, temp);
  }

  /** Replaces what is at the name, in one step where the server can. */
  method PlaceOver(server: Server, name: string, temp: string) returns (outcome: Outcome, ghost mine: seq<Change>)
    requires temp != name && server.Private(temp) && server.HasFile(temp)
    modifies server
    ensures Touched(server, name, temp, mine) && old(server.unremoved) <= server.unremoved
    ensures old(server.step) < server.step
    ensures StagedLeft(outcome, temp, old(server.files[temp]), server.NodeAt(temp))
    ensures match outcome
      case Done =>
        if server.posixRename then mine == [Change(old(server.Seen(name)), Some(old(server.files[temp])))]
        else |mine| == 2 && mine[0].was.Some? && mine[0].now.None? &&
             mine[1] == Change(None, Some(old(server.files[temp])))
      case KeptAt(_) => !server.posixRename && |mine| == 1 && mine[0].now.None?
      case Failed => mine == []
      case _ => false
    ensures (forall n :: !server.fails(n)) && server.Quiet(name, old(server.step), server.step) ==>
      (old(server.NodeAt(name)).Some? && !old(server.NodeAt(name)).value.Folder? ==> outcome == Done)
  {
    ghost var seen := server.Seen(name);
    if server.posixRename {
      ghost var change := Change(seen, Some(server.files[temp]));
      var ok := server.Rename(temp, name, true);
      assert server.Quiet(name, old(server.step), server.step) ==> seen == old(server.NodeAt(name));
      if !ok {
        return Failed, [];
      }
      return Done, [change];
    }
    outcome, mine := PlaceByRemoving(server, name, temp);
    assert server.Quiet(name, old(server.step), server.step) ==> seen == old(server.NodeAt(name));
  }

  /** Stages, places, and removes the temporary file unless it is the only copy. */
  method StageAndPlace(server: Server, name: string, temp: string, src: seq<byte>, size: int, arrived: seq<byte>,
                       cancelledDuring: bool, cancelledAfter: bool, target: Option<Node>)
      returns (outcome: Outcome, ghost mine: seq<Change>)
    requires temp != name && server.Private(temp) && (target.Some? ==> !target.value.Folder?)
    modifies server
    ensures Touched(server, name, temp, mine)
    ensures match outcome
      case Done =>
        0 <= size <= |src| && server.NodeAt(temp).None? &&
        Placed(mine, target, server.posixRename, File(src[..size], KeptMode(target)))
      case KeptAt(at) =>
        at == temp && target.Some? && !server.posixRename && |mine| == 1 && mine[0].now.None? &&
        0 <= size <= |src| && server.HasFile(temp) && server.NodeAt(temp).value.content == src[..size]
      case Exists => mine == [] && target.None?
      case InvalidPath => false
      case IsFolder => false
      case _ => mine == []
    ensures server.NodeAt(temp).Some? ==>
      old(server.NodeAt(temp)).Some? || outcome.KeptAt? || server.FailedToRemove(temp, |old(server.unremoved)|)
    ensures Undisturbed(server, name, old(server.step), server.step) ==>
      var error := StagingError(old(server.NodeAt(temp)).Some?, cancelledDuring, 0 <= size <= |src|, cancelledAfter);
      (old(server.NodeAt(name)) == target ==> outcome == if error.Some? then error.value else Done)
  {
    hide Server.Seen, Server.Changes, Server.Quiet, Placed;
    mine := [];
    var failed, created := Stage(server, temp, src, size, arrived, cancelledDuring, cancelledAfter);
    if !created {
      return failed.value, [];
    }
    ghost var staged := server.step;
    if failed.Some? {
      outcome := failed.value;
    } else {
      outcome, mine := Place(server, name, temp, target);
    }
    QuietSplits(server, name, old(server.step), staged, server.step);
    ghost var placed := server.step;
    if !outcome.KeptAt? {
      CleanUp(server, name, temp);
    }
    QuietSplits(server, name, old(server.step), placed, server.step);
  }

  /** Tries to remove the temporary file. */
  method CleanUp(server: Server, name: string, temp: string)
    requires temp != name && server.Private(temp)
    modifies server
    ensures Touched(server, name, temp, [])
    ensures server.NodeAt(temp).Some? ==> server.FailedToRemove(temp, |old(server.unremoved)|)
    ensures old(server.NodeAt(temp)).None? ==> server.NodeAt(temp).None?
    ensures |old(server.unremoved)| <= |server.unremoved|
  {
    var _ := server.Remove(temp);
  }

  lemma QuietSplits(server: Server, path: string, from: nat, middle: nat, to: nat)
    requires from <= middle <= to
    ensures server.Quiet(path, from, to) <==> server.Quiet(path, from, middle) && server.Quiet(path, middle, to)
  {
  }

  /**
   * An upload never loses the only copy, whatever other clients do to other paths or
   * to the name itself. On every return this client has changed the name in one of
   * three ways: not at all; to the complete upload, with a replaced file's
   * permission bits; or, only without posix-rename, by removing what was there, and
   * then the upload is complete at the temporary name it reports. A name that Lstat
   * saw free is never overwritten. The temporary file stays in no other case unless
   * the server failed to remove it.
   */
  method Upload(server: Server, name: string, temp: string, src: seq<byte>, size: int, overwrite: bool,
                arrived: seq<byte>, cancelledDuring: bool, cancelledAfter: bool)
      returns (outcome: Outcome, ghost mine: seq<Change>)
    requires temp != name && server.Private(temp)
    modifies server
    ensures Touched(server, name, temp, mine)
    ensures var target := old(server.Seen(name));
      match outcome
      case Done =>
        0 <= size <= |src| && (target.Some? ==> overwrite) &&
        Placed(mine, target, server.posixRename, File(src[..size], KeptMode(target))) && server.NodeAt(temp).None?
      case KeptAt(at) =>
        at == temp && target.Some? && overwrite && !server.posixRename && |mine| == 1 && mine[0].now.None? &&
        0 <= size <= |src| && server.HasFile(temp) && server.NodeAt(temp).value.content == src[..size]
      case Exists => mine == [] && (target.Some? ==> !overwrite)
      case _ => mine == []
    ensures server.NodeAt(temp).Some? ==>
      old(server.NodeAt(temp)).Some? || outcome.KeptAt? || server.FailedToRemove(temp, |old(server.unremoved)|)
    ensures outcome == InvalidPath <==> BadPath(name)
    ensures outcome == Done ==>
      var target := old(server.Seen(name));
      mine != [] && mine[|mine| - 1].now ==
        Some(File(src[..size], if target.Some? && target.value.File? then target.value.mode else 420))
    ensures Undisturbed(server, name, old(server.step), server.step) ==>
      var target := old(server.NodeAt(name));
      outcome ==
        if BadPath(name) then InvalidPath
        else if target.Some? && target.value.Folder? then IsFolder
        else if target.Some? && !overwrite then Exists
        else if old(server.NodeAt(temp)).Some? then Failed
        else if cancelledDuring then Cancelled
        else if size < 0 || |src| < size then ShortSource
        else if cancelledAfter then Cancelled
        else Done
  {
    hide Placed, KeptMode, BadPath, Server.Changes;
    mine := [];
    if BadPath(name) {
      return InvalidPath, [];
    }
    var found, target := server.Lstat(name);
    if !found {
      return Failed, [];
    }
    if target.Some? && target.value.Folder? {
      return IsFolder, [];
    }
    if target.Some? && !overwrite {
      return Exists, [];
    }
    outcome, mine := StageAndPlace(server, name, temp, src, size, arrived, cancelledDuring, cancelledAfter, target);
    if outcome == Done {
      PlacedLast(mine, target, server.posixRename, src[..size]);
    }
  }

  lemma PlacedLast(mine: seq<Change>, target: Option<Node>, posixRename: bool, content: seq<byte>)
    requires Placed(mine, target, posixRename, File(content, KeptMode(target)))
    ensures mine != [] && mine[|mine| - 1].now ==
      Some(File(content, if target.Some? && target.value.File? then target.value.mode else 420))
  {
  }
}
