/** One vault shared by any number of tabs, whose steps interleave freely. */
module VaultTabs {
  import opened Frames
  import V = VaultDocument

  // Each tab's engine holds a document, the browser stores one sealed blob, and a
  // compare-and-set guards every write. Sealing is idealised: a blob determines the
  // password it was sealed under, its key, and the document.

  type Doc = seq<V.Entry>

  datatype Blob = Blob(nonce: nat, key: nat, doc: Doc)

  /** The unlocked session and document of one tab's engine. */
  datatype Engine = Engine(key: nat, doc: Doc)

  datatype Status = Absent | Locked | Unlocked

  /** Where the tab's action in flight waits; Idle when there is none. */
  datatype Action =
    | Idle
    | Creating
    | Unlocking
    | Opening(blob: Blob)
    | Editing(edit: V.Edit)
    | Rekeying(current: nat, next: nat)
    | LockingUp
    | Resetting
    | Clearing
    | Cleared
    | Persisting(blob: Blob)
    | Written(blob: Blob)
    | Failing

  /** The terminal choices a tab's build of the page knows; it refuses to list entries with others. */
  datatype Build = Build(fonts: set<string>, themes: set<string>)

  datatype Tab = Tab(
    status: Status,
    loadedBlob: Option<Blob>,
    engine: Option<Engine>,
    action: Action,
    build: Build
  )

  datatype World = World(storage: Option<Blob>, tabs: seq<Tab>)

  datatype Step =
    | Loads(build: Build)
    | BeginCreate
    | BeginUnlock
    | BeginEdit(edit: V.Edit)
    | BeginRekey(current: nat, next: nat)
    | BeginLock
    | BeginReset
    | Abandons
    | CreatesInEngine(nonce: nat, key: nat)
    | ReadsStorage
    | OpensBlob
    | EditsInEngine(nonce: nat)
    | RekeysInEngine(nonce: nat)
    | LocksEngine
    | Compares(writable: bool)
    | Confirms(done: bool)
    | ComparesToClear
    | ConfirmsClear(done: bool)
    | FailsClosed

  // ---- The engine: clone, seal, then commit ----

  /** The engine after an edit and the blob it seals; nothing changes when any part of it fails. */
  function EngineEdit(e: Option<Engine>, edit: V.Edit, nonce: nat): (Option<Engine>, Option<Blob>) {
    if e.None? then (e, None)
    else
      match edit
      case Upsert(u) =>
        var next := V.Upserted(e.value.doc, u);
        if next.Err? then (e, None)
        else (Some(Engine(e.value.key, next.value)), Some(Blob(nonce, e.value.key, next.value)))
      case Delete(id) =>
        if V.IndexOf(e.value.doc, id) < 0 then (e, None)
        else
          var next := V.Deleted(e.value.doc, id);
          (Some(Engine(e.value.key, next)), Some(Blob(nonce, e.value.key, next)))
  }

  /** Only the password a blob was sealed under opens it. */
  function Unlock(blob: Blob, password: nat): Option<Doc> {
    if blob.key == password then Some(blob.doc) else None
  }

  /** Seals and reopens under the current password first: a mistyped one changes nothing. */
  function EngineRekey(e: Option<Engine>, current: nat, next: nat, nonce: nat): (Option<Engine>, Option<Blob>) {
    if e.None? || Unlock(Blob(nonce, e.value.key, e.value.doc), current).None? then (e, None)
    else (Some(Engine(next, e.value.doc)), Some(Blob(nonce, next, e.value.doc)))
  }

  // ---- What a tab accepts from its engine and its editor ----

  predicate Knows(b: Build, p: V.Prefs) {
    p.fontFamily in b.fonts && p.themeName in b.themes && V.PrefsInRange(p)
  }

  /** Every entry parses in this build, so the engine's list can be shown. */
  predicate Lists(b: Build, doc: Doc) {
    doc == [] || ((doc[0].terminal.Some? ==> Knows(b, doc[0].terminal.value)) && Lists(b, doc[1..]))
  }

  /** The editor's input is checked before it reaches the engine. */
  predicate MaySubmit(b: Build, edit: V.Edit) {
    edit.Upsert? && edit.update.terminal.Some? && edit.update.terminal.value.Some? ==>
      Knows(b, edit.update.terminal.value.value)
  }

  // ---- Steps ----

  predicate Enabled(w: World, i: nat, s: Step) {
    if s.Loads? then i == |w.tabs|
    else
      i < |w.tabs| &&
      var t := w.tabs[i];
      match s
      case BeginCreate => t.action == Idle && t.status == Absent
      case BeginUnlock => t.action == Idle && t.status == Locked
      case BeginEdit(_) => t.action == Idle && t.status == Unlocked
      case BeginRekey(_, _) => t.action == Idle && t.status == Unlocked
      case BeginLock => t.action == Idle && t.status == Unlocked
      case BeginReset => t.action == Idle && t.status == Locked
      case Abandons =>
        t.action.Creating? || t.action.Unlocking? || t.action.Opening? || t.action.Editing? || t.action.Rekeying? ||
        t.action.LockingUp? || t.action.Resetting?
      case CreatesInEngine(_, _) => t.action == Creating
      case ReadsStorage => t.action == Unlocking
      case OpensBlob => t.action.Opening?
      case EditsInEngine(_) => t.action.Editing?
      case RekeysInEngine(_) => t.action.Rekeying?
      case LocksEngine => t.action == LockingUp || t.action == Resetting
      case Compares(_) => t.action.Persisting?
      case Confirms(_) => t.action.Written?
      case ComparesToClear => t.action == Clearing
      case ConfirmsClear(_) => t.action == Cleared
      case FailsClosed => t.action == Failing
      case Loads(_) => false
  }

  /** A sealed result goes on to persist; anything else ends the action with an error. */
  function AfterEngine(t: Tab, result: (Option<Engine>, Option<Blob>)): Tab {
    if result.1.None? || !Lists(t.build, result.1.value.doc) then t.(engine := result.0, action := Idle)
    else t.(engine := result.0, action := Persisting(result.1.value))
  }

  /** The tab after its step, given the stored blob it may read. */
  function TabStep(t: Tab, storage: Option<Blob>, s: Step): Tab {
    match s
    case Loads(_) => t
    case BeginCreate => t.(action := Creating, loadedBlob := None)
    case BeginUnlock => t.(action := Unlocking)
    case BeginEdit(edit) => if MaySubmit(t.build, edit) then t.(action := Editing(edit)) else t
    case BeginRekey(current, next) => t.(action := Rekeying(current, next))
    case BeginLock => t.(action := LockingUp)
    case BeginReset => t.(action := Resetting)
    case Abandons => t.(action := Idle)
    case CreatesInEngine(nonce, key) => t.(engine := Some(Engine(key, [])), action := Persisting(Blob(nonce, key, [])))
    case ReadsStorage =>
      if storage.None? then t.(status := Absent, action := Idle) else t.(action := Opening(storage.value))
    case OpensBlob =>
      if !t.action.Opening? then t
      else
        var blob := t.action.blob;
        var shown := t.(engine := Some(Engine(blob.key, blob.doc)), action := Idle);
        if Lists(t.build, blob.doc) then shown.(loadedBlob := Some(blob), status := Unlocked) else shown
    case EditsInEngine(nonce) =>
      if t.action.Editing? then AfterEngine(t, EngineEdit(t.engine, t.action.edit, nonce)) else t
    case RekeysInEngine(nonce) =>
      if t.action.Rekeying? then AfterEngine(t, EngineRekey(t.engine, t.action.current, t.action.next, nonce)) else t
    case LocksEngine => t.(engine := None, status := Locked, action := if t.action == Resetting then Clearing else Idle)
    case Compares(writable) =>
      if t.action.Persisting? && storage == t.loadedBlob && writable then t.(action := Written(t.action.blob))
      else t.(action := Failing)
    case Confirms(done) =>
      if t.action.Written? && done then t.(loadedBlob := Some(t.action.blob), status := Unlocked, action := Idle)
      else t.(action := Failing)
    case ComparesToClear => if storage == t.loadedBlob then t.(action := Cleared) else t.(action := Idle)
    case ConfirmsClear(done) =>
      if done then t.(loadedBlob := None, status := Absent, action := Idle) else t.(action := Idle)
    case FailsClosed => t.(engine := None, status := if storage.Some? then Locked else Absent, action := Idle)
  }

  /** The two writes of storage, each only when it still holds what the tab loaded. */
  function StorageStep(t: Tab, storage: Option<Blob>, s: Step): Option<Blob> {
    if s.Compares? && t.action.Persisting? && storage == t.loadedBlob && s.writable then Some(t.action.blob)
    else if s.ComparesToClear? && storage == t.loadedBlob then None
    else storage
  }

  function LoadedTab(storage: Option<Blob>, build: Build): Tab {
    Tab(if storage.Some? then Locked else Absent, storage, None, Idle, build)
  }

  function Apply(w: World, i: nat, s: Step): World
    requires Enabled(w, i, s)
  {
    if s.Loads? then w.(tabs := w.tabs + [LoadedTab(w.storage, s.build)])
    else World(StorageStep(w.tabs[i], w.storage, s), w.tabs[i := TabStep(w.tabs[i], w.storage, s)])
  }

  // ---- The invariant ----

  /** The engine holds exactly the document and key of the blob the tab loaded. */
  ghost predicate InStep(t: Tab) {
    t.loadedBlob.Some? && t.engine == Some(Engine(t.loadedBlob.value.key, t.loadedBlob.value.doc)) &&
    Lists(t.build, t.loadedBlob.value.doc)
  }

  /** One allowed change of the stored value: create, one edit, a new password, or reset. */
  ghost predicate Link(from: Option<Blob>, to: Option<Blob>) {
    to.None? ||
    (from.None? && to.value.doc == []) ||
    (from.Some? && to.value.doc == from.value.doc) ||
    (from.Some? && to.value.key == from.value.key && exists edit :: to.value.doc == V.Edited(from.value.doc, edit))
  }

  ghost predicate TabOk(t: Tab) {
    match t.action
    case Idle => t.status == Unlocked ==> InStep(t)
    case Editing(edit) => t.status == Unlocked && InStep(t) && MaySubmit(t.build, edit)
    case Rekeying(_, _) => t.status == Unlocked && InStep(t)
    case Persisting(blob) =>
      Link(t.loadedBlob, Some(blob)) && t.engine == Some(Engine(blob.key, blob.doc)) && Lists(t.build, blob.doc)
    case Written(blob) => t.engine == Some(Engine(blob.key, blob.doc)) && Lists(t.build, blob.doc)
    case Creating => t.status == Absent && t.loadedBlob.None?
    case Unlocking => t.status == Locked
    case Opening(_) => t.status == Locked
    case LockingUp => t.status == Unlocked && InStep(t)
    case Resetting => t.status == Locked
    case Clearing => t.status == Locked && t.engine.None?
    case Cleared => t.status == Locked && t.engine.None?
    case Failing => true
  }

  ghost predicate Inv(w: World) {
    forall i :: 0 <= i < |w.tabs| ==> TabOk(w.tabs[i])
  }

  lemma {:induction false} ReplacedLists(b: Build, doc: Doc, at: nat, e: V.Entry)
    requires Lists(b, doc) && at < |doc| && (e.terminal.Some? ==> Knows(b, e.terminal.value))
    ensures Lists(b, doc[at := e])
  {
    hide Knows;
    if at == 0 {
      assert doc[0 := e][1..] == doc[1..];
    } else {
      assert doc[at := e][1..] == doc[1..][at - 1 := e];
      ReplacedLists(b, doc[1..], at - 1, e);
    }
  }

  lemma {:induction false} AppendedLists(b: Build, doc: Doc, e: V.Entry)
    requires Lists(b, doc) && (e.terminal.Some? ==> Knows(b, e.terminal.value))
    ensures Lists(b, doc + [e])
  {
    hide Knows;
    if doc == [] {
      assert doc + [e] == [e];
    } else {
      assert (doc + [e])[1..] == doc[1..] + [e];
      AppendedLists(b, doc[1..], e);
    }
  }

  lemma {:induction false} RemovedLists(b: Build, doc: Doc, at: nat)
    requires Lists(b, doc) && at < |doc|
    ensures Lists(b, doc[..at] + doc[at + 1..])
  {
    hide Knows;
    if at == 0 {
      assert doc[..0] + doc[1..] == doc[1..];
    } else {
      var left := doc[..at] + doc[at + 1..];
      assert left[1..] == doc[1..][..at - 1] + doc[1..][at..];
      RemovedLists(b, doc[1..], at - 1);
    }
  }

  lemma {:induction false} MemberIsKnown(b: Build, doc: Doc, at: nat)
    requires Lists(b, doc) && at < |doc|
    ensures doc[at].terminal.Some? ==> Knows(b, doc[at].terminal.value)
  {
    hide Knows;
    if at > 0 {
      MemberIsKnown(b, doc[1..], at - 1);
    }
  }

  /** An accepted edit of a listable document with checked input is listable: no save fails half way. */
  lemma EditStaysListed(b: Build, doc: Doc, edit: V.Edit)
    requires Lists(b, doc) && MaySubmit(b, edit)
    ensures Lists(b, V.Edited(doc, edit))
  {
    hide Lists, Knows, V.TrimmedUpdate, V.FieldError, V.PrefsInRange, V.IndexOf;
    match edit
    case Upsert(update) =>
      if V.Upserted(doc, update).Ok? {
        var u := V.TrimmedUpdate(update);
        V.TrimKeepsTheRest(update);
        var at := V.IndexOf(doc, u.id);
        if at >= 0 {
          MemberIsKnown(b, doc, at);
          ReplacedLists(b, doc, at, V.Merged(u, Some(doc[at])));
        } else {
          AppendedLists(b, doc, V.Merged(u, None));
        }
      }
    case Delete(id) =>
      if V.IndexOf(doc, id) >= 0 {
        RemovedLists(b, doc, V.IndexOf(doc, id));
      }
  }

  /** What the engine seals is one edit of the document in the loaded blob. */
  lemma EngineEditLinks(t: Tab, edit: V.Edit, nonce: nat)
    requires InStep(t) && MaySubmit(t.build, edit)
    ensures var (engine, blob) := EngineEdit(t.engine, edit, nonce);
      if blob.None? then engine == t.engine
      else
        engine == Some(Engine(blob.value.key, blob.value.doc)) && Link(t.loadedBlob, blob) &&
        Lists(t.build, blob.value.doc)
  {
    hide MaySubmit, V.Upserted, V.Deleted;
    EditStaysListed(t.build, t.loadedBlob.value.doc, edit);
    var (engine, blob) := EngineEdit(t.engine, edit, nonce);
    if blob.Some? {
      assert blob.value.doc == V.Edited(t.loadedBlob.value.doc, edit);
    }
  }

  lemma TabStepKeeps(t: Tab, storage: Option<Blob>, s: Step)
    requires TabOk(t) && Enabled(World(storage, [t]), 0, s)
    ensures TabOk(TabStep(t, storage, s))
  {
    hide Lists, MaySubmit, EngineEdit, V.Edited;
    if s.EditsInEngine? {
      EngineEditLinks(t, t.action.edit, s.nonce);
    } else if s.CreatesInEngine? {
      EmptyLists(t.build);
    }
  }

  lemma EmptyLists(b: Build)
    ensures Lists(b, [])
  {
  }

  lemma StepKeepsInv(w: World, i: nat, s: Step)
    requires Inv(w) && Enabled(w, i, s)
    ensures Inv(Apply(w, i, s))
  {
    hide TabOk, TabStep;
    if s.Loads? {
      LoadedIsOk(w.storage, s.build);
    } else {
      TabStepKeeps(w.tabs[i], w.storage, s);
    }
  }

  lemma LoadedIsOk(storage: Option<Blob>, build: Build)
    ensures TabOk(LoadedTab(storage, build))
  {
  }

  // ---- Runs ----

  datatype Move = Move(tab: nat, step: Step)

  ghost predicate Possible(w: World, moves: seq<Move>)
    decreases |moves|
  {
    moves == [] ||
    (Enabled(w, moves[0].tab, moves[0].step) && Possible(Apply(w, moves[0].tab, moves[0].step), moves[1..]))
  }

  function After(w: World, moves: seq<Move>): World
    requires Possible(w, moves)
    decreases |moves|
  {
    if moves == [] then w else After(Apply(w, moves[0].tab, moves[0].step), moves[1..])
  }

  /** The stored values of a run, first to last. */
  function History(w: World, moves: seq<Move>): seq<Option<Blob>>
    requires Possible(w, moves)
    decreases |moves|
  {
    if moves == [] then [w.storage] else [w.storage] + History(Apply(w, moves[0].tab, moves[0].step), moves[1..])
  }

  ghost predicate Chain(values: seq<Option<Blob>>) {
    forall k :: 0 <= k < |values| - 1 ==> values[k + 1] == values[k] || Link(values[k], values[k + 1])
  }

  lemma {:induction false} RunKeepsInv(w: World, moves: seq<Move>)
    requires Inv(w) && Possible(w, moves)
    ensures Inv(After(w, moves))
    decreases |moves|
  {
    hide Inv, Apply, Enabled;
    if moves != [] {
      StepKeepsInv(w, moves[0].tab, moves[0].step);
      RunKeepsInv(Apply(w, moves[0].tab, moves[0].step), moves[1..]);
    }
  }

  /** A write replaces exactly the value its tab's document was derived from, by one edit of it. */
  lemma StorageLinks(w: World, i: nat, s: Step)
    requires Inv(w) && Enabled(w, i, s)
    ensures Apply(w, i, s).storage == w.storage || Link(w.storage, Apply(w, i, s).storage)
  {
    hide Link, TabStep;
    if !s.Loads? {
      assert TabOk(w.tabs[i]);
      ClearingLinks(w.storage);
    }
  }

  lemma ClearingLinks(from: Option<Blob>)
    ensures Link(from, None)
  {
  }

  lemma {:induction false} HistoryChains(w: World, moves: seq<Move>)
    requires Inv(w) && Possible(w, moves)
    ensures History(w, moves)[0] == w.storage && Chain(History(w, moves))
    decreases |moves|
  {
    hide Inv, Apply, Enabled, Link;
    if moves != [] {
      var next := Apply(w, moves[0].tab, moves[0].step);
      StepKeepsInv(w, moves[0].tab, moves[0].step);
      StorageLinks(w, moves[0].tab, moves[0].step);
      HistoryChains(next, moves[1..]);
      var all, rest := History(w, moves), History(next, moves[1..]);
      forall k | 0 <= k < |all| - 1 ensures all[k + 1] == all[k] || Link(all[k], all[k + 1]) {
        assert all[k + 1] == rest[k];
        if k > 0 {
          assert all[k] == rest[k - 1];
        }
      }
    }
  }

  /**
   * No lost update: for any tabs and interleaving, started from any stored blob,
   * the stored values form a chain of creations, single edits, password changes
   * and resets, each made on the value it replaces; and an idle unlocked tab's
   * engine holds exactly the document sealed in the blob it loaded.
   */
  lemma NoLostUpdate(storage: Option<Blob>, moves: seq<Move>)
    requires Possible(World(storage, []), moves)
    ensures Chain(History(World(storage, []), moves))
    ensures forall i :: 0 <= i < |After(World(storage, []), moves).tabs| ==>
      var t := After(World(storage, []), moves).tabs[i];
      t.action == Idle && t.status == Unlocked ==> InStep(t)
  {
    hide Possible, History, After, Chain, InStep;
    var w := World(storage, []);
    HistoryChains(w, moves);
    RunKeepsInv(w, moves);
    forall i | 0 <= i < |After(w, moves).tabs|
      ensures After(w, moves).tabs[i].action == Idle && After(w, moves).tabs[i].status == Unlocked ==>
        InStep(After(w, moves).tabs[i])
    {
      assert TabOk(After(w, moves).tabs[i]);
    }
  }

  /** The comparison of a save finds another value or no room, or its transaction does not confirm. */
  predicate SaveFails(w: World, i: nat, s: Step)
    requires Enabled(w, i, s)
  {
    (s.Compares? && (w.storage != w.tabs[i].loadedBlob || !s.writable)) || (s.Confirms? && !s.done)
  }

  /** The tab is about to empty its engine, or its engine is empty and it does not show the vault. */
  predicate LockedOut(t: Tab) {
    t.action == Failing || (t.engine.None? && t.status != Unlocked)
  }

  predicate Reopens(s: Step) {
    s.OpensBlob? || s.CreatesInEngine?
  }

  lemma LockedOutStays(w: World, i: nat, m: Move)
    requires Inv(w) && i < |w.tabs| && LockedOut(w.tabs[i]) && Enabled(w, m.tab, m.step)
    requires m.tab == i ==> !Reopens(m.step)
    ensures i < |Apply(w, m.tab, m.step).tabs| && LockedOut(Apply(w, m.tab, m.step).tabs[i])
    ensures m.tab == i ==> !m.step.Compares?
  {
    hide Link, Lists, MaySubmit;
    assert TabOk(w.tabs[i]);
  }

  lemma {:induction false} LockedOutThroughout(w: World, i: nat, moves: seq<Move>)
    requires Inv(w) && i < |w.tabs| && LockedOut(w.tabs[i]) && Possible(w, moves)
    requires forall m :: m in moves && m.tab == i ==> !Reopens(m.step)
    ensures i < |After(w, moves).tabs| && LockedOut(After(w, moves).tabs[i])
    ensures forall m :: m in moves && m.tab == i ==> !m.step.Compares?
    decreases |moves|
  {
    hide Inv, Apply, Enabled, LockedOut, Reopens;
    if moves != [] {
      StepKeepsInv(w, moves[0].tab, moves[0].step);
      LockedOutStays(w, i, moves[0]);
      LockedOutThroughout(Apply(w, moves[0].tab, moves[0].step), i, moves[1..]);
      assert moves == [moves[0]] + moves[1..];
    }
  }

  /**
   * A failed save locks its tab, in every run: from then on, whatever any tab does,
   * the tab is emptying its engine, or its engine is empty and it does not show the
   * vault, and it attempts no further save, until it opens or creates a vault again.
   * A comparison that fails writes nothing.
   */
  lemma FailedSaveLocksUntilReopened(storage: Option<Blob>, before: seq<Move>, w: World, i: nat, s: Step,
                                     later: seq<Move>)
    requires Possible(World(storage, []), before) && w == After(World(storage, []), before)
    requires Enabled(w, i, s) && SaveFails(w, i, s) && Possible(Apply(w, i, s), later)
    requires forall m :: m in later && m.tab == i ==> !Reopens(m.step)
    ensures s.Compares? ==> Apply(w, i, s).storage == w.storage
    ensures i < |After(Apply(w, i, s), later).tabs| && LockedOut(After(Apply(w, i, s), later).tabs[i])
    ensures forall m :: m in later && m.tab == i ==> !m.step.Compares?
  {
    hide Possible, After, Reopens;
    RunKeepsInv(World(storage, []), before);
    StepKeepsInv(w, i, s);
    LockedOutThroughout(Apply(w, i, s), i, later);
  }

  // ---- The stored key and the engine, updated in place ----

  datatype SaveError = Stale | StorageFull

  class VaultStore {
    var value: Option<Blob>

    constructor (initial: Option<Blob>)
      ensures value == initial
    {
      value := initial;
    }

    /** Compares and writes in one turn; `writable` is whether the browser has room. */
    method SaveVaultBlob(blob: Blob, expected: Option<Blob>, writable: bool) returns (error: Option<SaveError>)
      modifies this
      ensures error == if old(value) != expected then Some(Stale) else if !writable then Some(StorageFull) else None
      ensures value == if error.None? then Some(blob) else old(value)
    {
      if value != expected {
        return Some(Stale);
      }
      if !writable {
        return Some(StorageFull);
      }
      value := Some(blob);
      return None;
    }

    /** None as `expected` clears without comparing. */
    method ClearVaultBlob(expected: Option<Option<Blob>>) returns (error: Option<SaveError>)
      modifies this
      ensures error == if expected.Some? && old(value) != expected.value then Some(Stale) else None
      ensures value == if error.None? then None else old(value)
    {
      if expected.Some? && value != expected.value {
        return Some(Stale);
      }
      value := None;
      return None;
    }
  }

  /** The update passes every test, or the id to delete is there. */
  ghost predicate Takes(doc: Doc, edit: V.Edit) {
    (edit.Upsert? ==> V.Upserted(doc, edit.update).Ok?) && (edit.Delete? ==> V.Lookup(doc, edit.id).Some?)
  }

  class VaultEngine {
    var unlocked: Option<Engine>

    constructor ()
      ensures unlocked.None?
    {
      unlocked := None;
    }

    /** Edits a clone, seals it, and only then makes it the document; `fits` is whether Seal accepts it. */
    method Edit(edit: V.Edit, nonce: nat, fits: bool) returns (blob: Option<Blob>)
      modifies this
      ensures fits ==> (unlocked, blob) == EngineEdit(old(unlocked), edit, nonce)
      ensures blob.Some? <==> fits && old(unlocked).Some? && Takes(old(unlocked).value.doc, edit)
      ensures blob.Some? ==>
        var doc := V.Edited(old(unlocked).value.doc, edit);
        blob.value == Blob(nonce, old(unlocked).value.key, doc) && unlocked == Some(Engine(blob.value.key, doc))
      ensures blob.None? ==> unlocked == old(unlocked)
    {
      if unlocked.Some? && edit.Delete? {
        V.IndexFinds(unlocked.value.doc, edit.id);
      }
      if unlocked.None? {
        return None;
      }
      var document := new V.Document();
      document.entries := unlocked.value.doc;
      var next := document.Clone();
      match edit {
        case Upsert(u) =>
          var error := next.Upsert(u);
          if error.Some? {
            return None;
          }
        case Delete(id) =>
          var found := next.Delete(id);
          if !found {
            return None;
          }
      }
      if !fits {
        return None;
      }
      blob := Some(Blob(nonce, unlocked.value.key, next.entries));
      unlocked := Some(Engine(unlocked.value.key, next.entries));
    }

    /**
     * Seals under the old password, reopens with the one that was entered, and only
     * then seals under the new one. `fits` is whether Seal accepts both blobs.
     */
    method ChangePassword(current: nat, next: nat, nonce: nat, fits: bool) returns (blob: Option<Blob>)
      modifies this
      ensures fits ==> (unlocked, blob) == EngineRekey(old(unlocked), current, next, nonce)
      ensures blob.Some? <==> fits && old(unlocked).Some? && old(unlocked).value.key == current
      ensures blob.None? ==> unlocked == old(unlocked)
      ensures blob.Some? ==>
        (forall p :: Unlock(blob.value, p) == if p == next then Some(old(unlocked).value.doc) else None)
    {
      if unlocked.None? || !fits {
        return None;
      }
      var probe := Blob(nonce, unlocked.value.key, unlocked.value.doc);
      if Unlock(probe, current).None? {
        return None;
      }
      blob := Some(Blob(nonce, next, unlocked.value.doc));
      unlocked := Some(Engine(next, unlocked.value.doc));
    }

    method Lock()
      modifies this
      ensures unlocked.None?
    {
      unlocked := None;
    }
  }
}
