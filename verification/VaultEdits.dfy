/** What an edit leaves of a document, field by field, and that the edit asked for is the edit saved. */
module VaultEdits {
  import opened Frames
  import opened Json
  import opened Trimming
  import V = VaultDocument
  import opened VaultTabs

  // ---- Fields ----

  /** The white space that is trimmed. */
  const BLANKS: string :=
    "\t\n\U{b}\U{c}\r \U{85}\U{a0}\U{1680}\U{2000}\U{2001}\U{2002}\U{2003}\U{2004}\U{2005}\U{2006}\U{2007}" +
    "\U{2008}\U{2009}\U{200a}\U{2028}\U{2029}\U{202f}\U{205f}\U{3000}"

  lemma Blanks(c: char)
    ensures IsSpace(c) <==> c in BLANKS
  {
    var n := c as int;
    if IsSpace(c) {
      var k := if n <= 0x0d then n - 9 else if n == 0x20 then 5 else if n == 0x85 then 6 else if n == 0xa0 then 7
               else if n == 0x1680 then 8 else if n <= 0x200a then n - 0x2000 + 9 else if n == 0x2028 then 20
               else if n == 0x2029 then 21 else if n == 0x202f then 22 else if n == 0x205f then 23 else 24;
      assert BLANKS[k] == c;
    }
  }

  /** Lengths count one to four bytes a character. */
  lemma BytesOfText(s: string, c: char)
    ensures Utf8Length([]) == 0
    ensures Utf8Length(s + [c]) == Utf8Length(s) +
      if c <= '\U{7f}' then 1 else if c <= '\U{7ff}' then 2 else if c <= '\U{ffff}' then 3 else 4
  {
    Utf8Appends(s, [c]);
    assert [c][1..] == [];
  }

  /** A line height is a whole number of twentieths between one and two, up to a rounding error. */
  lemma PrefsMean(p: V.Prefs)
    ensures V.PrefsInRange(p) <==>
      (8 <= p.fontSize <= 32 && 1.0 <= p.lineHeight <= 2.0 &&
       exists k: int :: -0.000000001 <= p.lineHeight * 20.0 - NumberOf(k) <= 0.000000001)
  {
    var steps := p.lineHeight * 20.0;
    var nearest := (steps + 0.5).Floor;
    assert NumberOf(nearest) == nearest as real;
    if k: int :| -0.000000001 <= steps - NumberOf(k) <= 0.000000001 {
      assert k == nearest;
    }
  }

  function NumberOf(k: int): real {
    k as real
  }

  // ---- One edit of a document ----

  /** The first entry with this id is e. */
  ghost predicate IsAt(entries: Doc, at: nat, id: string) {
    at < |entries| && entries[at].id == id && forall j :: 0 <= j < at ==> entries[j].id != id
  }

  ghost predicate IsKnown(entries: Doc, id: string) {
    exists e :: e in entries && e.id == id
  }

  lemma {:induction false} FindsFirst(entries: Doc, id: string)
    ensures var at := V.IndexOf(entries, id);
      if at < 0 then !IsKnown(entries, id)
      else IsAt(entries, at, id) && IsKnown(entries, id) && entries[at] in entries
    ensures V.Lookup(entries, id) ==
      if V.IndexOf(entries, id) < 0 then None else Some(entries[V.IndexOf(entries, id)])
  {
    if entries != [] {
      FindsFirst(entries[1..], id);
      assert entries == [entries[0]] + entries[1..];
      var at := V.IndexOf(entries, id);
      if at > 0 {
        forall j | 0 <= j < at ensures entries[j].id != id {
          if j > 0 {
            assert entries[j] == entries[1..][j - 1];
          }
        }
      }
    }
  }

  /** The one refusal an update meets, in the order of the tests; None is none. `known` is whether the id is there. */
  function Refusal(u: V.Update, known: Option<V.Entry>, count: nat): Option<V.EntryError> {
    var terminal := if u.terminal.Some? then u.terminal.value else if known.Some? then known.value.terminal else None;
    if Trim(u.id) == "" then Some(V.MissingId)
    else if Utf8Length(Trim(u.id)) > 128 then Some(V.IdTooLong)
    else if Trim(u.nickname) == "" then Some(V.MissingNickname)
    else if Utf8Length(Trim(u.nickname)) > 128 then Some(V.NicknameTooLong)
    else if Trim(u.host) == "" then Some(V.MissingHost)
    else if Utf8Length(Trim(u.host)) > 1024 then Some(V.HostTooLong)
    else if u.port < 1 || 65535 < u.port then Some(V.PortOutOfRange)
    else if Utf8Length(Trim(u.username)) > 256 then Some(V.UsernameTooLong)
    else if u.password.Some? && Utf8Length(u.password.value) > 4096 then Some(V.PasswordTooLong)
    else if terminal.Some? && !V.PrefsInRange(terminal.value) then Some(V.PreferencesOutOfRange)
    else if known.None? && count >= 256 then Some(V.TooManyEntries)
    else None
  }

  /**
   * The entry an accepted update leaves. The texts are the trimmed ones; a field that is
   * absent keeps what was saved, one that is there replaces or clears it, and without a
   * username there is no password.
   */
  ghost predicate Leaves(u: V.Update, known: Option<V.Entry>, e: V.Entry) {
    e.id == Trim(u.id) && e.nickname == Trim(u.nickname) && e.host == Trim(u.host) && e.port == u.port &&
    e.username == Trim(u.username) &&
    (e.username == "" ==> e.password == "") &&
    (e.username != "" && u.password.Some? ==> e.password == u.password.value) &&
    (e.username != "" && u.password.None? ==> e.password == if known.Some? then known.value.password else "") &&
    (u.terminal.Some? ==> e.terminal == u.terminal.value) &&
    (u.terminal.None? ==> e.terminal == if known.Some? then known.value.terminal else None)
  }

  /** The entry that is found under an id is the first with that id. */
  lemma LookupIsFirst(entries: Doc, id: string)
    ensures match V.Lookup(entries, id)
      case None => !IsKnown(entries, id)
      case Some(e) => exists at: nat :: IsAt(entries, at, id) && entries[at] == e
  {
    hide V.IndexOf, V.Lookup, IsAt;
    FindsFirst(entries, id);
  }

  /**
   * An update is refused by the first test it fails, with nothing changed. Otherwise its
   * entry stands where the id was, or at the end, and every other entry where it was.
   */
  lemma UpsertAnswers(entries: Doc, u: V.Update)
    ensures var id := Trim(u.id);
      var known := V.Lookup(entries, id);
      var refusal := Refusal(u, known, |entries|);
      match V.Upserted(entries, u)
      case Err(error) => refusal == Some(error)
      case Ok(after) =>
        refusal == None &&
        exists at: nat ::
          at < |after| && Leaves(u, known, after[at]) &&
          if known.Some? then IsAt(entries, at, id) && after == entries[at := after[at]]
          else at == |entries| && after == entries + [after[at]]
  {
    hide Trim, Utf8Length, V.PrefsInRange, V.IndexOf, IsAt, V.Lookup;
    var id := Trim(u.id);
    FindsFirst(entries, id);
    var at := V.IndexOf(entries, id);
    var result := V.Upserted(entries, u);
    if result.Ok? {
      var k: nat := if at >= 0 then at else |entries|;
      assert Leaves(u, V.Lookup(entries, id), result.value[k]);
    }
  }

  /** Delete takes out the first entry with the id; without one it changes nothing. */
  lemma DeleteAnswers(entries: Doc, id: string)
    ensures if IsKnown(entries, id) then
              exists at: nat :: IsAt(entries, at, id) && V.Deleted(entries, id) == entries[..at] + entries[at + 1..]
            else V.Deleted(entries, id) == entries
  {
    hide V.IndexOf, IsAt;
    FindsFirst(entries, id);
  }

  /** What leaves the engine of each entry, in order; and the password it hands to a connection. */
  lemma {:induction false} ListShows(entries: Doc, i: nat)
    requires i < |entries|
    ensures |V.RedactAll(entries)| == |entries|
    ensures var e := entries[i];
      V.RedactAll(entries)[i] ==
        V.Redacted.Redacted(e.id, e.nickname, e.host, e.port, e.username, |e.password| > 0, e.terminal) &&
      (IsAt(entries, i, e.id) ==>
        V.PasswordFor(entries, e.id) == if e.password == "" then None else Some(e.password))
  {
    hide IsAt;
    RedactsOneByOne(entries, i);
    FindsFirst(entries, entries[i].id);
    if IsAt(entries, i, entries[i].id) {
      FirstIsUnique(entries, i, V.IndexOf(entries, entries[i].id), entries[i].id);
    }
  }

  lemma FirstIsUnique(entries: Doc, i: nat, j: int, id: string)
    requires IsAt(entries, i, id) && j >= 0 && IsAt(entries, j, id)
    ensures i == j
  {
  }

  lemma {:induction false} RedactsOneByOne(entries: Doc, i: nat)
    requires i < |entries|
    ensures |V.RedactAll(entries)| == |entries| && V.RedactAll(entries)[i] == V.Redact(entries[i])
  {
    if |entries| > 1 {
      RedactsOneByOne(entries[1..], if i > 0 then i - 1 else 0);
    }
  }

  /** No password is found under an id the document does not have. */
  lemma NoPasswordForOthers(entries: Doc, id: string)
    requires !IsKnown(entries, id)
    ensures V.PasswordFor(entries, id) == None
  {
    FindsFirst(entries, id);
  }

  // ---- The engine seals the edit it was asked for ----

  /** The document takes this edit. */
  ghost predicate Accepted(doc: Doc, edit: V.Edit) {
    if edit.Upsert? then Refusal(edit.update, V.Lookup(doc, Trim(edit.update.id)), |doc|).None?
    else IsKnown(doc, edit.id)
  }

  lemma AcceptedIs(doc: Doc, edit: V.Edit)
    ensures edit.Upsert? ==> (Accepted(doc, edit) <==> V.Upserted(doc, edit.update).Ok?)
    ensures edit.Delete? ==> (Accepted(doc, edit) <==> V.IndexOf(doc, edit.id) >= 0)
  {
    hide Refusal, V.Lookup, IsKnown, V.Upserted, V.IndexOf;
    match edit
    case Upsert(u) => UpsertAnswers(doc, u);
    case Delete(id) => FindsFirst(doc, id);
  }

  /**
   * An edit is sealed if and only if the engine is unlocked and the document takes it.
   * What is sealed, and what the engine then holds, is the document with that edit, under
   * the same key; otherwise the engine is as it was.
   */
  lemma SealsTheEdit(e: Option<Engine>, edit: V.Edit, nonce: nat)
    ensures var (after, blob) := EngineEdit(e, edit, nonce);
      (blob.Some? <==> e.Some? && Accepted(e.value.doc, edit)) &&
      if blob.Some? then
        var doc := V.Edited(e.value.doc, edit);
        blob == Some(Blob(nonce, e.value.key, doc)) && after == Some(Engine(e.value.key, doc))
      else after == e
  {
    hide Accepted, V.Upserted, V.Deleted, V.IndexOf;
    if e.Some? {
      AcceptedIs(e.value.doc, edit);
    }
  }

  /** A new password seals the same document, once the present one has been entered. */
  lemma SealsUnderTheNext(e: Option<Engine>, current: nat, next: nat, nonce: nat)
    ensures EngineRekey(e, current, next, nonce) ==
      if e.Some? && e.value.key == current
      then (Some(Engine(next, e.value.doc)), Some(Blob(nonce, next, e.value.doc)))
      else (e, None)
  {
  }

  // ---- Over runs: the edit asked for is the edit saved ----

  predicate Begins(s: Step) {
    s.BeginCreate? || s.BeginUnlock? || s.BeginEdit? || s.BeginRekey? || s.BeginLock? || s.BeginReset?
  }

  /** The tab is on its way with this edit of what it loaded, or done with it. */
  ghost predicate Carries(t: Tab, edit: V.Edit) {
    match t.action
    case Editing(asked) => asked == edit && InStep(t)
    case Persisting(blob) =>
      t.loadedBlob.Some? && Accepted(t.loadedBlob.value.doc, edit) && blob.key == t.loadedBlob.value.key &&
      blob.doc == V.Edited(t.loadedBlob.value.doc, edit)
    case Written(_) => true
    case Idle => true
    case Failing => true
    case _ => false
  }

  lemma StepCarries(t: Tab, storage: Option<Blob>, s: Step, edit: V.Edit)
    requires Enabled(World(storage, [t]), 0, s) && Carries(t, edit) && !Begins(s)
    ensures Carries(TabStep(t, storage, s), edit)
  {
    hide Lists, MaySubmit, EngineEdit, Accepted, V.Edited;
    if s.EditsInEngine? {
      SealsTheEdit(t.engine, edit, s.nonce);
    }
  }

  lemma {:induction false} RunCarries(w: World, moves: seq<Move>, i: nat, edit: V.Edit)
    requires Possible(w, moves) && i < |w.tabs| && Carries(w.tabs[i], edit)
    requires forall m :: m in moves && m.tab == i ==> !Begins(m.step)
    ensures i < |After(w, moves).tabs| && Carries(After(w, moves).tabs[i], edit)
    decreases |moves|
  {
    hide Carries, Enabled, TabStep, StorageStep, Begins;
    if moves != [] {
      var m := moves[0];
      assert m in moves;
      MoveCarries(w, m, i, edit);
      RunCarries(Apply(w, m.tab, m.step), moves[1..], i, edit);
    }
  }

  lemma MoveCarries(w: World, m: Move, i: nat, edit: V.Edit)
    requires Enabled(w, m.tab, m.step) && i < |w.tabs| && Carries(w.tabs[i], edit)
    requires m.tab == i ==> !Begins(m.step)
    ensures i < |Apply(w, m.tab, m.step).tabs| && Carries(Apply(w, m.tab, m.step).tabs[i], edit)
  {
    hide Carries, TabStep, StorageStep, Begins;
    if m.tab == i && !m.step.Loads? {
      StepCarries(w.tabs[i], w.storage, m.step, edit);
    }
  }

  /**
   * In every run, what a tab writes after it was asked for an edit is that edit of the
   * value it replaces: the value had been taken by the document, the key is unchanged and
   * the document is the one stored before with exactly that edit. Whatever the other tabs
   * do in between, there is no other write for that request.
   */
  lemma TheEditIsTheWrite(storage: Option<Blob>, before: seq<Move>, i: nat, edit: V.Edit, during: seq<Move>,
                          writable: bool)
    requires Possible(World(storage, []), before)
    requires var w := After(World(storage, []), before);
      Enabled(w, i, BeginEdit(edit)) && Possible(Apply(w, i, BeginEdit(edit)), during) &&
      Enabled(After(Apply(w, i, BeginEdit(edit)), during), i, Compares(writable))
    requires forall m :: m in during && m.tab == i ==> !Begins(m.step)
    ensures var w := After(Apply(After(World(storage, []), before), i, BeginEdit(edit)), during);
      var t, now := w.tabs[i], Apply(w, i, Compares(writable)).storage;
      if writable && w.storage == t.loadedBlob then
        w.storage.Some? && Accepted(w.storage.value.doc, edit) && now.Some? &&
        now.value.key == w.storage.value.key && now.value.doc == V.Edited(w.storage.value.doc, edit)
      else now == w.storage
  {
    hide Possible, After, Carries, InStep, Accepted, MaySubmit, V.Edited, Begins;
    var w0 := After(World(storage, []), before);
    RunKeepsInv(World(storage, []), before);
    var w1 := Apply(w0, i, BeginEdit(edit));
    AskedIsCarried(w0, i, edit);
    RunCarries(w1, during, i, edit);
    WritesWhatItCarries(After(w1, during), i, edit, writable);
  }

  lemma AskedIsCarried(w: World, i: nat, edit: V.Edit)
    requires Inv(w) && Enabled(w, i, BeginEdit(edit))
    ensures i < |Apply(w, i, BeginEdit(edit)).tabs| && Carries(Apply(w, i, BeginEdit(edit)).tabs[i], edit)
  {
    hide MaySubmit;
    assert TabOk(w.tabs[i]);
  }

  lemma WritesWhatItCarries(w: World, i: nat, edit: V.Edit, writable: bool)
    requires Enabled(w, i, Compares(writable)) && Carries(w.tabs[i], edit)
    ensures var t, now := w.tabs[i], Apply(w, i, Compares(writable)).storage;
      if writable && w.storage == t.loadedBlob then
        w.storage.Some? && Accepted(w.storage.value.doc, edit) && now.Some? &&
        now.value.key == w.storage.value.key && now.value.doc == V.Edited(w.storage.value.doc, edit)
      else now == w.storage
  {
    hide Accepted, V.Edited;
  }

  // ---- What an action comes to when nothing disturbs it ----

  lemma OneMore(w: World, m: Move, rest: seq<Move>)
    requires Enabled(w, m.tab, m.step) && Possible(Apply(w, m.tab, m.step), rest)
    ensures Possible(w, [m] + rest) && After(w, [m] + rest) == After(Apply(w, m.tab, m.step), rest)
  {
    hide Enabled, Apply;
    assert ([m] + rest)[1..] == rest;
  }

  /** The tab takes these steps one after another, and they lead to this stored value and this tab. */
  ghost predicate LeadsTo(w: World, i: nat, steps: seq<Step>, storage: Option<Blob>, t: Tab) {
    i < |w.tabs| &&
    Possible(w, Moves(i, steps)) && After(w, Moves(i, steps)) == World(storage, w.tabs[i := t])
  }

  function Moves(i: nat, steps: seq<Step>): seq<Move> {
    if steps == [] then [] else [Move(i, steps[0])] + Moves(i, steps[1..])
  }

  lemma NoSteps(w: World, i: nat)
    requires i < |w.tabs|
    ensures LeadsTo(w, i, [], w.storage, w.tabs[i])
  {
    assert w.tabs[i := w.tabs[i]] == w.tabs;
  }

  lemma StepLeads(w: World, i: nat, s: Step, steps: seq<Step>, storage: Option<Blob>, t: Tab)
    requires i < |w.tabs| && !s.Loads? && Enabled(w, i, s) && LeadsTo(Apply(w, i, s), i, steps, storage, t)
    ensures LeadsTo(w, i, [s] + steps, storage, t)
  {
    hide Enabled, TabStep, StorageStep, Possible, After;
    OneMore(w, Move(i, s), Moves(i, steps));
    assert ([s] + steps)[1..] == steps;
    var next := Apply(w, i, s);
    assert next.tabs[i := t] == w.tabs[i := t];
  }

  lemma TwoSteps(w: World, i: nat, s1: Step, s2: Step)
    requires i < |w.tabs| && !s1.Loads? && !s2.Loads? && Enabled(w, i, s1) && Enabled(Apply(w, i, s1), i, s2)
    ensures var w2 := Apply(Apply(w, i, s1), i, s2);
      LeadsTo(w, i, [s1, s2], w2.storage, w2.tabs[i])
  {
    hide Enabled, TabStep, StorageStep, LeadsTo;
    var w1 := Apply(w, i, s1);
    var w2 := Apply(w1, i, s2);
    assert [s1] + [s2] == [s1, s2] && [s2] + [] == [s2];
    NoSteps(w2, i);
    StepLeads(w1, i, s2, [], w2.storage, w2.tabs[i]);
    StepLeads(w, i, s1, [s2], w2.storage, w2.tabs[i]);
  }

  lemma FourSteps(w: World, i: nat, s1: Step, s2: Step, s3: Step, s4: Step)
    requires i < |w.tabs| && !s1.Loads? && !s2.Loads? && !s3.Loads? && !s4.Loads?
    requires Enabled(w, i, s1) && Enabled(Apply(w, i, s1), i, s2)
    requires var w2 := Apply(Apply(w, i, s1), i, s2);
      Enabled(w2, i, s3) && Enabled(Apply(w2, i, s3), i, s4)
    ensures var w4 := Apply(Apply(Apply(Apply(w, i, s1), i, s2), i, s3), i, s4);
      LeadsTo(w, i, [s1, s2, s3, s4], w4.storage, w4.tabs[i])
  {
    hide Enabled, TabStep, StorageStep, LeadsTo;
    var w1 := Apply(w, i, s1);
    var w2 := Apply(w1, i, s2);
    var w4 := Apply(Apply(w2, i, s3), i, s4);
    assert [s2] + [s3, s4] == [s2, s3, s4] && [s1] + [s2, s3, s4] == [s1, s2, s3, s4];
    TwoSteps(w2, i, s3, s4);
    StepLeads(w1, i, s2, [s3, s4], w4.storage, w4.tabs[i]);
    StepLeads(w, i, s1, [s2, s3, s4], w4.storage, w4.tabs[i]);
  }

  ghost predicate Rests(w: World, i: nat, status: Status) {
    Inv(w) && i < |w.tabs| && w.tabs[i].action == Idle && w.tabs[i].status == status &&
    w.storage == w.tabs[i].loadedBlob
  }

  /** The tab shows the vault that is stored and holds it in its engine. */
  function Showing(t: Tab, blob: Blob): Tab {
    Tab(Unlocked, Some(blob), Some(Engine(blob.key, blob.doc)), Idle, t.build)
  }

  /** An edit the document takes is stored and shown; one it does not take leaves everything as it was. */
  lemma EditsAndSaves(w: World, i: nat, edit: V.Edit, nonce: nat)
    requires Rests(w, i, Unlocked) && MaySubmit(w.tabs[i].build, edit)
    ensures w.storage.Some?
    ensures var t, was := w.tabs[i], w.storage.value;
      var blob := Blob(nonce, was.key, V.Edited(was.doc, edit));
      if Accepted(was.doc, edit) then
        LeadsTo(w, i, [BeginEdit(edit), EditsInEngine(nonce), Compares(true), Confirms(true)],
                Some(blob), Showing(t, blob))
      else LeadsTo(w, i, [BeginEdit(edit), EditsInEngine(nonce)], w.storage, t)
  {
    hide Lists, MaySubmit, EngineEdit, V.Edited, Accepted, LeadsTo;
    var t, edits := w.tabs[i], EditsInEngine(nonce);
    assert InStep(t) by { assert TabOk(t); }
    SealsTheEdit(t.engine, edit, nonce);
    EditStaysListed(t.build, w.storage.value.doc, edit);
    TwoSteps(w, i, BeginEdit(edit), edits);
    if Accepted(w.storage.value.doc, edit) {
      FourSteps(w, i, BeginEdit(edit), edits, Compares(true), Confirms(true));
    }
  }

  /** A save on a value that another tab has replaced writes nothing and locks the tab. */
  lemma StaleSaveLocks(w: World, i: nat, edit: V.Edit, nonce: nat)
    requires Inv(w) && i < |w.tabs| && w.tabs[i].action == Idle && w.tabs[i].status == Unlocked
    requires w.tabs[i].loadedBlob.Some? && w.storage != w.tabs[i].loadedBlob
    requires MaySubmit(w.tabs[i].build, edit) && Accepted(w.tabs[i].loadedBlob.value.doc, edit)
    ensures var t := w.tabs[i];
      LeadsTo(w, i, [BeginEdit(edit), EditsInEngine(nonce), Compares(true), FailsClosed], w.storage,
              Tab(if w.storage.Some? then Locked else Absent, t.loadedBlob, None, Idle, t.build))
  {
    hide Lists, MaySubmit, EngineEdit, V.Edited, Accepted, LeadsTo;
    var t, edits := w.tabs[i], EditsInEngine(nonce);
    assert InStep(t) by { assert TabOk(t); }
    SealsTheEdit(t.engine, edit, nonce);
    EditStaysListed(t.build, t.loadedBlob.value.doc, edit);
    FourSteps(w, i, BeginEdit(edit), edits, Compares(true), FailsClosed);
  }

  /** A new vault is empty and is stored under its password. */
  lemma CreatesAnEmptyVault(w: World, i: nat, nonce: nat, key: nat)
    requires Rests(w, i, Absent) && w.storage.None?
    ensures var blob := Blob(nonce, key, []);
      LeadsTo(w, i, [BeginCreate, CreatesInEngine(nonce, key), Compares(true), Confirms(true)],
              Some(blob), Showing(w.tabs[i], blob))
  {
    hide LeadsTo, Inv, Lists;
    FourSteps(w, i, BeginCreate, CreatesInEngine(nonce, key), Compares(true), Confirms(true));
  }

  /** Unlocking shows what is stored now, whichever tab stored it; with unknown choices it is opened and not shown. */
  lemma UnlocksWhatIsStored(w: World, i: nat)
    requires i < |w.tabs| && w.tabs[i].action == Idle && w.tabs[i].status == Locked
    ensures var t := w.tabs[i];
      if w.storage.None? then LeadsTo(w, i, [BeginUnlock, ReadsStorage], None, t.(status := Absent))
      else
        var blob := w.storage.value;
        LeadsTo(w, i, [BeginUnlock, ReadsStorage, OpensBlob], w.storage,
                if Lists(t.build, blob.doc) then Showing(t, blob)
                else t.(engine := Some(Engine(blob.key, blob.doc))))
  {
    hide LeadsTo, Lists;
    var w1 := Apply(w, i, BeginUnlock);
    TwoSteps(w, i, BeginUnlock, ReadsStorage);
    if w.storage.Some? {
      var w3 := Apply(Apply(w1, i, ReadsStorage), i, OpensBlob);
      TwoSteps(w1, i, ReadsStorage, OpensBlob);
      StepLeads(w, i, BeginUnlock, [ReadsStorage, OpensBlob], w3.storage, w3.tabs[i]);
      assert [BeginUnlock] + [ReadsStorage, OpensBlob] == [BeginUnlock, ReadsStorage, OpensBlob];
    }
  }

  /** A changed password stores the same document under the new one; with a wrong present one nothing changes. */
  lemma ChangesThePassword(w: World, i: nat, current: nat, next: nat, nonce: nat)
    requires Rests(w, i, Unlocked)
    ensures w.storage.Some?
    ensures var t, was := w.tabs[i], w.storage.value;
      var blob := Blob(nonce, next, was.doc);
      if current == was.key then
        LeadsTo(w, i, [BeginRekey(current, next), RekeysInEngine(nonce), Compares(true), Confirms(true)],
                Some(blob), Showing(t, blob))
      else LeadsTo(w, i, [BeginRekey(current, next), RekeysInEngine(nonce)], w.storage, t)
  {
    hide Lists, LeadsTo, EngineRekey;
    var t := w.tabs[i];
    assert InStep(t) by { assert TabOk(t); }
    SealsUnderTheNext(t.engine, current, next, nonce);
    TwoSteps(w, i, BeginRekey(current, next), RekeysInEngine(nonce));
    if current == w.storage.value.key {
      FourSteps(w, i, BeginRekey(current, next), RekeysInEngine(nonce), Compares(true), Confirms(true));
    }
  }

  /** Locking empties the engine and leaves the stored value. */
  lemma Locks(w: World, i: nat)
    requires i < |w.tabs| && w.tabs[i].action == Idle && w.tabs[i].status == Unlocked
    ensures LeadsTo(w, i, [BeginLock, LocksEngine], w.storage, w.tabs[i].(engine := None, status := Locked))
  {
    hide LeadsTo;
    TwoSteps(w, i, BeginLock, LocksEngine);
  }

  /** A reset takes the stored value away. */
  lemma Resets(w: World, i: nat)
    requires i < |w.tabs| && w.tabs[i].action == Idle && w.tabs[i].status == Locked
    requires w.storage == w.tabs[i].loadedBlob
    ensures LeadsTo(w, i, [BeginReset, LocksEngine, ComparesToClear, ConfirmsClear(true)], None,
                    Tab(Absent, None, None, Idle, w.tabs[i].build))
  {
    hide LeadsTo;
    FourSteps(w, i, BeginReset, LocksEngine, ComparesToClear, ConfirmsClear(true));
  }
}
