/**
 * The vault document: an ordered list of saved entries keyed by id, edited by
 * Upsert and Delete, and the checks a stored document must pass to be opened.
 */
module VaultDocument {
  import opened Frames
  import opened Json
  import opened Trimming

  const MAX_DOCUMENT_BYTES: nat := 1048576
  const MAX_ENTRIES: nat := 256
  const MAX_ID_LENGTH: nat := 128
  const MAX_NICKNAME_LENGTH: nat := 128
  const MAX_HOST_LENGTH: nat := 1024
  const MAX_USERNAME_LENGTH: nat := 256
  const MAX_PASSWORD_LENGTH: nat := 4096

  datatype Prefs = Prefs(fontFamily: string, fontSize: int, lineHeight: real, themeName: string)

  datatype Entry = Entry(
    id: string,
    nickname: string,
    host: string,
    port: int,
    username: string,
    password: string,
    terminal: Option<Prefs>
  )

  /** None keeps what is saved; Some("") and Some(None) clear it. */
  datatype Update = Update(
    id: string,
    nickname: string,
    host: string,
    port: int,
    username: string,
    password: Option<string>,
    terminal: Option<Option<Prefs>>
  )

  datatype Redacted = Redacted(
    id: string,
    nickname: string,
    host: string,
    port: int,
    username: string,
    hasPassword: bool,
    terminal: Option<Prefs>
  )

  datatype EntryError =
    | MissingId
    | IdTooLong
    | MissingNickname
    | NicknameTooLong
    | MissingHost
    | HostTooLong
    | PortOutOfRange
    | UsernameTooLong
    | PasswordTooLong
    | PreferencesOutOfRange
    | TooManyEntries

  datatype Result<+T> = Ok(value: T) | Err(error: EntryError)

  // ---- Preferences ----

  function Abs(x: real): real {
    if x < 0.0 then -x else x
  }

  /** One to two, in steps of a twentieth up to a rounding error. */
  predicate IsLineHeight(value: real) {
    1.0 <= value <= 2.0 &&
    var steps := value * 20.0;
    Abs(steps - (steps + 0.5).Floor as real) <= 0.000000001
  }

  predicate PrefsInRange(p: Prefs) {
    8 <= p.fontSize <= 32 && IsLineHeight(p.lineHeight)
  }

  // ---- The entries as an ordered map ----

  function IndexOf(entries: seq<Entry>, id: string): (i: int)
    ensures -1 <= i < |entries|
  {
    if entries == [] then -1
    else if entries[0].id == id then 0
    else
      var i := IndexOf(entries[1..], id);
      if i < 0 then -1 else i + 1
  }

  function Lookup(entries: seq<Entry>, id: string): Option<Entry> {
    if entries == [] then None
    else if entries[0].id == id then Some(entries[0])
    else Lookup(entries[1..], id)
  }

  function Ids(entries: seq<Entry>): seq<string> {
    if entries == [] then [] else [entries[0].id] + Ids(entries[1..])
  }

  ghost predicate UniqueIds(entries: seq<Entry>) {
    entries == [] || (Lookup(entries[1..], entries[0].id).None? && UniqueIds(entries[1..]))
  }

  // ---- Upsert ----

  function TrimmedUpdate(u: Update): Update {
    u.(id := Trim(u.id), nickname := Trim(u.nickname), host := Trim(u.host), username := Trim(u.username))
  }

  /** The first field out of range, in the order they are tested. */
  function FieldError(u: Update): Option<EntryError> {
    if u.id == "" then Some(MissingId)
    else if Utf8Length(u.id) > MAX_ID_LENGTH then Some(IdTooLong)
    else if u.nickname == "" then Some(MissingNickname)
    else if Utf8Length(u.nickname) > MAX_NICKNAME_LENGTH then Some(NicknameTooLong)
    else if u.host == "" then Some(MissingHost)
    else if Utf8Length(u.host) > MAX_HOST_LENGTH then Some(HostTooLong)
    else if u.port < 1 || u.port > 65535 then Some(PortOutOfRange)
    else if Utf8Length(u.username) > MAX_USERNAME_LENGTH then Some(UsernameTooLong)
    else if u.password.Some? && Utf8Length(u.password.value) > MAX_PASSWORD_LENGTH then Some(PasswordTooLong)
    else None
  }

  /** What the update leaves under its id: absent fields keep the saved ones, no username means no password. */
  function Merged(u: Update, saved: Option<Entry>): Entry {
    Entry(u.id, u.nickname, u.host, u.port, u.username,
          if u.username == "" then ""
          else if u.password.Some? then u.password.value
          else if saved.Some? then saved.value.password
          else "",
          if u.terminal.Some? then u.terminal.value
          else if saved.Some? then saved.value.terminal
          else None)
  }

  function Upserted(entries: seq<Entry>, update: Update): Result<seq<Entry>> {
    var u := TrimmedUpdate(update);
    if FieldError(u).Some? then Err(FieldError(u).value)
    else
      var at := IndexOf(entries, u.id);
      var entry := Merged(u, if at >= 0 then Some(entries[at]) else None);
      if entry.terminal.Some? && !PrefsInRange(entry.terminal.value) then Err(PreferencesOutOfRange)
      else if at >= 0 then Ok(entries[at := entry])
      else if |entries| >= MAX_ENTRIES then Err(TooManyEntries)
      else Ok(entries + [entry])
  }

  function Deleted(entries: seq<Entry>, id: string): seq<Entry> {
    var at := IndexOf(entries, id);
    if at < 0 then entries else entries[..at] + entries[at + 1..]
  }

  // ---- Validity ----

  /** The update that names every field of an entry. */
  function FullUpdate(e: Entry): Update {
    Update(e.id, e.nickname, e.host, e.port, e.username, Some(e.password), Some(e.terminal))
  }

  /** The check on a stored entry: upserting it into an empty document gives it back. */
  predicate ValidEntry(e: Entry) {
    Upserted([], FullUpdate(e)) == Ok([e])
  }

  /** What that check amounts to, field by field. */
  predicate Canonical(e: Entry) {
    Trimmed(e.id) && 1 <= Utf8Length(e.id) <= MAX_ID_LENGTH &&
    Trimmed(e.nickname) && 1 <= Utf8Length(e.nickname) <= MAX_NICKNAME_LENGTH &&
    Trimmed(e.host) && 1 <= Utf8Length(e.host) <= MAX_HOST_LENGTH &&
    1 <= e.port <= 65535 &&
    Trimmed(e.username) && Utf8Length(e.username) <= MAX_USERNAME_LENGTH &&
    Utf8Length(e.password) <= MAX_PASSWORD_LENGTH &&
    (e.username == "" ==> e.password == "") &&
    (e.terminal.Some? ==> PrefsInRange(e.terminal.value))
  }

  ghost predicate AllValid(entries: seq<Entry>) {
    entries == [] || (ValidEntry(entries[0]) && AllValid(entries[1..]))
  }

  ghost predicate Valid(entries: seq<Entry>) {
    |entries| <= MAX_ENTRIES && UniqueIds(entries) && AllValid(entries)
  }

  lemma {:induction false} LengthIsZeroOnlyWhenEmpty(s: string)
    ensures Utf8Length(s) == 0 <==> s == ""
  {
  }

  /** A stored entry passes exactly when it is trimmed, in range, and has no password without a username. */
  lemma ValidIsCanonical(e: Entry)
    ensures ValidEntry(e) <==> Canonical(e)
  {
    hide Trim, Trimmed, Utf8Length, PrefsInRange;
    TrimFixesTrimmed(e.id);
    TrimFixesTrimmed(e.nickname);
    TrimFixesTrimmed(e.host);
    TrimFixesTrimmed(e.username);
    LengthIsZeroOnlyWhenEmpty(e.id);
    LengthIsZeroOnlyWhenEmpty(e.nickname);
    LengthIsZeroOnlyWhenEmpty(e.host);
    var u := TrimmedUpdate(FullUpdate(e));
    if FieldError(u).None? {
      var entry := Merged(u, None);
      assert [] + [entry] == [entry];
      assert [entry] == [e] <==> entry == e by {
        assert [entry][0] == entry && [e][0] == e;
      }
    }
  }

  lemma MergedIsCanonical(u: Update, saved: Option<Entry>)
    requires FieldError(TrimmedUpdate(u)).None?
    requires saved.Some? ==> Canonical(saved.value)
    requires var e := Merged(TrimmedUpdate(u), saved); e.terminal.Some? ==> PrefsInRange(e.terminal.value)
    ensures Canonical(Merged(TrimmedUpdate(u), saved))
  {
    hide Trim, Trimmed, PrefsInRange, IsSpace;
    TrimIsTrimmed(u.id);
    TrimIsTrimmed(u.nickname);
    TrimIsTrimmed(u.host);
    TrimIsTrimmed(u.username);
    LengthIsZeroOnlyWhenEmpty(Trim(u.id));
    LengthIsZeroOnlyWhenEmpty(Trim(u.nickname));
    LengthIsZeroOnlyWhenEmpty(Trim(u.host));
    LengthIsZeroOnlyWhenEmpty("");
  }

  lemma TrimKeepsTheRest(u: Update)
    ensures TrimmedUpdate(u).terminal == u.terminal && TrimmedUpdate(u).password == u.password
    ensures TrimmedUpdate(u).port == u.port
  {
  }

  // ---- The list of entries under the two edits ----

  lemma {:induction false} IndexFinds(entries: seq<Entry>, id: string)
    ensures var at := IndexOf(entries, id);
      if at < 0 then Lookup(entries, id) == None
      else entries[at].id == id && Lookup(entries, id) == Some(entries[at])
  {
    if entries != [] {
      IndexFinds(entries[1..], id);
    }
  }

  lemma {:induction false} IndexOfMember(entries: seq<Entry>, i: nat)
    requires UniqueIds(entries) && i < |entries|
    ensures IndexOf(entries, entries[i].id) == i && Lookup(entries, entries[i].id) == Some(entries[i])
  {
    if i > 0 {
      IndexOfMember(entries[1..], i - 1);
    }
  }

  lemma {:induction false} MemberIsValid(entries: seq<Entry>, i: nat)
    requires AllValid(entries) && i < |entries|
    ensures ValidEntry(entries[i])
  {
    hide ValidEntry;
    if i > 0 {
      MemberIsValid(entries[1..], i - 1);
    }
  }

  lemma {:induction false} Replaced(entries: seq<Entry>, e: Entry, id: string)
    requires IndexOf(entries, e.id) >= 0
    ensures var after := entries[IndexOf(entries, e.id) := e];
      Lookup(after, id) == (if id == e.id then Some(e) else Lookup(entries, id)) && Ids(after) == Ids(entries) &&
      (UniqueIds(entries) ==> UniqueIds(after)) && (AllValid(entries) && ValidEntry(e) ==> AllValid(after))
  {
    hide ValidEntry;
    var at := IndexOf(entries, e.id);
    var after := entries[at := e];
    if at == 0 {
      IndexFinds(entries[1..], e.id);
      assert after[1..] == entries[1..];
    } else {
      assert after[1..] == entries[1..][at - 1 := e];
      Replaced(entries[1..], e, id);
      Replaced(entries[1..], e, entries[0].id);
    }
  }

  lemma {:induction false} Appended(entries: seq<Entry>, e: Entry, id: string)
    requires IndexOf(entries, e.id) < 0
    ensures Lookup(entries + [e], id) == if id == e.id then Some(e) else Lookup(entries, id)
    ensures Ids(entries + [e]) == Ids(entries) + [e.id]
    ensures UniqueIds(entries) ==> UniqueIds(entries + [e])
    ensures AllValid(entries) && ValidEntry(e) ==> AllValid(entries + [e])
  {
    hide ValidEntry;
    var after := entries + [e];
    if entries == [] {
      assert after == [e];
    } else {
      assert after[1..] == entries[1..] + [e];
      Appended(entries[1..], e, id);
      Appended(entries[1..], e, entries[0].id);
    }
  }

  lemma {:induction false} Removed(entries: seq<Entry>, id: string, other: string)
    ensures UniqueIds(entries) ==> UniqueIds(Deleted(entries, id))
    ensures UniqueIds(entries) ==>
      Lookup(Deleted(entries, id), other) == (if other == id then None else Lookup(entries, other))
    ensures AllValid(entries) ==> AllValid(Deleted(entries, id))
  {
    hide ValidEntry;
    var at := IndexOf(entries, id);
    if at == 0 {
      assert Deleted(entries, id) == entries[1..];
    } else if at > 0 {
      DeletedInTail(entries, id);
      assert ([entries[0]] + Deleted(entries[1..], id))[1..] == Deleted(entries[1..], id);
      Removed(entries[1..], id, other);
      Removed(entries[1..], id, entries[0].id);
    } else {
      IndexFinds(entries, id);
    }
  }

  lemma {:induction false} RemovedIds(entries: seq<Entry>, id: string)
    requires IndexOf(entries, id) >= 0
    ensures |Ids(entries)| == |entries| && Ids(entries)[IndexOf(entries, id)] == id
    ensures Ids(Deleted(entries, id)) == Ids(entries)[..IndexOf(entries, id)] + Ids(entries)[IndexOf(entries, id) + 1..]
  {
    var at := IndexOf(entries, id);
    IdsCount(entries);
    if at == 0 {
      assert Deleted(entries, id) == entries[1..];
      assert Ids(entries)[1..] == Ids(entries[1..]);
    } else {
      RemovedIds(entries[1..], id);
      IdsCount(entries[1..]);
      DeletedInTail(entries, id);
      IdsOfCons(entries[0], Deleted(entries[1..], id));
      WithoutInTail(entries[0].id, Ids(entries[1..]), at);
    }
  }

  lemma DeletedInTail(entries: seq<Entry>, id: string)
    requires IndexOf(entries, id) > 0
    ensures Deleted(entries, id) == [entries[0]] + Deleted(entries[1..], id)
  {
    var head, tail, at := entries[0], entries[1..], IndexOf(entries, id);
    assert entries == [head] + tail;
    assert IndexOf(tail, id) == at - 1;
    WithoutInTail(head, tail, at);
  }

  lemma IdsOfCons(head: Entry, tail: seq<Entry>)
    ensures Ids([head] + tail) == [head.id] + Ids(tail)
  {
    assert ([head] + tail)[1..] == tail;
  }

  lemma WithoutInTail<T>(head: T, tail: seq<T>, at: nat)
    requires 0 < at <= |tail|
    ensures ([head] + tail)[..at] + ([head] + tail)[at + 1..] == [head] + (tail[..at - 1] + tail[at..])
  {
  }

  lemma {:induction false} IdsCount(entries: seq<Entry>)
    ensures |Ids(entries)| == |entries|
  {
    if entries != [] {
      IdsCount(entries[1..]);
    }
  }

  // ---- Validity is kept ----

  /** Upserting into a valid document gives a valid document or an error. */
  lemma UpsertKeepsValid(entries: seq<Entry>, update: Update)
    requires Valid(entries) && Upserted(entries, update).Ok?
    ensures Valid(Upserted(entries, update).value)
  {
    hide FieldError, TrimmedUpdate, Canonical, ValidEntry, PrefsInRange, UniqueIds, AllValid, IndexOf;
    var u := TrimmedUpdate(update);
    var at := IndexOf(entries, u.id);
    var saved := if at >= 0 then Some(entries[at]) else None;
    if at >= 0 {
      MemberIsValid(entries, at);
      ValidIsCanonical(entries[at]);
    }
    MergedIsCanonical(update, saved);
    var e := Merged(u, saved);
    ValidIsCanonical(e);
    if at >= 0 {
      Replaced(entries, e, "");
    } else {
      Appended(entries, e, "");
    }
  }

  lemma DeleteKeepsValid(entries: seq<Entry>, id: string)
    requires Valid(entries)
    ensures Valid(Deleted(entries, id))
  {
    hide UniqueIds, AllValid, IndexOf;
    Removed(entries, id, "");
  }

  // ---- An ordered map ----

  /**
   * Upsert is an ordered-map update: it stores the merged entry under its trimmed
   * id, changes nothing under any other id, and keeps the order, a new id last.
   */
  lemma UpsertIsAMapUpdate(entries: seq<Entry>, update: Update, id: string)
    requires Upserted(entries, update).Ok?
    ensures var u, after := TrimmedUpdate(update), Upserted(entries, update).value;
      var saved := Lookup(entries, u.id);
      Lookup(after, u.id) == Some(Merged(u, saved)) &&
      (id != u.id ==> Lookup(after, id) == Lookup(entries, id)) &&
      Ids(after) == if saved.Some? then Ids(entries) else Ids(entries) + [u.id]
  {
    hide FieldError, TrimmedUpdate, PrefsInRange, IndexOf, Lookup, Ids, UniqueIds, AllValid, ValidEntry;
    var u := TrimmedUpdate(update);
    IndexFinds(entries, u.id);
    var e := Merged(u, Lookup(entries, u.id));
    if IndexOf(entries, u.id) >= 0 {
      Replaced(entries, e, u.id);
      Replaced(entries, e, id);
    } else {
      Appended(entries, e, u.id);
      Appended(entries, e, id);
    }
  }

  /** Delete takes out the one entry with that id and moves nothing else. */
  lemma DeleteIsAMapRemoval(entries: seq<Entry>, id: string, other: string)
    requires UniqueIds(entries)
    ensures Lookup(Deleted(entries, id), other) == if other == id then None else Lookup(entries, other)
    ensures Lookup(entries, id).Some? ==>
      exists at :: 0 <= at < |Ids(entries)| && Ids(entries)[at] == id &&
        Ids(Deleted(entries, id)) == Ids(entries)[..at] + Ids(entries)[at + 1..]
    ensures Lookup(entries, id).None? ==> Deleted(entries, id) == entries
  {
    hide Lookup, Ids, UniqueIds, AllValid, IndexOf;
    Removed(entries, id, other);
    IndexFinds(entries, id);
    if IndexOf(entries, id) >= 0 {
      RemovedIds(entries, id);
    }
  }

  /** Writing an entry back in full changes nothing: every stored entry is a fixed point of Upsert. */
  lemma FullUpsertIsIdentity(entries: seq<Entry>, i: nat)
    requires Valid(entries) && i < |entries|
    ensures Upserted(entries, FullUpdate(entries[i])) == Ok(entries)
  {
    hide Trim, Trimmed, PrefsInRange, Utf8Length, ValidEntry, IndexOf, Lookup, UniqueIds, AllValid;
    var e := entries[i];
    MemberIsValid(entries, i);
    ValidIsCanonical(e);
    TrimFixesTrimmed(e.id);
    TrimFixesTrimmed(e.nickname);
    TrimFixesTrimmed(e.host);
    TrimFixesTrimmed(e.username);
    LengthIsZeroOnlyWhenEmpty(e.id);
    LengthIsZeroOnlyWhenEmpty(e.nickname);
    LengthIsZeroOnlyWhenEmpty(e.host);
    IndexOfMember(entries, i);
    assert entries[i := e] == entries;
  }

  // ---- What leaves the engine ----

  function Redact(e: Entry): Redacted {
    Redacted(e.id, e.nickname, e.host, e.port, e.username, e.password != "", e.terminal)
  }

  function RedactAll(entries: seq<Entry>): seq<Redacted> {
    if entries == [] then [] else [Redact(entries[0])] + RedactAll(entries[1..])
  }

  function PasswordFor(entries: seq<Entry>, id: string): Option<string> {
    var found := Lookup(entries, id);
    if found.None? || found.value.password == "" then None else Some(found.value.password)
  }

  /** Entries that agree but for the text of non-empty passwords. */
  ghost predicate SameButSecrets(a: seq<Entry>, b: seq<Entry>) {
    |a| == |b| &&
    forall i :: 0 <= i < |a| ==>
      b[i] == a[i].(password := b[i].password) && (a[i].password == "" <==> b[i].password == "")
  }

  /** The list shown to the page tells documents apart by everything except the passwords themselves. */
  lemma {:induction false} RedactedHidesOnlySecrets(a: seq<Entry>, b: seq<Entry>)
    ensures RedactAll(a) == RedactAll(b) <==> SameButSecrets(a, b)
    decreases |a|
  {
    if a != [] && b != [] {
      RedactedHidesOnlySecrets(a[1..], b[1..]);
      var ra, rb := RedactAll(a), RedactAll(b);
      assert ra[1..] == RedactAll(a[1..]) && rb[1..] == RedactAll(b[1..]);
      assert ra == [ra[0]] + ra[1..] && rb == [rb[0]] + rb[1..];
      if SameButSecrets(a[1..], b[1..]) && Redact(a[0]) == Redact(b[0]) {
        forall i | 0 <= i < |a|
          ensures b[i] == a[i].(password := b[i].password) && (a[i].password == "" <==> b[i].password == "")
        {
          if i > 0 {
            assert a[i] == a[1..][i - 1] && b[i] == b[1..][i - 1];
          }
        }
      }
      if SameButSecrets(a, b) {
        assert SameButSecrets(a[1..], b[1..]);
        assert Redact(a[0]) == Redact(b[0]);
      }
    }
  }

  /** A password is found exactly where the page sees hasPassword, and never without a username. */
  lemma PasswordsMatchTheList(entries: seq<Entry>, i: nat)
    requires Valid(entries) && i < |entries|
    ensures PasswordFor(entries, entries[i].id).Some? <==> Redact(entries[i]).hasPassword
    ensures entries[i].username == "" ==> PasswordFor(entries, entries[i].id).None?
  {
    hide ValidEntry, PrefsInRange, Trimmed, Utf8Length, UniqueIds, AllValid, Lookup;
    MemberIsValid(entries, i);
    ValidIsCanonical(entries[i]);
    IndexOfMember(entries, i);
  }

  // ---- Reachable documents ----

  datatype Edit = Upsert(update: Update) | Delete(id: string)

  /** One edit; a refused one leaves the document as it was. */
  function Edited(entries: seq<Entry>, e: Edit): seq<Entry> {
    match e
    case Upsert(u) => if Upserted(entries, u).Ok? then Upserted(entries, u).value else entries
    case Delete(id) => Deleted(entries, id)
  }

  function AfterEdits(entries: seq<Entry>, edits: seq<Edit>): seq<Entry>
    decreases |edits|
  {
    if edits == [] then entries else AfterEdits(Edited(entries, edits[0]), edits[1..])
  }

  lemma {:induction false} EditsKeepValid(entries: seq<Entry>, edits: seq<Edit>)
    requires Valid(entries)
    ensures Valid(AfterEdits(entries, edits))
    decreases |edits|
  {
    hide Valid, Upserted, Deleted;
    if edits != [] {
      match edits[0] {
        case Upsert(u) => if Upserted(entries, u).Ok? { UpsertKeepsValid(entries, u); }
        case Delete(id) => DeleteKeepsValid(entries, id);
      }
      EditsKeepValid(Edited(entries, edits[0]), edits[1..]);
    }
  }

  /** Every document reachable from the new one passes every check on stored entries. */
  lemma ReachableIsValid(edits: seq<Edit>)
    ensures Valid(AfterEdits([], edits))
  {
    EditsKeepValid([], edits);
  }

  // ---- Opening a stored document ----

  /** ParseDocument's checks on a decoded document of this many bytes. */
  ghost predicate Opens(size: nat, version: int, entries: seq<Entry>) {
    size <= MAX_DOCUMENT_BYTES && version == 1 && Valid(entries)
  }

  /** Checks each entry and remembers its id. */
  method ParseDocument(size: nat, version: int, entries: seq<Entry>) returns (ok: bool)
    ensures ok <==> Opens(size, version, entries)
  {
    hide ValidEntry;
    if size > MAX_DOCUMENT_BYTES || version != 1 || |entries| > MAX_ENTRIES {
      return false;
    }
    var ids: set<string> := {};
    var i := 0;
    PrefixAll(entries);
    while i < |entries|
      invariant 0 <= i <= |entries|
      invariant UniqueIds(entries[..i]) && AllValid(entries[..i])
      invariant forall id :: id in ids <==> Lookup(entries[..i], id).Some?
    {
      var e := entries[i];
      PrefixGrows(entries, i);
      if !ValidEntry(e) || e.id in ids {
        if UniqueIds(entries) && AllValid(entries) {
          PrefixesHold(entries, i + 1);
        }
        return false;
      }
      forall id: string ensures id in ids + {e.id} <==> Lookup(entries[..i + 1], id).Some? {
        AppendedLookup(entries[..i], e, id);
      }
      ids := ids + {e.id};
      i := i + 1;
    }
    assert entries[..|entries|] == entries;
    return true;
  }

  lemma PrefixAll(entries: seq<Entry>)
    ensures entries[..0] == []
  {
  }

  lemma {:induction false} AppendedLookup(entries: seq<Entry>, e: Entry, id: string)
    ensures Lookup(entries + [e], id).Some? <==> id == e.id || Lookup(entries, id).Some?
  {
    if entries == [] {
      assert entries + [e] == [e];
    } else {
      assert (entries + [e])[1..] == entries[1..] + [e];
      AppendedLookup(entries[1..], e, id);
    }
  }

  lemma {:induction false} AppendedOk(entries: seq<Entry>, e: Entry)
    ensures UniqueIds(entries + [e]) <==> UniqueIds(entries) && Lookup(entries, e.id).None?
    ensures AllValid(entries + [e]) <==> AllValid(entries) && ValidEntry(e)
  {
    hide ValidEntry;
    if entries == [] {
      assert entries + [e] == [e];
    } else {
      assert (entries + [e])[1..] == entries[1..] + [e];
      AppendedOk(entries[1..], e);
      AppendedLookup(entries[1..], e, entries[0].id);
    }
  }

  lemma PrefixGrows(entries: seq<Entry>, i: nat)
    requires i < |entries|
    ensures entries[..i + 1] == entries[..i] + [entries[i]]
    ensures UniqueIds(entries[..i + 1]) <==> UniqueIds(entries[..i]) && Lookup(entries[..i], entries[i].id).None?
    ensures AllValid(entries[..i + 1]) <==> AllValid(entries[..i]) && ValidEntry(entries[i])
  {
    AppendedOk(entries[..i], entries[i]);
    assert entries[..i + 1] == entries[..i] + [entries[i]];
  }

  lemma {:induction false} PrefixesHold(entries: seq<Entry>, i: nat)
    requires i <= |entries| && UniqueIds(entries) && AllValid(entries)
    ensures UniqueIds(entries[..i]) && AllValid(entries[..i])
    decreases |entries| - i
  {
    hide ValidEntry;
    if i < |entries| {
      PrefixesHold(entries, i + 1);
      PrefixGrows(entries, i);
    } else {
      assert entries[..i] == entries;
    }
  }

  // ---- The document, updated in place ----

  class Document {
    var entries: seq<Entry>

    constructor ()
      ensures entries == []
    {
      entries := [];
    }

    method FindIndex(id: string) returns (at: int)
      ensures at == IndexOf(entries, id)
    {
      at := 0;
      assert entries[0..] == entries;
      while at < |entries|
        invariant 0 <= at <= |entries|
        invariant IndexOf(entries, id) == if IndexOf(entries[at..], id) < 0 then -1 else at + IndexOf(entries[at..], id)
      {
        if entries[at].id == id {
          return;
        }
        assert entries[at..][1..] == entries[at + 1..];
        at := at + 1;
      }
      return -1;
    }

    /** A copy no later edit of this document reaches. */
    method Clone() returns (copy: Document)
      ensures fresh(copy) && copy.entries == entries
    {
      copy := new Document();
      copy.entries := entries;
    }

    /** Tests the fields, then merges the update into the saved entry or appends it. */
    method Upsert(update: Update) returns (error: Option<EntryError>)
      modifies this
      ensures match Upserted(old(entries), update)
        case Ok(after) => error == None && entries == after
        case Err(e) => error == Some(e) && entries == old(entries)
    {
      var u := TrimmedUpdate(update);
      var invalid := FieldError(u);
      if invalid.Some? {
        return invalid;
      }
      var existing := FindIndex(u.id);
      var terminal: Option<Prefs> := None;
      if u.terminal.Some? {
        terminal := u.terminal.value;
      } else if existing >= 0 {
        terminal := entries[existing].terminal;
      }
      if terminal.Some? && !PrefsInRange(terminal.value) {
        return Some(PreferencesOutOfRange);
      }
      var password := "";
      if u.password.Some? {
        password := u.password.value;
      } else if existing >= 0 {
        password := entries[existing].password;
      }
      if u.username == "" {
        password := "";
      }
      var entry := Entry(u.id, u.nickname, u.host, u.port, u.username, password, terminal);
      if existing >= 0 {
        entries := entries[existing := entry];
        return None;
      }
      if |entries| >= MAX_ENTRIES {
        return Some(TooManyEntries);
      }
      entries := entries + [entry];
      return None;
    }

    method Delete(id: string) returns (found: bool)
      modifies this
      ensures entries == Deleted(old(entries), id) && (found <==> IndexOf(old(entries), id) >= 0)
    {
      var at := FindIndex(id);
      if at < 0 {
        return false;
      }
      entries := entries[..at] + entries[at + 1..];
      return true;
    }
  }
}
