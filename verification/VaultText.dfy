/**
 * The JSON text of a vault document as Go prints it, and of the sealed envelope
 * around it, with the two limits on their lengths. Encryption is any function
 * that adds 16 bytes; the shortest text of a real number is a parameter.
 */
module VaultText {
  import opened Frames
  import opened Json
  import opened Trimming
  import opened VaultDocument
  import Base64

  /** Seal refuses longer blobs. */
  const MAX_BLOB_BYTES: nat := 1048576
  const SALT_BYTES: nat := 16
  const NONCE_BYTES: nat := 24

  /** What authenticated encryption adds to the plaintext. */
  const CIPHER_OVERHEAD: nat := 16

  // ---- The document's text ----

  function LowHex(n: nat): string
    requires n < 65536
  {
    [HexDigit(n / 4096), HexDigit(n / 256 % 16), HexDigit(n / 16 % 16), HexDigit(n % 16)]
  }

  /** Go escapes what JSON must escape, and also what HTML or JavaScript would read. */
  function GoEscapeChar(c: char): string {
    if c == '<' || c == '>' || c == '&' || c == 0x2028 as char || c == 0x2029 as char then "\\u" + LowHex(c as int)
    else EscapeChar(c)
  }

  function GoEscape(s: string): string {
    if s == "" then "" else GoEscapeChar(s[0]) + GoEscape(s[1..])
  }

  function Named(name: string, value: string): string {
    "\"" + name + "\":\"" + GoEscape(value) + "\""
  }

  /** A field left out when it is empty. */
  function Optional(name: string, value: string): string {
    if value == "" then "" else "," + Named(name, value)
  }

  function PrefsText(terminal: Option<Prefs>, number: real -> string): string {
    if terminal.None? then ""
    else
      ",\"terminal\":{" + Named("fontFamily", terminal.value.fontFamily) +
      ",\"fontSize\":" + PrintInt(terminal.value.fontSize) +
      ",\"lineHeight\":" + number(terminal.value.lineHeight) +
      "," + Named("themeName", terminal.value.themeName) + "}"
  }

  function WhereText(e: Entry): string {
    Named("id", e.id) + "," + Named("nickname", e.nickname) + "," + Named("host", e.host) +
    ",\"port\":" + PrintInt(e.port)
  }

  function WhoText(e: Entry): string {
    Optional("username", e.username) + Optional("password", e.password)
  }

  function EntryText(e: Entry, number: real -> string): string {
    "{" + WhereText(e) + WhoText(e) + PrefsText(e.terminal, number) + "}"
  }

  function EntriesText(entries: seq<Entry>, number: real -> string): string {
    if entries == [] then ""
    else if |entries| == 1 then EntryText(entries[0], number)
    else EntryText(entries[0], number) + "," + EntriesText(entries[1..], number)
  }

  function DocumentText(entries: seq<Entry>, number: real -> string): string {
    "{\"v\":1,\"entries\":[" + EntriesText(entries, number) + "]}"
  }

  // ---- The sealed blob ----

  datatype Params = Params(time: nat, memory: nat, lanes: nat)

  function EnvelopeText(p: Params, salt: seq<byte>, nonce: seq<byte>, cipher: seq<byte>): string {
    "{\"v\":1,\"kdf\":\"argon2id\"" + ",\"t\":" + PrintNat(p.time) + ",\"m\":" + PrintNat(p.memory) +
    ",\"p\":" + PrintNat(p.lanes) + ",\"salt\":\"" + Base64.Encode64(salt) + "\",\"nonce\":\"" +
    Base64.Encode64(nonce) + "\",\"ct\":\"" + Base64.Encode64(cipher) + "\"}"
  }

  /** One sealing of this document: the ciphertext is as long as the text and the tag. */
  datatype Sealing = Sealing(params: Params, salt: seq<byte>, nonce: seq<byte>, cipher: seq<byte>) {
    predicate Of(entries: seq<Entry>, number: real -> string) {
      |salt| == SALT_BYTES && |nonce| == NONCE_BYTES &&
      |cipher| == Utf8Length(DocumentText(entries, number)) + CIPHER_OVERHEAD
    }

    function Blob(): string {
      EnvelopeText(params, salt, nonce, cipher)
    }

    /** Seal stores a blob only within its limit. */
    predicate Accepted() {
      Utf8Length(Blob()) <= MAX_BLOB_BYTES
    }
  }

  /** Length of the base64 text of the ciphertext of this many bytes of document. */
  function CiphertextLength(size: nat): nat {
    (size + CIPHER_OVERHEAD + 2) / 3 * 4
  }

  // ---- Lengths ----

  lemma {:induction false} AsciiLength(s: string)
    requires forall c :: c in s ==> c as int < 0x80
    ensures Utf8Length(s) == |s|
  {
    if s != "" {
      assert s[0] in s;
      forall c | c in s[1..] ensures c as int < 0x80 {
        assert c in s;
      }
      AsciiLength(s[1..]);
    }
  }

  lemma {:induction false} NatLength(n: nat)
    ensures Utf8Length(PrintNat(n)) == |PrintNat(n)|
  {
    NatIsAscii(n);
    AsciiLength(PrintNat(n));
  }

  lemma {:induction false} NatIsAscii(n: nat)
    ensures forall c :: c in PrintNat(n) ==> c as int < 0x80
  {
    if n >= 10 {
      NatIsAscii(n / 10);
    }
  }

  lemma Base64Length(bytes: seq<byte>)
    ensures Utf8Length(Base64.Encode64(bytes)) == (|bytes| + 2) / 3 * 4
  {
    Base64.EncodedIsShaped(bytes);
    Base64IsAscii(bytes);
    AsciiLength(Base64.Encode64(bytes));
  }

  lemma {:induction false} Base64IsAscii(bytes: seq<byte>)
    ensures forall c :: c in Base64.Encode64(bytes) ==> c as int < 0x80
    decreases |bytes|
  {
    if |bytes| > 3 {
      Base64IsAscii(bytes[3..]);
    }
  }

  lemma EscapeCharGrows(c: char)
    ensures Utf8Length(GoEscapeChar(c)) >= Utf8Length([c])
  {
    assert [c][1..] == "";
    if GoEscapeChar(c) != [c] {
      assert GoEscapeChar(c) == "\\u" + LowHex(c as int) || GoEscapeChar(c) == EscapeChar(c);
      AsciiLength(GoEscapeChar(c));
    }
  }

  lemma {:induction false} EscapeGrows(s: string)
    ensures Utf8Length(GoEscape(s)) >= Utf8Length(s)
  {
    hide GoEscapeChar;
    if s != "" {
      Utf8Appends(GoEscapeChar(s[0]), GoEscape(s[1..]));
      Utf8Appends([s[0]], s[1..]);
      assert [s[0]] + s[1..] == s;
      EscapeCharGrows(s[0]);
      EscapeGrows(s[1..]);
    }
  }

  lemma NamedHolds(name: string, value: string)
    ensures Utf8Length(Optional(name, value)) >= Utf8Length(value)
  {
    hide Utf8Length;
    Utf8Nothing();
    if value != "" {
      var front := "\"" + name + "\":\"";
      Utf8Appends(front, GoEscape(value));
      Utf8Appends(front + GoEscape(value), "\"");
      Utf8Appends(",", Named(name, value));
      EscapeGrows(value);
    }
  }

  lemma Utf8Nothing()
    ensures Utf8Length("") == 0 && Utf8Length("}") == 1
  {
  }

  lemma EntryHoldsPassword(e: Entry, number: real -> string)
    ensures Utf8Length(EntryText(e, number)) > Utf8Length(e.password)
  {
    hide Utf8Length, Optional, WhereText, PrefsText;
    var front, who, prefs := "{" + WhereText(e), WhoText(e), PrefsText(e.terminal, number);
    Utf8Appends(front, who);
    Utf8Appends(front + who, prefs);
    Utf8Appends(front + who + prefs, "}");
    Utf8Appends(Optional("username", e.username), Optional("password", e.password));
    Utf8Nothing();
    NamedHolds("password", e.password);
  }

  lemma DocumentHoldsEntries(entries: seq<Entry>, number: real -> string)
    ensures Utf8Length(DocumentText(entries, number)) >= Utf8Length(EntriesText(entries, number))
  {
    hide Utf8Length, EntriesText;
    var front := "{\"v\":1,\"entries\":[";
    Utf8Appends(front, EntriesText(entries, number));
    Utf8Appends(front + EntriesText(entries, number), "]}");
  }

  /** What the envelope adds to the ciphertext's text. */
  function EnvelopeBytes(p: Params): nat {
    124 + |PrintNat(p.time)| + |PrintNat(p.memory)| + |PrintNat(p.lanes)|
  }

  lemma FixedParts()
    ensures Utf8Length("{\"v\":1,\"kdf\":\"argon2id\"") == 23
    ensures Utf8Length(",\"t\":") == Utf8Length(",\"m\":") == Utf8Length(",\"p\":") == 5
    ensures Utf8Length(",\"salt\":\"") == 9 && Utf8Length("\",\"nonce\":\"") == 11
    ensures Utf8Length("\",\"ct\":\"") == 8 && Utf8Length("\"}") == 2
  {
    hide Utf8Length;
    AsciiLength("{\"v\":1,\"kdf\":\"argon2id\"");
    AsciiLength(",\"t\":");
    AsciiLength(",\"m\":");
    AsciiLength(",\"p\":");
    AsciiLength(",\"salt\":\"");
    AsciiLength("\",\"nonce\":\"");
    AsciiLength("\",\"ct\":\"");
    AsciiLength("\"}");
  }

  /** The exact length of the blob. */
  lemma EnvelopeLength(p: Params, salt: seq<byte>, nonce: seq<byte>, cipher: seq<byte>)
    requires |salt| == SALT_BYTES && |nonce| == NONCE_BYTES
    ensures Utf8Length(EnvelopeText(p, salt, nonce, cipher)) == (|cipher| + 2) / 3 * 4 + EnvelopeBytes(p)
  {
    hide Utf8Length, PrintNat, Base64.Encode64;
    FixedParts();
    NatLength(p.time);
    NatLength(p.memory);
    NatLength(p.lanes);
    Base64Length(salt);
    Base64Length(nonce);
    Base64Length(cipher);
    var s1 := "{\"v\":1,\"kdf\":\"argon2id\"" + ",\"t\":";
    Utf8Appends("{\"v\":1,\"kdf\":\"argon2id\"", ",\"t\":");
    Utf8Appends(s1, PrintNat(p.time));
    var s2 := s1 + PrintNat(p.time) + ",\"m\":";
    Utf8Appends(s1 + PrintNat(p.time), ",\"m\":");
    Utf8Appends(s2, PrintNat(p.memory));
    var s3 := s2 + PrintNat(p.memory) + ",\"p\":";
    Utf8Appends(s2 + PrintNat(p.memory), ",\"p\":");
    Utf8Appends(s3, PrintNat(p.lanes));
    var s4 := s3 + PrintNat(p.lanes) + ",\"salt\":\"";
    Utf8Appends(s3 + PrintNat(p.lanes), ",\"salt\":\"");
    Utf8Appends(s4, Base64.Encode64(salt));
    var s5 := s4 + Base64.Encode64(salt) + "\",\"nonce\":\"";
    Utf8Appends(s4 + Base64.Encode64(salt), "\",\"nonce\":\"");
    Utf8Appends(s5, Base64.Encode64(nonce));
    var s6 := s5 + Base64.Encode64(nonce) + "\",\"ct\":\"";
    Utf8Appends(s5 + Base64.Encode64(nonce), "\",\"ct\":\"");
    Utf8Appends(s6, Base64.Encode64(cipher));
    Utf8Appends(s6 + Base64.Encode64(cipher), "\"}");
  }

  // ---- What the two limits mean for reachable documents ----

  /** Seal accepts a document exactly when its text, encrypted and in base64, leaves room for the envelope. */
  lemma SealAcceptsExactlyWhenTextFits(entries: seq<Entry>, number: real -> string, sealing: Sealing)
    requires sealing.Of(entries, number)
    ensures sealing.Accepted() <==>
      CiphertextLength(Utf8Length(DocumentText(entries, number))) + EnvelopeBytes(sealing.params) <= MAX_BLOB_BYTES
  {
    hide Utf8Length, DocumentText, EnvelopeText, EnvelopeBytes;
    EnvelopeLength(sealing.params, sealing.salt, sealing.nonce, sealing.cipher);
  }

  /** A document reachable by edits opens again exactly when its text is within the size limit. */
  lemma ReachableOpensExactlyWhenItFits(edits: seq<Edit>, number: real -> string)
    ensures var entries := AfterEdits([], edits);
      Opens(Utf8Length(DocumentText(entries, number)), 1, entries) <==>
      Utf8Length(DocumentText(entries, number)) <= MAX_DOCUMENT_BYTES
  {
    ReachableIsValid(edits);
  }

  /** Whatever Seal accepts of a reachable document opens again: the blob's limit implies the document's. */
  lemma SealedAlwaysOpens(edits: seq<Edit>, number: real -> string, sealing: Sealing)
    requires sealing.Of(AfterEdits([], edits), number) && sealing.Accepted()
    ensures var entries := AfterEdits([], edits);
      Opens(Utf8Length(DocumentText(entries, number)), 1, entries)
  {
    hide Utf8Length, DocumentText, AfterEdits, Valid, EnvelopeBytes;
    SealAcceptsExactlyWhenTextFits(AfterEdits([], edits), number, sealing);
    ReachableOpensExactlyWhenItFits(edits, number);
  }

  // ---- A vault that the edits accept and the limits refuse ----

  function LongPassword(n: nat): string {
    if n == 0 then "" else "x" + LongPassword(n - 1)
  }

  function BigUpdate(n: nat): Update {
    Update(PrintNat(n), "n", "h", 22, "u", Some(LongPassword(MAX_PASSWORD_LENGTH)), None)
  }

  function BigEntry(n: nat): Entry {
    Merged(BigUpdate(n), None)
  }

  function BigEntries(n: nat): seq<Entry> {
    if n == 0 then [] else BigEntries(n - 1) + [BigEntry(n - 1)]
  }

  function BigEdits(n: nat): seq<Edit> {
    if n == 0 then [] else BigEdits(n - 1) + [Upsert(BigUpdate(n - 1))]
  }

  lemma {:induction false} LongPasswordLength(n: nat)
    ensures Utf8Length(LongPassword(n)) == n
  {
    if n > 0 {
      LongPasswordLength(n - 1);
      assert LongPassword(n)[1..] == LongPassword(n - 1);
    }
  }

  lemma {:induction false} DigitsAreTrimmedAndShort(n: nat)
    ensures PrintNat(n) != "" && Trimmed(PrintNat(n))
    ensures n < 1000 ==> Utf8Length(PrintNat(n)) <= 3
  {
    PrintedLeads(n);
    if n >= 10 {
      Utf8Appends(PrintNat(n / 10), [Digit(n % 10)]);
      DigitsAreTrimmedAndShort(n / 10);
      assert PrintNat(n)[0] == PrintNat(n / 10)[0];
      if n < 100 {
        assert Utf8Length(PrintNat(n / 10)) == 1;
      } else if n < 1000 {
        Utf8Appends(PrintNat(n / 100), [Digit(n / 10 % 10)]);
      }
    }
  }

  lemma {:induction false} NewNumberIsNew(n: nat, k: nat)
    requires n <= k
    ensures IndexOf(BigEntries(n), PrintNat(k)) < 0 && Lookup(BigEntries(n), PrintNat(k)).None?
  {
    IndexFinds(BigEntries(n), PrintNat(k));
    if n > 0 {
      NewNumberIsNew(n - 1, k);
      AppendedLookup(BigEntries(n - 1), BigEntry(n - 1), PrintNat(k));
      ScanPrinted(n - 1, "");
      ScanPrinted(k, "");
      assert PrintNat(k) + "" == PrintNat(k) && PrintNat(n - 1) + "" == PrintNat(n - 1);
    }
  }

  lemma BigUpsert(n: nat)
    requires n < MAX_ENTRIES && |BigEntries(n)| == n
    ensures Upserted(BigEntries(n), BigUpdate(n)) == Ok(BigEntries(n + 1))
  {
    hide Trim, Trimmed, Utf8Length, PrintNat, LongPassword;
    var u := BigUpdate(n);
    DigitsAreTrimmedAndShort(n);
    LongPasswordLength(MAX_PASSWORD_LENGTH);
    PlainFields();
    TrimFixesTrimmed(u.id);
    TrimFixesTrimmed(u.nickname);
    TrimFixesTrimmed(u.host);
    TrimFixesTrimmed(u.username);
    NewNumberIsNew(n, n);
  }

  lemma PlainFields()
    ensures Trimmed("n") && Trimmed("h") && Trimmed("u")
    ensures Utf8Length("n") == 1 && Utf8Length("h") == 1 && Utf8Length("u") == 1
  {
  }

  lemma {:induction false} EditsCompose(entries: seq<Entry>, a: seq<Edit>, e: Edit)
    ensures AfterEdits(entries, a + [e]) == Edited(AfterEdits(entries, a), e)
    decreases |a|
  {
    hide Edited;
    if a == [] {
      assert a + [e] == [e];
      assert [e][1..] == [];
    } else {
      assert (a + [e])[1..] == a[1..] + [e];
      EditsCompose(Edited(entries, a[0]), a[1..], e);
    }
  }

  lemma {:induction false} EntriesAppend(entries: seq<Entry>, e: Entry, number: real -> string)
    ensures EntriesText(entries + [e], number)
         == (if entries == [] then "" else EntriesText(entries, number) + ",") + EntryText(e, number)
  {
    hide EntryText;
    var all := entries + [e];
    if entries == [] {
      assert all == [e];
    } else {
      assert all[1..] == entries[1..] + [e];
      EntriesAppend(entries[1..], e, number);
      if |entries| == 1 {
        assert entries == [entries[0]];
      }
    }
  }

  lemma {:induction false} BigVault(n: nat, number: real -> string)
    requires n <= MAX_ENTRIES
    ensures AfterEdits([], BigEdits(n)) == BigEntries(n) && |BigEntries(n)| == n
    ensures Utf8Length(EntriesText(BigEntries(n), number)) >= n * (MAX_PASSWORD_LENGTH + 1)
  {
    hide Upserted, Utf8Length, LongPassword, EntryText;
    if n > 0 {
      BigVault(n - 1, number);
      EditsCompose([], BigEdits(n - 1), Upsert(BigUpdate(n - 1)));
      BigUpsert(n - 1);
      LongPasswordLength(MAX_PASSWORD_LENGTH);
      PlainFields();
      EntryHoldsPassword(BigEntry(n - 1), number);
      EntriesAppend(BigEntries(n - 1), BigEntry(n - 1), number);
      var fewer := EntriesText(BigEntries(n - 1), number);
      Utf8Appends(fewer, ",");
      Utf8Appends(fewer + ",", EntryText(BigEntry(n - 1), number));
    }
  }

  /**
   * The bounds on each entry do not bound the document: after 256 accepted edits it
   * is valid but its text is too long to open, and Seal refuses it under every key
   * and parameter, so it is never stored.
   */
  lemma FullVaultIsRefusedBySeal(number: real -> string, sealing: Sealing)
    requires sealing.Of(AfterEdits([], BigEdits(MAX_ENTRIES)), number)
    ensures var full := AfterEdits([], BigEdits(MAX_ENTRIES));
      Valid(full) && !Opens(Utf8Length(DocumentText(full, number)), 1, full) && !sealing.Accepted()
  {
    hide Utf8Length, Valid, AfterEdits, BigEntries, BigEdits, EntriesText, DocumentText, EnvelopeBytes;
    BigVault(MAX_ENTRIES, number);
    ReachableIsValid(BigEdits(MAX_ENTRIES));
    DocumentHoldsEntries(BigEntries(MAX_ENTRIES), number);
    SealAcceptsExactlyWhenTextFits(AfterEdits([], BigEdits(MAX_ENTRIES)), number, sealing);
  }

  // ---- The texts, letter by letter ----

  /** The five characters that HTML or JavaScript would read stand as their code in hexadecimal. */
  lemma CharLetters(c: char, s: string)
    ensures GoEscapeChar('<') == "\\u003c" && GoEscapeChar('>') == "\\u003e" && GoEscapeChar('&') == "\\u0026"
    ensures GoEscapeChar('\U{2028}') == "\\u2028" && GoEscapeChar('\U{2029}') == "\\u2029"
    ensures c !in "<>&\U{2028}\U{2029}" ==> GoEscapeChar(c) == EscapeChar(c)
    ensures GoEscape("") == "" && GoEscape([c] + s) == GoEscapeChar(c) + GoEscape(s)
  {
    assert ([c] + s)[1..] == s;
    if c == '<' || c == '>' || c == '&' || c == '\U{2028}' || c == '\U{2029}' {
      var all := "<>&\U{2028}\U{2029}";
      assert all[0] == '<' && all[1] == '>' && all[2] == '&' && all[3] == '\U{2028}' && all[4] == '\U{2029}';
    }
  }

  /** A named field, and one that is left out when it is empty. */
  lemma FieldLetters(name: string, value: string)
    ensures Named(name, value) == "\"" + name + "\":\"" + GoEscape(value) + "\""
    ensures Optional(name, "") == "" && (value != "" ==> Optional(name, value) == "," + Named(name, value))
  {
    hide GoEscape;
  }

  /** The fields of an entry in their order. */
  lemma EntryLetters(e: Entry, number: real -> string)
    ensures EntryText(e, number) ==
      "{" + Named("id", e.id) + "," + Named("nickname", e.nickname) + "," + Named("host", e.host) +
      ",\"port\":" + PrintInt(e.port) + Optional("username", e.username) + Optional("password", e.password) +
      PrefsText(e.terminal, number) + "}"
  {
    hide Named, Optional, PrintInt, PrefsText;
    Regroup("{", Named("id", e.id), ",", Named("nickname", e.nickname), Named("host", e.host), ",\"port\":",
            PrintInt(e.port), Optional("username", e.username), Optional("password", e.password));
  }

  lemma Regroup(a: string, b: string, c: string, d: string, e: string, f: string, g: string, h: string, i: string)
    ensures a + (b + c + d + c + e + f + g) + (h + i) == a + b + c + d + c + e + f + g + h + i
  {
    assert a + (b + c + d + c + e + f + g) == a + b + c + d + c + e + f + g;
  }

  lemma TerminalLetters(p: Prefs, number: real -> string)
    ensures PrefsText(None, number) == ""
    ensures PrefsText(Some(p), number) ==
      ",\"terminal\":{" + Named("fontFamily", p.fontFamily) + ",\"fontSize\":" + PrintInt(p.fontSize) +
      ",\"lineHeight\":" + number(p.lineHeight) + "," + Named("themeName", p.themeName) + "}"
  {
    hide Named, PrintInt;
  }

  /** Entries in their order, with commas between them. */
  lemma DocumentLetters(first: Entry, rest: seq<Entry>, number: real -> string)
    ensures DocumentText(rest, number) == "{\"v\":1,\"entries\":[" + EntriesText(rest, number) + "]}"
    ensures EntriesText([], number) == ""
    ensures EntriesText([first] + rest, number) ==
      EntryText(first, number) + if rest == [] then "" else "," + EntriesText(rest, number)
  {
    hide EntryText;
    assert ([first] + rest)[1..] == rest;
    if rest == [] {
      assert [first] + rest == [first];
    }
  }

  lemma EnvelopeLetters(p: Params, salt: seq<byte>, nonce: seq<byte>, cipher: seq<byte>)
    ensures EnvelopeText(p, salt, nonce, cipher) ==
      "{\"v\":1,\"kdf\":\"argon2id\",\"t\":" + PrintNat(p.time) + ",\"m\":" + PrintNat(p.memory) + ",\"p\":" +
      PrintNat(p.lanes) + ",\"salt\":\"" + Base64.Encode64(salt) + "\",\"nonce\":\"" + Base64.Encode64(nonce) +
      "\",\"ct\":\"" + Base64.Encode64(cipher) + "\"}"
  {
    hide PrintNat, Base64.Encode64;
    assert "{\"v\":1,\"kdf\":\"argon2id\"" + ",\"t\":" == "{\"v\":1,\"kdf\":\"argon2id\",\"t\":";
  }
}
