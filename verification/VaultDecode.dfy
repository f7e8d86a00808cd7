/** Reading the JSON text of a vault document back. */
module VaultDecode {
  import opened Frames
  import opened Json
  import opened Trimming
  import opened VaultDocument
  import opened VaultText

  // The reader takes the layout Go prints, fields in their order and the empty ones left
  // out, with every string escape. What is printed is read as the same document, so what
  // Seal accepts comes back whole.

  // ---- The reader ----

  /** The text after this prefix. */
  function Eat(prefix: string, s: string): Option<string> {
    if prefix <= s then Some(s[|prefix|..]) else None
  }

  function Key(name: string): string {
    "\"" + name + "\":\""
  }

  function ReadNamed(name: string, s: string): Option<Parsed<string>> {
    var body :- Eat(Key(name), s);
    ParseBody(body)
  }

  /** A field that is left out is empty. */
  function ReadOptional(name: string, s: string): Option<Parsed<string>> {
    if "," + Key(name) <= s then ReadNamed(name, s[1..]) else Some(Parsed("", s))
  }

  function ReadWhere(s: string): Option<Parsed<Entry>> {
    var id :- ReadNamed("id", s);
    var s1 :- Eat(",", id.rest);
    var nickname :- ReadNamed("nickname", s1);
    var s2 :- Eat(",", nickname.rest);
    var host :- ReadNamed("host", s2);
    var s3 :- Eat(",\"port\":", host.rest);
    var port :- ParseInt(s3);
    Some(Parsed(Entry(id.value, nickname.value, host.value, port.value, "", "", None), port.rest))
  }

  function ReadWho(e: Entry, s: string): Option<Parsed<Entry>> {
    var username :- ReadOptional("username", s);
    var password :- ReadOptional("password", username.rest);
    Some(Parsed(e.(username := username.value, password := password.value), password.rest))
  }

  function ReadPrefs(s: string, read: string -> Option<Parsed<real>>): Option<Parsed<Prefs>> {
    var fontFamily :- ReadNamed("fontFamily", s);
    var s1 :- Eat(",\"fontSize\":", fontFamily.rest);
    var fontSize :- ParseInt(s1);
    var s2 :- Eat(",\"lineHeight\":", fontSize.rest);
    var lineHeight :- read(s2);
    var s3 :- Eat(",", lineHeight.rest);
    var themeName :- ReadNamed("themeName", s3);
    var rest :- Eat("}", themeName.rest);
    Some(Parsed(Prefs(fontFamily.value, fontSize.value, lineHeight.value, themeName.value), rest))
  }

  function ReadTerminal(e: Entry, s: string, read: string -> Option<Parsed<real>>): Option<Parsed<Entry>> {
    var prefs := Eat(",\"terminal\":{", s);
    if prefs.None? then Some(Parsed(e, s))
    else
      var terminal :- ReadPrefs(prefs.value, read);
      Some(Parsed(e.(terminal := Some(terminal.value)), terminal.rest))
  }

  function ReadEntry(s: string, read: string -> Option<Parsed<real>>): Option<Parsed<Entry>> {
    var s1 :- Eat("{", s);
    var target :- ReadWhere(s1);
    var who :- ReadWho(target.value, target.rest);
    var all :- ReadTerminal(who.value, who.rest, read);
    var rest :- Eat("}", all.rest);
    Some(Parsed(all.value, rest))
  }

  /** Entries between commas up to the end of the document. */
  function ReadEntries(s: string, read: string -> Option<Parsed<real>>): Option<seq<Entry>>
    decreases |s|
  {
    var e :- ReadEntry(s, read);
    if e.rest == "]}" then Some([e.value])
    else
      var next :- Eat(",", e.rest);
      if |next| >= |s| then None
      else
        var more :- ReadEntries(next, read);
        Some([e.value] + more)
  }

  function ReadDocument(s: string, read: string -> Option<Parsed<real>>): Option<seq<Entry>> {
    var entries :- Eat("{\"v\":1,\"entries\":[", s);
    if entries == "]}" then Some([]) else ReadEntries(entries, read)
  }

  /** The text of this number is read back, whatever field follows. */
  ghost predicate ReadsBackOne(x: real, number: real -> string, read: string -> Option<Parsed<real>>) {
    forall rest :: read(number(x) + "," + rest) == Some(Parsed(x, "," + rest))
  }

  /** The text of every line height in the document is read back. */
  ghost predicate ReadsBack(entries: seq<Entry>, number: real -> string, read: string -> Option<Parsed<real>>) {
    forall e :: e in entries && e.terminal.Some? ==> ReadsBackOne(e.terminal.value.lineHeight, number, read)
  }

  // ---- Round trip, piece by piece ----

  lemma EatIs(prefix: string, rest: string)
    ensures Eat(prefix, prefix + rest) == Some(rest)
  {
  }

  lemma CharComesBack(c: char, rest: string)
    ensures ParseChar(GoEscapeChar(c) + rest) == Some(Parsed(c, rest))
    ensures GoEscapeChar(c) != "" && GoEscapeChar(c)[0] != '\"'
  {
    hide EscapeChar, ParseChar, LowHex;
    if c == '<' || c == '>' || c == '&' || c == 0x2028 as char || c == 0x2029 as char {
      HexComesBack(c, rest);
    } else {
      ParsePrintedChar(c, rest);
    }
  }

  lemma HexComesBack(c: char, rest: string)
    requires c as int < 65536
    ensures ParseChar("\\u" + LowHex(c as int) + rest) == Some(Parsed(c, rest))
  {
    hide HexDigit, HexValue;
    var n, text := c as int, "\\u" + LowHex(c as int) + rest;
    assert text[1..][1..] == LowHex(n) + rest;
    assert (LowHex(n) + rest)[4..] == rest;
    DigitsComeBack(n / 4096, n / 256 % 16, n / 16 % 16, n % 16);
    FourDigits(n);
  }

  lemma DigitsComeBack(a: nat, b: nat, c: nat, d: nat)
    requires a < 16 && b < 16 && c < 16 && d < 16
    ensures HexValue(HexDigit(a)) == Some(a) && HexValue(HexDigit(b)) == Some(b)
    ensures HexValue(HexDigit(c)) == Some(c) && HexValue(HexDigit(d)) == Some(d)
  {
  }

  lemma FourDigits(n: nat)
    requires n < 65536
    ensures ((n / 4096 * 16 + n / 256 % 16) * 16 + n / 16 % 16) * 16 + n % 16 == n
  {
    assert n / 4096 == n / 256 / 16 && n / 4096 * 16 + n / 256 % 16 == n / 256;
    assert n / 256 == n / 16 / 16 && n / 256 * 16 + n / 16 % 16 == n / 16;
  }

  lemma {:induction false} BodyComesBack(s: string, rest: string)
    ensures ParseBody(GoEscape(s) + ("\"" + rest)) == Some(Parsed(s, rest))
  {
    hide GoEscapeChar, ParseChar;
    var text := GoEscape(s) + ("\"" + rest);
    if s == "" {
      assert text[1..] == rest;
    } else {
      var tail := GoEscape(s[1..]) + ("\"" + rest);
      assert text == GoEscapeChar(s[0]) + tail;
      CharComesBack(s[0], tail);
      BodyComesBack(s[1..], rest);
      assert s == [s[0]] + s[1..];
    }
  }

  lemma NamedComesBack(name: string, value: string, rest: string)
    ensures ReadNamed(name, Named(name, value) + rest) == Some(Parsed(value, rest))
    ensures Key(name) <= Named(name, value) + rest
  {
    hide GoEscape, ParseBody;
    var body := GoEscape(value) + ("\"" + rest);
    assert Named(name, value) + rest == Key(name) + body;
    EatIs(Key(name), body);
    BodyComesBack(value, rest);
  }

  lemma OptionalComesBack(name: string, value: string, rest: string)
    requires value == "" ==> !("," + Key(name) <= rest)
    ensures ReadOptional(name, Optional(name, value) + rest) == Some(Parsed(value, rest))
  {
    hide ReadNamed, Named, Key;
    if value == "" {
      assert Optional(name, value) + rest == rest;
    } else {
      NamedComesBack(name, value, rest);
      var text := Optional(name, value) + rest;
      assert text == "," + (Named(name, value) + rest);
      assert text[1..] == Named(name, value) + rest;
    }
  }

  lemma WhereComesBack(e: Entry, rest: string)
    requires rest == "" || !IsDigit(rest[0])
    ensures ReadWhere(WhereText(e) + rest)
         == Some(Parsed(Entry(e.id, e.nickname, e.host, e.port, "", "", None), rest))
  {
    hide Named, ReadNamed, ParseInt, PrintInt, Eat;
    var port := PrintInt(e.port) + rest;
    var host := Named("host", e.host) + (",\"port\":" + port);
    var nickname := Named("nickname", e.nickname) + ("," + host);
    assert WhereText(e) + rest == Named("id", e.id) + ("," + nickname);
    NamedComesBack("id", e.id, "," + nickname);
    EatIs(",", nickname);
    NamedComesBack("nickname", e.nickname, "," + host);
    EatIs(",", host);
    NamedComesBack("host", e.host, ",\"port\":" + port);
    EatIs(",\"port\":", port);
    ParsePrintedInt(e.port, rest);
  }

  /** What may follow the two optional fields: the end of the entry or its preferences. */
  predicate EndsWho(rest: string) {
    rest != "" && (rest[0] == '}' || (|rest| > 2 && rest[0] == ',' && rest[2] == 't'))
  }

  lemma NoKeyHere(name: string, rest: string)
    requires name != "" && (rest == "" || rest[0] != ',' || |rest| <= 2 || rest[2] != name[0])
    ensures !("," + Key(name) <= rest)
  {
    assert ("," + Key(name))[0] == ',' && ("," + Key(name))[2] == name[0];
  }

  lemma WhoComesBack(e: Entry, username: string, password: string, rest: string)
    requires EndsWho(rest)
    ensures ReadWho(e, WhoText(e.(username := username, password := password)) + rest)
         == Some(Parsed(e.(username := username, password := password), rest))
  {
    hide ReadOptional, Optional, Key, EndsWho;
    var tail := Optional("password", password) + rest;
    assert WhoText(e.(username := username, password := password)) + rest == Optional("username", username) + tail;
    PasswordLeads(password, rest);
    OptionalComesBack("password", password, rest);
    OptionalComesBack("username", username, tail);
  }

  lemma PasswordLeads(password: string, rest: string)
    requires EndsWho(rest)
    ensures !("," + Key("password") <= rest) && !("," + Key("username") <= Optional("password", password) + rest)
  {
    hide Key, GoEscape;
    var tail := Optional("password", password) + rest;
    if password == "" {
      assert tail == rest;
    } else {
      assert tail[0] == ',' && tail[2] == 'p';
    }
    NoKeyHere("password", rest);
    NoKeyHere("username", tail);
  }

  /** The text of the height and the theme, and what follows. */
  function HeightBody(p: Prefs, number: real -> string, rest: string): string {
    ",\"lineHeight\":" + (number(p.lineHeight) + "," + (Named("themeName", p.themeName) + ("}" + rest)))
  }

  /** The text of the preferences after their key, and what follows. */
  function PrefsBody(p: Prefs, number: real -> string, rest: string): string {
    Named("fontFamily", p.fontFamily) + (",\"fontSize\":" + (PrintInt(p.fontSize) + HeightBody(p, number, rest)))
  }

  lemma Regroup(a: string, b: string, c: string, d: string)
    ensures a + b + c + d == a + (b + (c + d))
  {
  }

  lemma PrefsTextIs(p: Prefs, number: real -> string, rest: string)
    ensures PrefsText(Some(p), number) + rest == ",\"terminal\":{" + PrefsBody(p, number, rest)
  {
    hide Named, PrintInt;
    var font, size := Named("fontFamily", p.fontFamily), PrintInt(p.fontSize);
    var height, theme := number(p.lineHeight), Named("themeName", p.themeName);
    var key, front := ",\"terminal\":{", ",\"terminal\":{" + font + ",\"fontSize\":" + size;
    Regroup(front + ",\"lineHeight\":" + height + ",", theme, "}", rest);
    Regroup(front, ",\"lineHeight\":", height + ",", theme + ("}" + rest));
    Regroup(key, font, ",\"fontSize\":", size + HeightBody(p, number, rest));
  }

  lemma HeightComesBack(p: Prefs, number: real -> string, read: string -> Option<Parsed<real>>, rest: string)
    requires ReadsBackOne(p.lineHeight, number, read)
    ensures var theme := Named("themeName", p.themeName) + ("}" + rest);
      Eat(",\"lineHeight\":", HeightBody(p, number, rest)) == Some(number(p.lineHeight) + "," + theme) &&
      read(number(p.lineHeight) + "," + theme) == Some(Parsed(p.lineHeight, "," + theme)) &&
      Eat(",", "," + theme) == Some(theme) && ReadNamed("themeName", theme) == Some(Parsed(p.themeName, "}" + rest)) &&
      Eat("}", "}" + rest) == Some(rest)
  {
    hide Named, ReadNamed, Eat;
    var theme := Named("themeName", p.themeName) + ("}" + rest);
    EatIs(",\"lineHeight\":", number(p.lineHeight) + "," + theme);
    EatIs(",", theme);
    NamedComesBack("themeName", p.themeName, "}" + rest);
    EatIs("}", rest);
  }

  lemma PrefsComeBack(p: Prefs, number: real -> string, read: string -> Option<Parsed<real>>, rest: string)
    requires ReadsBackOne(p.lineHeight, number, read)
    ensures ReadPrefs(PrefsBody(p, number, rest), read) == Some(Parsed(p, rest))
  {
    HeightLeads(p, number, rest);
    hide Named, ReadNamed, ParseInt, PrintInt, Eat, ReadsBackOne, HeightBody;
    var size := PrintInt(p.fontSize) + HeightBody(p, number, rest);
    NamedComesBack("fontFamily", p.fontFamily, ",\"fontSize\":" + size);
    EatIs(",\"fontSize\":", size);
    ParsePrintedInt(p.fontSize, HeightBody(p, number, rest));
    HeightComesBack(p, number, read, rest);
  }

  lemma HeightLeads(p: Prefs, number: real -> string, rest: string)
    ensures HeightBody(p, number, rest) != "" && HeightBody(p, number, rest)[0] == ','
  {
    hide Named;
  }

  lemma TerminalComesBack(e: Entry, terminal: Option<Prefs>, number: real -> string,
                          read: string -> Option<Parsed<real>>, rest: string)
    requires terminal.Some? ==> ReadsBackOne(terminal.value.lineHeight, number, read)
    requires e.terminal.None?
    ensures EndsWho(PrefsText(terminal, number) + ("}" + rest))
    ensures ReadTerminal(e, PrefsText(terminal, number) + ("}" + rest), read)
         == Some(Parsed(e.(terminal := terminal), "}" + rest))
  {
    hide ReadPrefs, PrefsBody;
    if terminal.None? {
      assert PrefsText(terminal, number) + ("}" + rest) == "}" + rest;
    } else {
      PrefsComeBack(terminal.value, number, read, "}" + rest);
      PrefsTextIs(terminal.value, number, "}" + rest);
      EatIs(",\"terminal\":{", PrefsBody(terminal.value, number, "}" + rest));
      hide PrefsText;
      assert e.(terminal := Some(terminal.value)) == e.(terminal := terminal);
    }
  }

  lemma EntryComesBack(e: Entry, number: real -> string, read: string -> Option<Parsed<real>>, rest: string)
    requires e.terminal.Some? ==> ReadsBackOne(e.terminal.value.lineHeight, number, read)
    ensures ReadEntry(EntryText(e, number) + rest, read) == Some(Parsed(e, rest))
  {
    hide WhereText, WhoText, PrefsText, ReadWhere, ReadWho, ReadTerminal, Eat, ReadsBackOne;
    var bare := e.(username := "", password := "", terminal := None);
    var terminal := PrefsText(e.terminal, number) + ("}" + rest);
    var who := WhoText(e) + terminal;
    assert EntryText(e, number) + rest == "{" + (WhereText(e) + who);
    EatIs("{", WhereText(e) + who);
    TerminalComesBack(e.(terminal := None), e.terminal, number, read, rest);
    WhoLeads(e, terminal);
    WhereComesBack(e, who);
    WhoComesBack(bare, e.username, e.password, terminal);
    SameWho(e, bare.(username := e.username, password := e.password));
    EatIs("}", rest);
  }

  lemma WhoLeads(e: Entry, rest: string)
    requires EndsWho(rest)
    ensures WhoText(e) + rest != "" && !IsDigit((WhoText(e) + rest)[0])
  {
    hide Named;
    assert WhoText(e) == "" ==> WhoText(e) + rest == rest;
  }

  lemma SameWho(a: Entry, b: Entry)
    requires a.username == b.username && a.password == b.password
    ensures WhoText(a) == WhoText(b)
  {
  }

  lemma EachReadsBack(entries: seq<Entry>, number: real -> string, read: string -> Option<Parsed<real>>)
    requires ReadsBack(entries, number, read) && entries != []
    ensures entries[0].terminal.Some? ==> ReadsBackOne(entries[0].terminal.value.lineHeight, number, read)
    ensures ReadsBack(entries[1..], number, read)
  {
    hide ReadsBackOne;
  }

  lemma {:induction false} EntriesComeBack(entries: seq<Entry>, number: real -> string,
                                           read: string -> Option<Parsed<real>>)
    requires ReadsBack(entries, number, read) && entries != []
    ensures ReadEntries(EntriesText(entries, number) + "]}", read) == Some(entries)
    decreases |entries|
  {
    hide EntryText, ReadEntry, ReadsBack, Eat;
    EachReadsBack(entries, number, read);
    var text := EntriesText(entries, number) + "]}";
    if |entries| == 1 {
      assert entries == [entries[0]];
      EntryComesBack(entries[0], number, read, "]}");
    } else {
      var next := EntriesText(entries[1..], number) + "]}";
      assert text == EntryText(entries[0], number) + ("," + next);
      EntryComesBack(entries[0], number, read, "," + next);
      EatIs(",", next);
      EntriesComeBack(entries[1..], number, read);
      assert entries == [entries[0]] + entries[1..];
    }
  }

  /** What is printed is read as the same document. */
  lemma DocumentRoundTrip(entries: seq<Entry>, number: real -> string, read: string -> Option<Parsed<real>>)
    requires ReadsBack(entries, number, read)
    ensures ReadDocument(DocumentText(entries, number), read) == Some(entries)
  {
    hide EntriesText, ReadEntries, ReadsBack, Eat;
    var rest := EntriesText(entries, number) + "]}";
    assert DocumentText(entries, number) == "{\"v\":1,\"entries\":[" + rest;
    EatIs("{\"v\":1,\"entries\":[", rest);
    if entries == [] {
      NoEntries(number);
    } else {
      EntriesLead(entries, number);
      EntriesComeBack(entries, number, read);
    }
  }

  lemma NoEntries(number: real -> string)
    ensures EntriesText([], number) == ""
  {
  }

  lemma EntriesLead(entries: seq<Entry>, number: real -> string)
    requires entries != []
    ensures EntriesText(entries, number) != "" && EntriesText(entries, number)[0] == '{'
  {
    hide WhereText, WhoText, PrefsText;
  }

  /**
   * Whatever Seal accepts of a reachable document comes back: its text is read as the
   * same document, and that document passes every check on opening.
   */
  lemma SealedComesBack(edits: seq<Edit>, number: real -> string, read: string -> Option<Parsed<real>>,
                        sealing: Sealing)
    requires ReadsBack(AfterEdits([], edits), number, read)
    requires sealing.Of(AfterEdits([], edits), number) && sealing.Accepted()
    ensures var entries := AfterEdits([], edits);
      var text := DocumentText(entries, number);
      ReadDocument(text, read) == Some(entries) && Opens(Utf8Length(text), 1, entries)
  {
    hide Utf8Length, DocumentText, AfterEdits, Valid, ReadDocument, ReadsBack, Sealing.Of, Sealing.Accepted;
    DocumentRoundTrip(AfterEdits([], edits), number, read);
    SealedAlwaysOpens(edits, number, sealing);
  }

  // ---- A printer and a reader of line heights ----

  /** Zero to two decimals, as few as it takes. */
  function HeightText(x: real): string {
    var h: nat := if x < 0.0 then 0 else (x * 100.0).Floor;
    PrintNat(h / 100) + DecimalText(h / 10 % 10, h % 10)
  }

  function DecimalText(c: nat, d: nat): string
    requires c < 10 && d < 10
  {
    if c == 0 && d == 0 then "" else if d == 0 then "." + [Digit(c)] else "." + [Digit(c), Digit(d)]
  }

  /** The digits after a point, as a number and its scale. */
  function ScanFraction(s: string, value: nat, scale: nat): (nat, nat, string)
    decreases |s|
  {
    if s == "" || !IsDigit(s[0]) then (value, scale, s)
    else ScanFraction(s[1..], value * 10 + s[0] as int - 48, scale * 10)
  }

  /** A decimal with any number of digits after the point. */
  function ReadHeight(s: string): Option<Parsed<real>> {
    var n :- ParseNat(s);
    if n.rest == "" || n.rest[0] != '.' then Some(Parsed(n.value as real, n.rest))
    else
      var (value, scale, rest) := ScanFraction(n.rest[1..], 0, 1);
      if scale <= 1 then None else Some(Parsed(n.value as real + value as real / scale as real, rest))
  }

  lemma ParsePrintedNat(n: nat, rest: string)
    requires rest == "" || !IsDigit(rest[0])
    ensures ParseNat(PrintNat(n) + rest) == Some(Parsed(n, rest))
  {
    hide PrintNat, ParseNat;
    PrintedLeads(n);
    ParsePrintedInt(n, rest);
  }

  lemma OneDecimal(d: nat, rest: string)
    requires d < 10 && (rest == "" || !IsDigit(rest[0]))
    ensures ScanFraction([Digit(d)] + rest, 0, 1) == (d, 10, rest)
  {
    assert ([Digit(d)] + rest)[1..] == rest;
  }

  lemma TwoDecimals(c: nat, d: nat, rest: string)
    requires c < 10 && d < 10 && (rest == "" || !IsDigit(rest[0]))
    ensures ScanFraction([Digit(c), Digit(d)] + rest, 0, 1) == (c * 10 + d, 100, rest)
  {
    assert ([Digit(c), Digit(d)] + rest)[1..] == [Digit(d)] + rest;
    assert ([Digit(d)] + rest)[1..] == rest;
    assert ScanFraction([Digit(d)] + rest, c, 10) == (c * 10 + d, 100, rest);
  }

  lemma HundredthsReadBack(h: nat)
    ensures ReadsBackOne(h as real / 100.0, HeightText, ReadHeight)
  {
    var x := h as real / 100.0;
    assert (x * 100.0).Floor == h;
    forall rest: string ensures ReadHeight(HeightText(x) + "," + rest) == Some(Parsed(x, "," + rest)) {
      HundredthReadsBack(h, "," + rest);
      assert HeightText(x) + "," + rest == HeightText(x) + ("," + rest);
    }
  }

  lemma HundredthReadsBack(h: nat, rest: string)
    requires rest != "" && rest[0] == ','
    ensures ReadHeight(HeightText(h as real / 100.0) + rest) == Some(Parsed(h as real / 100.0, rest))
  {
    hide ReadHeight, DecimalText, PrintNat;
    DecimalParts(h);
    DecimalReadsBack(h / 100, h / 10 % 10, h % 10, rest);
  }

  lemma DecimalReadsBack(n: nat, c: nat, d: nat, rest: string)
    requires c < 10 && d < 10 && rest != "" && rest[0] == ','
    ensures ReadHeight(PrintNat(n) + DecimalText(c, d) + rest)
         == Some(Parsed(n as real + (c * 10 + d) as real / 100.0, rest))
  {
    hide ReadHeight, PrintNat;
    if c == 0 && d == 0 {
      WholeReadsBack(n, rest);
      assert PrintNat(n) + "" == PrintNat(n);
    } else if d == 0 {
      OneDecimal(c, rest);
      FractionReadsBack(n, [Digit(c)], c, 10, rest);
      Tenths(c);
    } else {
      TwoDecimals(c, d, rest);
      FractionReadsBack(n, [Digit(c), Digit(d)], c * 10 + d, 100, rest);
    }
  }

  lemma Tenths(c: nat)
    ensures (c * 10) as real / 100.0 == c as real / 10.0
  {
  }

  lemma DecimalParts(h: nat)
    ensures var x := h as real / 100.0;
      x >= 0.0 && (x * 100.0).Floor == h &&
      (h / 100) as real + (h / 10 % 10 * 10 + h % 10) as real / 100.0 == x
  {
    assert h == 100 * (h / 100) + 10 * (h / 10 % 10) + h % 10;
  }

  lemma WholeReadsBack(n: nat, rest: string)
    requires rest != "" && rest[0] == ','
    ensures ReadHeight(PrintNat(n) + rest) == Some(Parsed(n as real, rest))
  {
    hide PrintNat, ParseNat, ScanFraction;
    ParsePrintedNat(n, rest);
  }

  lemma FractionReadsBack(n: nat, digits: string, value: nat, scale: nat, rest: string)
    requires ScanFraction(digits + rest, 0, 1) == (value, scale, rest) && scale > 1
    ensures ReadHeight(PrintNat(n) + ("." + digits) + rest)
         == Some(Parsed(n as real + value as real / scale as real, rest))
  {
    hide PrintNat, ParseNat, ScanFraction;
    var tail := "." + (digits + rest);
    ParsePrintedNat(n, tail);
    assert PrintNat(n) + ("." + digits) + rest == PrintNat(n) + tail;
    assert tail[1..] == digits + rest;
  }

  /** Every line height is a whole number of twentieths, as the page's choices are. */
  predicate InSteps(entries: seq<Entry>) {
    forall i :: 0 <= i < |entries| && entries[i].terminal.Some? ==> IsStep(entries[i].terminal.value.lineHeight)
  }

  predicate IsStep(x: real) {
    x >= 0.0 && (x * 20.0).Floor as real == x * 20.0
  }

  lemma StepsReadBack(entries: seq<Entry>)
    requires InSteps(entries)
    ensures ReadsBack(entries, HeightText, ReadHeight)
  {
    hide HeightText, ReadHeight, ReadsBackOne;
    forall e | e in entries && e.terminal.Some?
      ensures ReadsBackOne(e.terminal.value.lineHeight, HeightText, ReadHeight)
    {
      var x := e.terminal.value.lineHeight;
      assert IsStep(x);
      var h: nat := 5 * (x * 20.0).Floor;
      assert x == h as real / 100.0;
      HundredthsReadBack(h);
    }
  }

  /** So every sealed document whose heights are steps comes back, with nothing assumed of printer and reader. */
  lemma SealedStepsComeBack(edits: seq<Edit>, sealing: Sealing)
    requires InSteps(AfterEdits([], edits))
    requires sealing.Of(AfterEdits([], edits), HeightText) && sealing.Accepted()
    ensures var entries := AfterEdits([], edits);
      var text := DocumentText(entries, HeightText);
      ReadDocument(text, ReadHeight) == Some(entries) && Opens(Utf8Length(text), 1, entries)
  {
    hide Sealing.Of, Sealing.Accepted, AfterEdits, ReadsBack, InSteps, Valid, DocumentText, ReadDocument, Utf8Length;
    StepsReadBack(AfterEdits([], edits));
    SealedComesBack(edits, HeightText, ReadHeight, sealing);
  }

  /** One saved entry with preferences: its height is printed as 1.05 and the document is read back. */
  lemma OneHeightComesBack() returns (edits: seq<Edit>, entries: seq<Entry>)
    ensures entries == AfterEdits([], edits) && |entries| == 1
    ensures entries[0].terminal.Some? && entries[0].terminal.value.lineHeight == 1.05 && InSteps(entries)
    ensures HeightText(1.05) == "1.05" && ReadDocument(DocumentText(entries, HeightText), ReadHeight) == Some(entries)
  {
    var e := Entry("n", "n", "h", 22, "u", "", Some(Prefs("monospace", 14, 1.05, "dark")));
    edits, entries := [Upsert(FullUpdate(e))], [e];
    HeightIsStep();
    OneEdit(e);
    hide ReadDocument, DocumentText, AfterEdits, HeightText, ReadHeight, IsStep;
    StepsReadBack(entries);
    DocumentRoundTrip(entries, HeightText, ReadHeight);
  }

  lemma HeightIsStep()
    ensures IsStep(1.05) && HeightText(1.05) == "1.05"
    ensures PrefsInRange(Prefs("monospace", 14, 1.05, "dark"))
  {
    assert (1.05 * 20.0).Floor == 21 && (1.05 * 100.0).Floor == 105 && (21.0 + 0.5).Floor == 21;
    assert PrintNat(1) == "1";
  }

  lemma OneEdit(e: Entry)
    requires e.id == "n" && e.nickname == "n" && e.host == "h" && e.port == 22 && e.username == "u"
    requires e.password == "" && (e.terminal.Some? ==> PrefsInRange(e.terminal.value))
    ensures AfterEdits([], [Upsert(FullUpdate(e))]) == [e]
  {
    hide PrefsInRange, Trimmed, Upserted;
    PlainFields();
    ValidIsCanonical(e);
    assert Utf8Length("") == 0;
    var edits := [Upsert(FullUpdate(e))];
    assert edits[1..] == [];
  }
}
