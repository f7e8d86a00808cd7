/**
 * The part of JSON (RFC 8259) the frames use: one flat array of integers,
 * strings and null, printed without white space, and a parser of that part.
 *
 * A parser takes what it recognises off the front of the text and returns the
 * rest. So the lemmas have one shape: what was printed, followed by any text
 * that cannot continue it, parses back to the value and leaves that text; and
 * the round trip of a whole array follows item by item.
 */
module Json {
  import opened Frames

  datatype Token = Int(n: int) | Str(s: string) | Null

  /** What a parser found first, and the text after it. */
  datatype Parsed<+T> = Parsed(value: T, rest: string)

  /** Length in UTF-16 code units, which is what the relay's length tests count. */
  function Utf16Length(s: string): nat {
    if s == "" then 0 else (if s[0] as int >= 0x10000 then 2 else 1) + Utf16Length(s[1..])
  }

  /** Length in UTF-8 bytes, which is what lengths on the Go side count. */
  function Utf8Length(s: string): nat {
    if s == "" then 0
    else
      var n := s[0] as int;
      (if n < 0x80 then 1 else if n < 0x800 then 2 else if n < 0x10000 then 3 else 4) + Utf8Length(s[1..])
  }

  lemma {:induction false} Utf8Appends(a: string, b: string)
    ensures Utf8Length(a + b) == Utf8Length(a) + Utf8Length(b)
  {
    if a == "" {
      assert a + b == b;
    } else {
      Utf8Appends(a[1..], b);
      assert (a + b)[1..] == a[1..] + b;
    }
  }

  // ---- Printing ----

  function Digit(d: nat): char
    requires d < 10
  {
    (d + 48) as char
  }

  function PrintNat(n: nat): (s: string) {
    if n < 10 then [Digit(n)] else PrintNat(n / 10) + [Digit(n % 10)]
  }

  function PrintInt(n: int): string {
    if n < 0 then "-" + PrintNat(-n) else PrintNat(n)
  }

  function HexDigit(d: nat): char
    requires d < 16
  {
    if d < 10 then (d + 48) as char else (d + 87) as char
  }

  function EscapeChar(c: char): string {
    if c == '\"' then "\\\""
    else if c == '\\' then "\\\\"
    else if c == 8 as char then "\\b"
    else if c == '\t' then "\\t"
    else if c == '\n' then "\\n"
    else if c == 12 as char then "\\f"
    else if c == '\r' then "\\r"
    else if c < ' ' then ['\\', 'u', '0', '0', HexDigit(c as int / 16), HexDigit(c as int % 16)]
    else [c]
  }

  function Escape(s: string): string {
    if s == "" then "" else EscapeChar(s[0]) + Escape(s[1..])
  }

  function PrintToken(t: Token): string {
    match t
    case Int(n) => PrintInt(n)
    case Str(s) => "\"" + Escape(s) + "\""
    case Null => "null"
  }

  function PrintItems(tokens: seq<Token>): string {
    if tokens == [] then ""
    else if |tokens| == 1 then PrintToken(tokens[0])
    else PrintToken(tokens[0]) + "," + PrintItems(tokens[1..])
  }

  function PrintArray(tokens: seq<Token>): string {
    "[" + PrintItems(tokens) + "]"
  }

  // ---- Parsing ----

  predicate IsDigit(c: char) {
    '0' <= c <= '9'
  }

  function ScanDigits(s: string, value: nat): Parsed<nat>
    decreases |s|
  {
    if s == "" || !IsDigit(s[0]) then Parsed(value, s)
    else ScanDigits(s[1..], value * 10 + s[0] as int - 48)
  }

  /** A number has at least one digit and no leading zero. */
  function ParseNat(s: string): Option<Parsed<nat>> {
    if s == "" || !IsDigit(s[0]) then None
    else if s[0] == '0' then (if |s| > 1 && IsDigit(s[1]) then None else Some(Parsed(0, s[1..])))
    else Some(ScanDigits(s, 0))
  }

  function ParseInt(s: string): Option<Parsed<int>> {
    if s != "" && s[0] == '-' then
      var p := ParseNat(s[1..]);
      if p.None? then None
      else
        var n: int := p.value.value;
        Some(Parsed(-n, p.value.rest))
    else
      var p := ParseNat(s);
      if p.None? then None else Some(Parsed(p.value.value, p.value.rest))
  }

  function HexValue(c: char): Option<nat> {
    if IsDigit(c) then Some(c as int - 48)
    else if 'a' <= c <= 'f' then Some(c as int - 87)
    else if 'A' <= c <= 'F' then Some(c as int - 55)
    else None
  }

  /** Four hex digits that name a character of their own; surrogates do not. */
  function ParseHex(s: string): Option<Parsed<char>> {
    if |s| < 4 then None
    else
      var a, b, c, d := HexValue(s[0]), HexValue(s[1]), HexValue(s[2]), HexValue(s[3]);
      if a.None? || b.None? || c.None? || d.None? then None
      else
        var code := ((a.value * 16 + b.value) * 16 + c.value) * 16 + d.value;
        if code < 0xD800 || 0xE000 <= code < 0x10000 then Some(Parsed(code as char, s[4..])) else None
  }

  /** What follows a backslash. */
  function ParseEscape(s: string): Option<Parsed<char>> {
    if s == "" then None
    else if s[0] == 'u' then ParseHex(s[1..])
    else if s[0] == '\"' || s[0] == '\\' || s[0] == '/' then Some(Parsed(s[0], s[1..]))
    else if s[0] == 'b' then Some(Parsed(8 as char, s[1..]))
    else if s[0] == 't' then Some(Parsed('\t', s[1..]))
    else if s[0] == 'n' then Some(Parsed('\n', s[1..]))
    else if s[0] == 'f' then Some(Parsed(12 as char, s[1..]))
    else if s[0] == 'r' then Some(Parsed('\r', s[1..]))
    else None
  }

  /** One character of a string body, escaped or not. */
  function ParseChar(s: string): (p: Option<Parsed<char>>)
    ensures p.Some? ==> |p.value.rest| < |s|
  {
    if s == "" || s[0] < ' ' || s[0] == '\"' then None
    else if s[0] == '\\' then ParseEscape(s[1..])
    else Some(Parsed(s[0], s[1..]))
  }

  /** The body of a string up to and including its closing quote. */
  function ParseBody(s: string): Option<Parsed<string>>
    decreases |s|
  {
    if s != "" && s[0] == '\"' then Some(Parsed("", s[1..]))
    else
      var c := ParseChar(s);
      if c.None? then None
      else
        var body := ParseBody(c.value.rest);
        if body.None? then None else Some(Parsed([c.value.value] + body.value.value, body.value.rest))
  }

  function ParseToken(s: string): Option<Parsed<Token>> {
    if s != "" && s[0] == '\"' then
      var body := ParseBody(s[1..]);
      if body.None? then None else Some(Parsed(Str(body.value.value), body.value.rest))
    else if |s| >= 4 && s[..4] == "null" then Some(Parsed(Null, s[4..]))
    else
      var n := ParseInt(s);
      if n.None? then None else Some(Parsed(Int(n.value.value), n.value.rest))
  }

  /** Tokens between commas up to the closing bracket, which must end the text. */
  function ParseItems(s: string): Option<seq<Token>>
    decreases |s|
  {
    var t := ParseToken(s);
    if t.None? || t.value.rest == "" || |t.value.rest| > |s| then None
    else if t.value.rest == "]" then Some([t.value.value])
    else if t.value.rest[0] != ',' then None
    else
      var more := ParseItems(t.value.rest[1..]);
      if more.None? then None else Some([t.value.value] + more.value)
  }

  function ParseArray(s: string): Option<seq<Token>> {
    if s == "" || s[0] != '[' then None
    else if s[1..] == "]" then Some([])
    else ParseItems(s[1..])
  }

  // ---- Round trip ----

  lemma {:induction false} ScanPrinted(n: nat, rest: string)
    ensures ScanDigits(PrintNat(n) + rest, 0) == ScanDigits(rest, n)
  {
    if n < 10 {
      assert ([Digit(n)] + rest)[1..] == rest;
    } else {
      var tail := [Digit(n % 10)] + rest;
      ScanPrinted(n / 10, tail);
      assert PrintNat(n) + rest == PrintNat(n / 10) + tail;
      assert tail[1..] == rest;
    }
  }

  lemma {:induction false} PrintedLeads(n: nat)
    ensures PrintNat(n) != "" && IsDigit(PrintNat(n)[0])
    ensures n > 0 ==> PrintNat(n)[0] != '0'
  {
    if n >= 10 {
      PrintedLeads(n / 10);
    }
  }

  lemma ParsePrintedInt(n: int, rest: string)
    requires rest == "" || !IsDigit(rest[0])
    ensures ParseInt(PrintInt(n) + rest) == Some(Parsed(n, rest))
    ensures PrintInt(n) != "" && (PrintInt(n)[0] == '-' || IsDigit(PrintInt(n)[0]))
  {
    var m: nat := if n < 0 then -n else n;
    PrintedLeads(m);
    ScanPrinted(m, rest);
    var text := PrintNat(m) + rest;
    assert m == 0 ==> text[1..] == rest;
    if n < 0 {
      assert (PrintInt(n) + rest)[1..] == text;
    }
  }

  lemma ParsePrintedChar(c: char, rest: string)
    ensures ParseChar(EscapeChar(c) + rest) == Some(Parsed(c, rest))
    ensures EscapeChar(c) != "" && EscapeChar(c)[0] != '\"'
  {
    var text := EscapeChar(c) + rest;
    if |EscapeChar(c)| == 6 {
      assert text[1..][1..][4..] == rest;
    } else if |EscapeChar(c)| == 2 {
      assert text[1..][1..] == rest;
    } else {
      assert text[1..] == rest;
    }
  }

  lemma {:induction false} ParsePrintedBody(s: string, rest: string)
    ensures ParseBody(Escape(s) + "\"" + rest) == Some(Parsed(s, rest))
  {
    hide EscapeChar, ParseChar;
    var text := Escape(s) + "\"" + rest;
    if s == "" {
      assert text[1..] == rest;
    } else {
      var tail := Escape(s[1..]) + "\"" + rest;
      assert text == EscapeChar(s[0]) + tail;
      ParsePrintedChar(s[0], tail);
      ParsePrintedBody(s[1..], rest);
      assert s == [s[0]] + s[1..];
    }
  }

  lemma ParsePrintedToken(t: Token, rest: string)
    requires rest == "" || !IsDigit(rest[0])
    ensures ParseToken(PrintToken(t) + rest) == Some(Parsed(t, rest))
  {
    hide ParseBody, ParseInt, PrintInt, Escape;
    var text := PrintToken(t) + rest;
    match t
    case Int(n) =>
      ParsePrintedInt(n, rest);
      assert text[0] == PrintInt(n)[0];
    case Str(s) =>
      ParsePrintedBody(s, rest);
      assert text[1..] == Escape(s) + "\"" + rest;
    case Null =>
      assert text[..4] == "null" && text[4..] == rest;
  }

  lemma {:induction false} ParsePrintedItems(tokens: seq<Token>)
    requires tokens != []
    ensures ParseItems(PrintItems(tokens) + "]") == Some(tokens)
  {
    hide ParseToken, PrintToken;
    var text := PrintItems(tokens) + "]";
    assert tokens == [tokens[0]] + tokens[1..];
    if |tokens| == 1 {
      ParsePrintedToken(tokens[0], "]");
      assert tokens == [tokens[0]];
      assert text == PrintToken(tokens[0]) + "]";
    } else {
      var tail := "," + PrintItems(tokens[1..]) + "]";
      assert text == PrintToken(tokens[0]) + tail;
      ParsePrintedToken(tokens[0], tail);
      assert tail[1..] == PrintItems(tokens[1..]) + "]";
      ParsePrintedItems(tokens[1..]);
    }
  }

  lemma {:induction false} PrintedItemsLead(tokens: seq<Token>)
    requires tokens != []
    ensures PrintItems(tokens) != ""
  {
    hide PrintInt, Escape;
    if tokens[0].Int? {
      ParsePrintedInt(tokens[0].n, "");
    }
  }

  /** Whatever tokens go in, the same tokens come out. */
  lemma ArrayRoundTrip(tokens: seq<Token>)
    ensures ParseArray(PrintArray(tokens)) == Some(tokens)
  {
    hide PrintItems, ParseItems;
    var text := PrintArray(tokens);
    assert text[1..] == PrintItems(tokens) + "]";
    if tokens == [] {
      assert PrintItems(tokens) == "" by { PrintedNothing(); }
    } else {
      PrintedItemsLead(tokens);
      ParsePrintedItems(tokens);
    }
  }

  lemma PrintedNothing()
    ensures PrintItems([]) == ""
  {
  }

  // ---- Lengths ----

  lemma {:induction false} LengthAppends(a: string, b: string)
    ensures Utf16Length(a + b) == Utf16Length(a) + Utf16Length(b)
  {
    if a == "" {
      assert a + b == b;
    } else {
      LengthAppends(a[1..], b);
      assert (a + b)[1..] == a[1..] + b;
    }
  }

  /** Characters that print as themselves, one code unit each. */
  predicate Plain(s: string) {
    forall i :: 0 <= i < |s| ==> ' ' <= s[i] <= '~' && s[i] != '\"' && s[i] != '\\'
  }

  lemma PlainChar(c: char)
    requires ' ' <= c <= '~' && c != '\"' && c != '\\'
    ensures EscapeChar(c) == [c]
  {
  }

  lemma {:induction false} PlainPrintsItself(s: string)
    requires Plain(s)
    ensures Escape(s) == s && Utf16Length(s) == |s|
  {
    if s != "" {
      PlainPrintsItself(s[1..]);
      PlainChar(s[0]);
      hide Plain, EscapeChar;
      assert s == [s[0]] + s[1..];
    }
  }

  lemma {:induction false} EscapeLength(s: string)
    ensures Utf16Length(Escape(s)) <= 6 * Utf16Length(s)
  {
    if s != "" {
      EscapeLength(s[1..]);
      LengthAppends(EscapeChar(s[0]), Escape(s[1..]));
      EscapeCharLength(s[0]);
    }
  }

  lemma EscapeCharLength(c: char)
    ensures Utf16Length(EscapeChar(c)) <= if c as int >= 0x10000 then 2 else 6
  {
    var text := EscapeChar(c);
    LengthAtMostDouble(text);
    if c < ' ' && |text| == 6 {
      assert forall i :: 0 <= i < 6 ==> text[i] as int < 0x10000;
    }
    ShortPlain(text);
    assert c as int >= 0x10000 ==> text == [c];
  }

  lemma ShortPlain(s: string)
    requires |s| == 6 ==> forall i :: 0 <= i < 6 ==> s[i] as int < 0x10000
    ensures |s| == 6 ==> Utf16Length(s) == 6
    ensures |s| == 1 ==> Utf16Length(s) == if s[0] as int >= 0x10000 then 2 else 1
  {
    if |s| == 6 {
      BasicPlane(s);
    } else if |s| == 1 {
      assert s[1..] == "";
    }
  }

  lemma {:induction false} BasicPlane(s: string)
    requires forall i :: 0 <= i < |s| ==> s[i] as int < 0x10000
    ensures Utf16Length(s) == |s|
  {
    if s != "" {
      assert s[0] as int < 0x10000;
      BasicPlane(s[1..]);
    }
  }

  lemma {:induction false} LengthAtMostDouble(s: string)
    ensures |s| <= Utf16Length(s) <= 2 * |s|
  {
    if s != "" {
      LengthAtMostDouble(s[1..]);
    }
  }

  function Pow10(k: nat): nat {
    if k == 0 then 1 else 10 * Pow10(k - 1)
  }

  lemma {:induction false} DigitsBounded(n: nat, k: nat)
    requires k > 0 && n < Pow10(k)
    ensures Utf16Length(PrintNat(n)) <= k
  {
    if n >= 10 {
      DigitsBounded(n / 10, k - 1);
      LengthAppends(PrintNat(n / 10), [Digit(n % 10)]);
    }
  }
}
