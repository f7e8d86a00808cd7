/** The texts that cross the wire, letter by letter. */
module WireText {
  import opened Frames
  import opened Json
  import opened Codec
  import B = Base64

  // Encoding and decoding agree with each other in Codec. Here each frame's text is
  // spelled out: names, order of the fields, numbers in decimal, null for no grace. A
  // frame outside its ranges has no text.

  // ---- Numbers, strings and payloads ----

  /** What a string of decimal digits stands for. */
  function DecimalValue(s: string): nat {
    if s == "" then 0
    else DecimalValue(s[..|s| - 1]) * 10 + if '0' <= s[|s| - 1] <= '9' then s[|s| - 1] as int - 48 else 0
  }

  /** A number is printed in decimal, without leading zeros, and a negative one with a minus sign. */
  lemma {:induction false} NumberText(n: nat)
    ensures PrintInt(n) == PrintNat(n) && (n > 0 ==> PrintInt(0 - n) == "-" + PrintNat(n))
    ensures (forall i :: 0 <= i < |PrintNat(n)| ==> '0' <= PrintNat(n)[i] <= '9') && DecimalValue(PrintNat(n)) == n
    ensures |PrintNat(n)| > 0 && (PrintNat(n)[0] == '0' ==> PrintNat(n) == "0")
  {
    if n >= 10 {
      NumberText(n / 10);
      var s := PrintNat(n);
      assert s[..|s| - 1] == PrintNat(n / 10);
      PrintedLeads(n);
    }
  }

  /** How a character stands in a string. */
  lemma CharText(c: char)
    ensures EscapeChar('\"') == "\\\"" && EscapeChar('\\') == "\\\\"
    ensures EscapeChar(8 as char) == "\\b" && EscapeChar(9 as char) == "\\t" && EscapeChar(10 as char) == "\\n"
    ensures EscapeChar(12 as char) == "\\f" && EscapeChar(13 as char) == "\\r"
    ensures c as int < 32 && c as int !in {8, 9, 10, 12, 13} ==>
      EscapeChar(c) == "\\u00" + ["0123456789abcdef"[c as int / 16], "0123456789abcdef"[c as int % 16]]
    ensures c as int >= 32 && c != '\"' && c != '\\' ==> EscapeChar(c) == [c]
  {
    LowHexDigits(c as int / 16 % 16);
    LowHexDigits(c as int % 16);
  }

  lemma LowHexDigits(d: nat)
    requires d < 16
    ensures HexDigit(d) == "0123456789abcdef"[d]
  {
  }

  /** A string is its characters' texts, one after the other. */
  lemma StringText(s: string, c: char)
    ensures Escape("") == ""
    ensures Escape([c] + s) == EscapeChar(c) + Escape(s)
  {
    assert ([c] + s)[1..] == s;
  }

  /** The alphabet: capital letters, small letters, digits, plus and slash. */
  lemma Alphabet(v: B.sextet)
    ensures 0 <= v < 26 ==> B.Char64(v) as int == 'A' as int + v as int
    ensures 26 <= v < 52 ==> B.Char64(v) as int == 'a' as int + v as int - 26
    ensures 52 <= v < 62 ==> B.Char64(v) as int == '0' as int + v as int - 52
    ensures B.Char64(62) == '+' && B.Char64(63) == '/'
  {
  }

  /** Three bytes are four characters of the alphabet, the most significant bits first. */
  lemma PayloadText(a: byte, b: byte, c: byte, rest: seq<byte>)
    ensures var n := a as int * 65536 + b as int * 256 + c as int;
      B.Encode64([a, b, c] + rest) ==
        [B.Char64((n / 262144) as B.sextet), B.Char64((n / 4096 % 64) as B.sextet),
         B.Char64((n / 64 % 64) as B.sextet), B.Char64((n % 64) as B.sextet)] + B.Encode64(rest)
  {
    hide B.Char64, B.First, B.Second, B.Third, B.Fourth;
    SextetsAre(a, b, c);
    GroupThenRest(a, b, c, rest);
  }

  lemma GroupThenRest(a: byte, b: byte, c: byte, rest: seq<byte>)
    ensures B.Encode64([a, b, c] + rest) ==
      [B.Char64(B.First(a)), B.Char64(B.Second(a, b)), B.Char64(B.Third(b, c)), B.Char64(B.Fourth(c))] +
      B.Encode64(rest)
  {
    hide B.Char64, B.First, B.Second, B.Third, B.Fourth;
    assert ([a, b, c] + rest)[3..] == rest;
  }

  lemma SextetsAre(a: byte, b: byte, c: byte)
    ensures var n := a as int * 65536 + b as int * 256 + c as int;
      B.First(a) as int == n / 262144 && B.Second(a, b) as int == n / 4096 % 64 &&
      B.Third(b, c) as int == n / 64 % 64 && B.Fourth(c) as int == n % 64
  {
    Bits(a as int, b as int, c as int);
  }

  /** One or two bytes at the end are padded. */
  lemma PayloadEnd(a: byte, b: byte)
    ensures var n := a as int * 256 + b as int;
      B.Encode64([a, b]) == [B.Char64((n / 1024) as B.sextet), B.Char64((n / 16 % 64) as B.sextet),
                             B.Char64((n % 16 * 4) as B.sextet), '=']
    ensures B.Encode64([a]) ==
      [B.Char64((a as int / 4) as B.sextet), B.Char64((a as int % 4 * 16) as B.sextet), '=', '=']
    ensures B.Encode64([]) == ""
  {
    hide B.Char64;
    Bits(a as int, b as int, 0);
  }

  lemma Bits(a: int, b: int, c: int)
    requires 0 <= a < 256 && 0 <= b < 256 && 0 <= c < 256
    ensures var n := a * 65536 + b * 256 + c;
      n / 262144 == a / 4 && n / 4096 % 64 == a % 4 * 16 + b / 16 && n / 64 % 64 == b % 16 * 4 + c / 64 &&
      n % 64 == c % 64
    ensures (a * 256 + b) / 1024 == a / 4 && (a * 256 + b) / 16 % 64 == a % 4 * 16 + b / 16
    ensures (a * 256 + b) % 16 == b % 16
  {
    SplitBits(a / 4, a % 4, b / 16, b % 16, c / 64, c % 64);
    assert a == 4 * (a / 4) + a % 4 && b == 16 * (b / 16) + b % 16 && c == 64 * (c / 64) + c % 64;
  }

  lemma SplitBits(a1: int, a0: int, b1: int, b0: int, c1: int, c0: int)
    requires 0 <= a1 < 64 && 0 <= a0 < 4 && 0 <= b1 < 16 && 0 <= b0 < 16 && 0 <= c1 < 4 && 0 <= c0 < 64
    ensures var n := a1 * 262144 + (a0 * 16 + b1) * 4096 + (b0 * 4 + c1) * 64 + c0;
      n / 262144 == a1 && n / 4096 % 64 == a0 * 16 + b1 && n / 64 % 64 == b0 * 4 + c1 && n % 64 == c0
    ensures var n := a1 * 1024 + (a0 * 16 + b1) * 16 + b0;
      n / 1024 == a1 && n / 16 % 64 == a0 * 16 + b1 && n % 16 == b0
  {
    var n, m := a1 * 262144 + (a0 * 16 + b1) * 4096 + (b0 * 4 + c1) * 64 + c0, a1 * 1024 + (a0 * 16 + b1) * 16 + b0;
    assert n / 4096 == a1 * 64 + (a0 * 16 + b1);
    assert n / 64 == (a1 * 64 + (a0 * 16 + b1)) * 64 + (b0 * 4 + c1);
    assert m / 16 == a1 * 64 + (a0 * 16 + b1);
  }

  // ---- Frames ----

  /** Lower-case hexadecimal digits, this many. */
  predicate Hex(s: string, n: nat) {
    |s| == n && forall i :: 0 <= i < |s| ==> '0' <= s[i] <= '9' || 'a' <= s[i] <= 'f'
  }

  function Quoted(s: string): string {
    "\"" + s + "\""
  }

  lemma HexIsPlain(s: string, n: nat)
    requires Hex(s, n)
    ensures PrintToken(Str(s)) == Quoted(s)
  {
    PlainPrintsItself(s);
  }

  lemma WordIsPlain(s: string)
    requires forall i :: 0 <= i < |s| ==> 'a' <= s[i] <= 'z' || s[i] == '_'
    ensures PrintToken(Str(s)) == Quoted(s)
  {
    PlainPrintsItself(s);
  }

  /** The text of a well-formed frame: its tokens in brackets. */
  lemma Encodes(f: V2Frame, tokens: seq<Token>)
    requires Tokens(f) == tokens
    ensures Encode(f) == if WellFormed(f) then Some("[" + PrintItems(tokens) + "]") else None
  {
    hide Decode, WellFormed, Tokens, PrintItems;
    CodecRoundTrip(f);
  }

  lemma {:induction false} OneAfter(tokens: seq<Token>, last: Token)
    requires tokens != []
    ensures PrintItems(tokens + [last]) == PrintItems(tokens) + "," + PrintToken(last)
  {
    hide PrintToken;
    var all := tokens + [last];
    assert all[1..] == tokens[1..] + [last];
    if |tokens| == 1 {
      assert all[1..] == [last];
      LastItem(last);
    } else {
      OneAfter(tokens[1..], last);
      Regroup(PrintToken(tokens[0]), PrintItems(tokens[1..]), PrintToken(last));
    }
  }

  lemma Regroup(a: string, b: string, c: string)
    ensures a + "," + (b + "," + c) == a + "," + b + "," + c
  {
  }

  lemma TwoAre(a: Token, b: Token)
    ensures PrintItems([a, b]) == PrintToken(a) + "," + PrintToken(b)
  {
    hide PrintToken, PrintItems;
    LastItem(a);
    OneAfter([a], b);
    assert [a] + [b] == [a, b];
  }

  lemma ThreeAre(a: Token, b: Token, c: Token)
    ensures PrintItems([a, b, c]) == PrintToken(a) + "," + PrintToken(b) + "," + PrintToken(c)
  {
    hide PrintToken, PrintItems;
    TwoAre(a, b);
    OneAfter([a, b], c);
    assert [a, b] + [c] == [a, b, c];
  }

  lemma FourAre(a: Token, b: Token, c: Token, d: Token)
    ensures PrintItems([a, b, c, d]) == PrintToken(a) + "," + PrintToken(b) + "," + PrintToken(c) + "," + PrintToken(d)
  {
    hide PrintToken, PrintItems;
    ThreeAre(a, b, c);
    OneAfter([a, b, c], d);
    assert [a, b, c] + [d] == [a, b, c, d];
  }

  lemma FiveAre(a: Token, b: Token, c: Token, d: Token, e: Token)
    ensures PrintItems([a, b, c, d, e]) ==
      PrintToken(a) + "," + PrintToken(b) + "," + PrintToken(c) + "," + PrintToken(d) + "," + PrintToken(e)
  {
    hide PrintToken, PrintItems;
    FourAre(a, b, c, d);
    OneAfter([a, b, c, d], e);
    assert [a, b, c, d] + [e] == [a, b, c, d, e];
  }

  lemma SixAre(a: Token, b: Token, c: Token, d: Token, e: Token, f: Token)
    ensures PrintItems([a, b, c, d, e, f]) ==
      PrintToken(a) + "," + PrintToken(b) + "," + PrintToken(c) + "," + PrintToken(d) + "," + PrintToken(e) + "," +
      PrintToken(f)
  {
    hide PrintToken, PrintItems;
    FiveAre(a, b, c, d, e);
    OneAfter([a, b, c, d, e], f);
    assert [a, b, c, d, e] + [f] == [a, b, c, d, e, f];
  }

  lemma SevenAre(a: Token, b: Token, c: Token, d: Token, e: Token, f: Token, g: Token)
    ensures PrintItems([a, b, c, d, e, f, g]) ==
      PrintToken(a) + "," + PrintToken(b) + "," + PrintToken(c) + "," + PrintToken(d) + "," + PrintToken(e) + "," +
      PrintToken(f) + "," + PrintToken(g)
  {
    hide PrintToken, PrintItems;
    SixAre(a, b, c, d, e, f);
    OneAfter([a, b, c, d, e, f], g);
    assert [a, b, c, d, e, f] + [g] == [a, b, c, d, e, f, g];
  }

  lemma TokensAre(f: V2Frame)
    ensures Tokens(f) == [Int(2), Str(KindName(f))] + FieldTokens(f)
  {
  }

  lemma Heads()
    ensures PrintToken(Int(2)) == "2"
  {
  }

  lemma GraceText(grace: Option<int>)
    ensures PrintToken(GraceToken(grace)) == if grace.None? then "null" else PrintInt(grace.value)
  {
  }

  /** A frame without fields is its name. */
  lemma Bare(f: V2Frame, name: string)
    requires WellFormed(f) && Tokens(f) == [Int(2), Str(name)]
    requires forall i :: 0 <= i < |name| ==> 'a' <= name[i] <= 'z' || name[i] == '_'
    ensures Encode(f) == Some("[2,\"" + name + "\"]")
  {
    hide Encode, PrintToken, PrintItems, WellFormed, Tokens;
    Encodes(f, [Int(2), Str(name)]);
    Heads();
    WordIsPlain(name);
    TwoAre(Int(2), Str(name));
    assert "[" + ("2" + "," + Quoted(name)) + "]" == "[2,\"" + name + "\"]";
  }

  lemma BareTexts()
    ensures Encode(Detach) == Some("[2,\"" + "detach" + "\"]") && Encode(Close) == Some("[2,\"" + "close" + "\"]")
    ensures Encode(Ping) == Some("[2,\"" + "ping" + "\"]") && Encode(Pong) == Some("[2,\"" + "pong" + "\"]")
  {
    hide Encode;
    Bare(Detach, "detach");
    Bare(Close, "close");
    Bare(Ping, "ping");
    Bare(Pong, "pong");
  }

  lemma ErrorText(code: ErrorCode, name: string)
    requires CodeName(code) == name && forall i :: 0 <= i < |name| ==> 'a' <= name[i] <= 'z' || name[i] == '_'
    ensures Encode(Error(code)) == Some("[2,\"error\",\"" + name + "\"]")
  {
    hide Encode, PrintToken, PrintItems, CodeName;
    var tokens := [Int(2), Str("error"), Str(name)];
    assert Tokens(Error(code)) == tokens;
    Encodes(Error(code), tokens);
    Heads();
    WordIsPlain("error");
    WordIsPlain(name);
    ThreeAre(Int(2), Str("error"), Str(name));
    assert "[" + ("2" + "," + Quoted("error") + "," + Quoted(name)) + "]" ==
      "[2,\"error\",\"" + name + "\"]";
  }

  /** 2, error, code: the seven codes. */
  lemma ErrorTexts()
    ensures Encode(Error(Expired)) == Some("[2,\"error\",\"" + "expired" + "\"]")
    ensures Encode(Error(OffsetMismatch)) == Some("[2,\"error\",\"" + "offset_mismatch" + "\"]")
    ensures Encode(Error(InvalidFrame)) == Some("[2,\"error\",\"" + "invalid_frame" + "\"]")
    ensures Encode(Error(SessionClosed)) == Some("[2,\"error\",\"" + "session_closed" + "\"]")
    ensures Encode(Error(RetentionExceeded)) == Some("[2,\"error\",\"" + "retention_exceeded" + "\"]")
    ensures Encode(Error(ResumeDisabled)) == Some("[2,\"error\",\"" + "resume_disabled" + "\"]")
    ensures Encode(Error(Superseded)) == Some("[2,\"error\",\"" + "superseded" + "\"]")
  {
    hide Encode;
    ErrorText(Expired, "expired");
    ErrorText(OffsetMismatch, "offset_mismatch");
    ErrorText(InvalidFrame, "invalid_frame");
    ErrorText(SessionClosed, "session_closed");
    ErrorText(RetentionExceeded, "retention_exceeded");
    ErrorText(ResumeDisabled, "resume_disabled");
    ErrorText(Superseded, "superseded");
  }

  /** No controls, no line or paragraph separators, no bidirectional overrides. */
  predicate HostLetters(host: string) {
    forall i :: 0 <= i < |host| ==>
      var n := host[i] as int;
      32 <= n && !(127 <= n <= 159) && n != 8232 && n != 8233 && !(8234 <= n <= 8238) && !(8294 <= n <= 8297)
  }

  lemma HostIs(host: string)
    ensures IsHost(host) <==> host != "" && Utf16Length(host) <= 253 && HostLetters(host)
  {
    hide Utf16Length;
    if HostLetters(host) && host != "" && Utf16Length(host) <= 253 {
      forall i | 0 <= i < |host| ensures !IsRefusedInHost(host[i]) {
      }
    }
    if IsHost(host) {
      forall i | 0 <= i < |host| ensures var n := host[i] as int;
        32 <= n && !(127 <= n <= 159) && n != 8232 && n != 8233 && !(8234 <= n <= 8238) && !(8294 <= n <= 8297)
      {
        assert !IsRefusedInHost(host[i]);
      }
    }
  }

  /** 2, connect, host, port, requested grace. */
  lemma ConnectText(host: string, port: int, grace: Option<int>)
    ensures Encode(Connect(host, port, grace)) ==
      if host != "" && Utf16Length(host) <= 253 && 1 <= port <= 65535 &&
         HostLetters(host) &&
         (grace.Some? ==> 1 <= grace.value <= 9007199254740991)
      then Some("[" + ("2" + "," + Quoted("connect") + "," + Quoted(Escape(host)) + "," + PrintInt(port) + "," +
                (if grace.None? then "null" else PrintInt(grace.value))) + "]")
      else None
  {
    hide Encode, PrintToken, PrintItems, Tokens, Utf16Length, IsHost, HostLetters, Escape;
    HostIs(host);
    var f := Connect(host, port, grace);
    assert Tokens(f) == [Int(2), Str("connect"), Str(host), Int(port), GraceToken(grace)] by { TokensAre(f); }
    Encodes(f, [Int(2), Str("connect"), Str(host), Int(port), GraceToken(grace)]);
    Heads();
    WordIsPlain("connect");
    GraceText(grace);
    StringToken(host);
    IntToken(port);
    FiveAre(Int(2), Str("connect"), Str(host), Int(port), GraceToken(grace));
  }

  lemma StringToken(s: string)
    ensures PrintToken(Str(s)) == Quoted(Escape(s))
  {
  }

  lemma IntToken(n: int)
    ensures PrintToken(Int(n)) == PrintInt(n)
  {
  }

  /** 2, ready, session id, token, limit, granted grace, cap. */
  lemma ReadyText(id: string, token: string, limit: int, granted: Option<int>, cap: Option<int>)
    ensures Encode(Ready(id, token, limit, granted, cap)) ==
      if Hex(id, 32) && Hex(token, 64) && 1 <= limit <= 262144 &&
         (granted.Some? ==> 1 <= granted.value <= 9007199254740991) &&
         (cap.Some? ==> granted.Some? && granted.value <= cap.value <= 9007199254740991)
      then Some("[" + ("2" + "," + Quoted("ready") + "," + Quoted(id) + "," + Quoted(token) + "," +
                PrintInt(limit) + "," + (if granted.None? then "null" else PrintInt(granted.value)) + "," +
                (if cap.None? then "null" else PrintInt(cap.value))) + "]")
      else None
  {
    hide Encode, PrintToken, PrintItems, Tokens;
    var f := Ready(id, token, limit, granted, cap);
    var tokens := [Int(2), Str("ready"), Str(id), Str(token), Int(limit), GraceToken(granted), GraceToken(cap)];
    assert Tokens(f) == tokens by { TokensAre(f); }
    Encodes(f, tokens);
    Heads();
    WordIsPlain("ready");
    GraceText(granted);
    GraceText(cap);
    IntToken(limit);
    if WellFormed(f) {
      HexIsPlain(id, 32);
      HexIsPlain(token, 64);
    }
    SevenAre(Int(2), Str("ready"), Str(id), Str(token), Int(limit), GraceToken(granted), GraceToken(cap));
  }

  /** 2, resume, session id, token, clientAck, serverAck. */
  lemma ResumeText(id: string, token: string, clientAck: int, serverAck: int)
    ensures Encode(Resume(id, token, clientAck, serverAck)) ==
      if Hex(id, 32) && Hex(token, 64) && 0 <= clientAck <= 9007199254740991 && 0 <= serverAck <= 9007199254740991
      then Some("[" + ("2" + "," + Quoted("resume") + "," + Quoted(id) + "," + Quoted(token) + "," +
                PrintInt(clientAck) + "," + PrintInt(serverAck)) + "]")
      else None
  {
    hide Encode, PrintToken, PrintItems, Tokens;
    var f := Resume(id, token, clientAck, serverAck);
    var tokens := [Int(2), Str("resume"), Str(id), Str(token), Int(clientAck), Int(serverAck)];
    assert Tokens(f) == tokens by { TokensAre(f); }
    Encodes(f, tokens);
    Heads();
    WordIsPlain("resume");
    IntToken(clientAck);
    IntToken(serverAck);
    if WellFormed(f) {
      HexIsPlain(id, 32);
      HexIsPlain(token, 64);
    }
    SixAre(Int(2), Str("resume"), Str(id), Str(token), Int(clientAck), Int(serverAck));
  }

  /** 2, resumed, clientAck, serverAck, new token. */
  lemma ResumedText(clientAck: int, serverAck: int, token: string)
    ensures Encode(Resumed(clientAck, serverAck, token)) ==
      if Hex(token, 64) && 0 <= clientAck <= 9007199254740991 && 0 <= serverAck <= 9007199254740991
      then Some("[" + ("2" + "," + Quoted("resumed") + "," + PrintInt(clientAck) + "," + PrintInt(serverAck) + "," +
                Quoted(token)) + "]")
      else None
  {
    hide Encode, PrintToken, PrintItems, Tokens;
    var f := Resumed(clientAck, serverAck, token);
    assert Tokens(f) == [Int(2), Str("resumed"), Int(clientAck), Int(serverAck), Str(token)] by { TokensAre(f); }
    Encodes(f, [Int(2), Str("resumed"), Int(clientAck), Int(serverAck), Str(token)]);
    Heads();
    WordIsPlain("resumed");
    IntToken(clientAck);
    IntToken(serverAck);
    if WellFormed(f) {
      HexIsPlain(token, 64);
    }
    FiveAre(Int(2), Str("resumed"), Int(clientAck), Int(serverAck), Str(token));
  }

  /** 2, data, direction, offset, payload. */
  lemma DataText(direction: Direction, offset: int, payload: seq<byte>)
    ensures Encode(Data(direction, offset, payload)) ==
      if 1 <= |payload| <= 262144 && 0 <= offset && offset + |payload| <= 9007199254740991
      then Some("[" + ("2" + "," + Quoted("data") + "," +
                Quoted(if direction.Client? then "client" else "server") + "," + PrintInt(offset) + "," +
                Quoted(B.Encode64(payload))) + "]")
      else None
  {
    hide Encode, PrintToken, PrintItems, Tokens, B.Encode64, Plain;
    var f, text := Data(direction, offset, payload), B.Encode64(payload);
    var tokens := [Int(2), Str("data"), Str(DirectionName(direction)), Int(offset), Str(text)];
    assert Tokens(f) == tokens by { TokensAre(f); }
    Encodes(f, tokens);
    Heads();
    WordIsPlain("data");
    WordIsPlain("client");
    WordIsPlain("server");
    IntToken(offset);
    EncodedIsPlain(payload);
    PrintedName(text);
    FiveAre(Int(2), Str("data"), Str(DirectionName(direction)), Int(offset), Str(text));
  }

  /** 2, ack, direction, offset. */
  lemma AckText(direction: Direction, offset: int)
    ensures Encode(Ack(direction, offset)) ==
      if 0 <= offset <= 9007199254740991
      then Some("[" + ("2" + "," + Quoted("ack") + "," +
                Quoted(if direction.Client? then "client" else "server") + "," + PrintInt(offset)) + "]")
      else None
  {
    hide Encode, PrintToken, PrintItems, Tokens;
    var f := Ack(direction, offset);
    assert Tokens(f) == [Int(2), Str("ack"), Str(DirectionName(direction)), Int(offset)] by { TokensAre(f); }
    Encodes(f, [Int(2), Str("ack"), Str(DirectionName(direction)), Int(offset)]);
    Heads();
    WordIsPlain("ack");
    WordIsPlain("client");
    WordIsPlain("server");
    IntToken(offset);
    FourAre(Int(2), Str("ack"), Str(DirectionName(direction)), Int(offset));
  }

  // ---- And back ----

  lemma DataFieldsAre(fields: seq<Token>)
    requires DecodeData(fields).Some?
    ensures var f := DecodeData(fields).value;
      f.Data? && fields == [Str(DirectionName(f.direction)), Int(f.offset), Str(B.Encode64(f.payload))]
  {
    hide B.RelayDecode, B.Encode64, Utf16Length;
    B.OneTextPerPayload(fields[2].s, DecodeData(fields).value.payload);
  }

  lemma ConnectFieldsAre(fields: seq<Token>)
    ensures DecodeConnect(fields).Some? ==>
      var f := DecodeConnect(fields).value;
      f.Connect? && fields == [Str(f.host), Int(f.port), GraceToken(f.requestedGraceMs)]
  {
    hide IsHost;
  }

  lemma ReadyFieldsAre(fields: seq<Token>)
    ensures DecodeReady(fields).Some? ==>
      var f := DecodeReady(fields).value;
      f.Ready? && fields == [Str(f.sessionId), Str(f.token), Int(f.maxUnackedBytes), GraceToken(f.grantedGraceMs),
                             GraceToken(f.capGraceMs)]
  {
    hide IsToken, IsSessionId;
  }

  lemma ResumeFieldsAre(fields: seq<Token>)
    ensures DecodeResume(fields).Some? ==>
      var f := DecodeResume(fields).value;
      f.Resume? && fields == [Str(f.sessionId), Str(f.token), Int(f.clientAck), Int(f.serverAck)]
    ensures DecodeResumed(fields).Some? ==>
      var f := DecodeResumed(fields).value;
      f.Resumed? && fields == [Int(f.clientAck), Int(f.serverAck), Str(f.newToken)]
  {
    hide IsToken, IsSessionId;
  }

  /** The decoder takes no fields but those the encoder prints. */
  lemma FieldsAre(kind: string, fields: seq<Token>)
    requires DecodeFields(kind, fields).Some?
    ensures var f := DecodeFields(kind, fields).value;
      kind == KindName(f) && fields == FieldTokens(f)
  {
    hide DecodeConnect, DecodeReady, DecodeResume, DecodeResumed, DecodeData, B.Encode64;
    ConnectFieldsAre(fields);
    ReadyFieldsAre(fields);
    ResumeFieldsAre(fields);
    if kind == "data" {
      DataFieldsAre(fields);
    } else if kind == "error" {
      CodeIs(fields[0].s);
    }
  }

  lemma CodeIs(name: string)
    ensures CodeNamed(name).Some? ==> CodeName(CodeNamed(name).value) == name
  {
  }

  /**
   * A text is decoded to a frame exactly when it is JSON for what the encoder prints of
   * it, in any spelling the parser takes, and not too long.
   */
  lemma DecodesExactly(raw: string, f: V2Frame)
    ensures Decode(raw) == Some(f) <==>
      (WellFormed(f) && ParseArray(raw) == Some(Tokens(f)) &&
       Utf16Length(raw) <= if f.Data? then 349656 else 4096)
  {
    hide WellFormed, DecodeFields, FieldTokens, KindName, ParseArray, Utf16Length;
    FieldsRoundTrip(f);
    OnlyDataIsNamedData(f);
    assert Tokens(f)[2..] == FieldTokens(f);
    if Decode(raw) == Some(f) {
      var parts := ParseArray(raw).value;
      FieldsAre(parts[1].s, parts[2..]);
      DecodedIsWellFormed(raw);
      assert parts == [parts[0], parts[1]] + parts[2..];
    }
  }
}
