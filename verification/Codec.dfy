/**
 * The relay's frame codec: a printer and a strict parser of protocol version 2
 * frames. Encoding checks itself by decoding; it succeeds exactly on well-formed
 * frames, and decoding gives the frame back.
 */
module Codec {
  import opened Frames
  import opened Json
  import B = Base64

  const MAX_CONTROL_LENGTH: nat := 4096
  const MAX_DATA_BYTES: nat := 262144
  /** ceil(MAX_DATA_BYTES / 3) groups of four, the longest payload text. */
  const MAX_PAYLOAD_TEXT: nat := 349528
  const MAX_DATA_LENGTH: nat := 349656
  /** Longest frame, in bytes, the Go side reads. */
  const GO_MAX_LENGTH: nat := 350000
  const MAX_SAFE_INTEGER: nat := 9007199254740991

  predicate IsOffset(n: int) {
    0 <= n <= MAX_SAFE_INTEGER
  }

  predicate IsGrace(grace: Option<int>) {
    grace.None? || (grace.value >= 1 && IsOffset(grace.value))
  }

  /** Controls, line and paragraph separators and bidirectional overrides are refused in a host. */
  predicate IsRefusedInHost(c: char) {
    var n := c as int;
    n <= 0x1f || 0x7f <= n <= 0x9f || n == 0x2028 || n == 0x2029 || 0x202a <= n <= 0x202e || 0x2066 <= n <= 0x2069
  }

  predicate IsHost(host: string) {
    host != "" && Utf16Length(host) <= 253 && forall i :: 0 <= i < |host| ==> !IsRefusedInHost(host[i])
  }

  predicate IsPort(port: int) {
    0 < port <= 65535
  }

  /** The frames the protocol allows. */
  predicate WellFormed(f: V2Frame) {
    match f
    case Connect(host, port, grace) => IsHost(host) && IsPort(port) && IsGrace(grace)
    case Ready(id, token, maxUnacked, granted, cap) =>
      IsSessionId(id) && IsToken(token) && 1 <= maxUnacked <= MAX_DATA_BYTES && IsGrace(granted) && IsGrace(cap) &&
      (cap.Some? ==> granted.Some? && granted.value <= cap.value)
    case Resume(id, token, clientAck, serverAck) =>
      IsSessionId(id) && IsToken(token) && IsOffset(clientAck) && IsOffset(serverAck)
    case Resumed(clientAck, serverAck, newToken) => IsOffset(clientAck) && IsOffset(serverAck) && IsToken(newToken)
    case Data(_, offset, payload) =>
      1 <= |payload| <= MAX_DATA_BYTES && IsOffset(offset) && IsOffset(offset + |payload|)
    case Ack(_, offset) => IsOffset(offset)
    case Detach => true
    case Close => true
    case Ping => true
    case Pong => true
    case Error(_) => true
  }

  // ---- Frames to tokens ----

  function KindName(f: V2Frame): string {
    match f
    case Connect(_, _, _) => "connect"
    case Ready(_, _, _, _, _) => "ready"
    case Resume(_, _, _, _) => "resume"
    case Resumed(_, _, _) => "resumed"
    case Data(_, _, _) => "data"
    case Ack(_, _) => "ack"
    case Detach => "detach"
    case Close => "close"
    case Ping => "ping"
    case Pong => "pong"
    case Error(_) => "error"
  }

  function CodeName(code: ErrorCode): string {
    match code
    case Expired => "expired"
    case OffsetMismatch => "offset_mismatch"
    case InvalidFrame => "invalid_frame"
    case SessionClosed => "session_closed"
    case RetentionExceeded => "retention_exceeded"
    case ResumeDisabled => "resume_disabled"
    case Superseded => "superseded"
  }

  function DirectionName(d: Direction): string {
    if d == Client then "client" else "server"
  }

  function GraceToken(grace: Option<int>): Token {
    if grace.None? then Null else Int(grace.value)
  }

  function FieldTokens(f: V2Frame): seq<Token> {
    match f
    case Connect(host, port, grace) => [Str(host), Int(port), GraceToken(grace)]
    case Ready(id, token, maxUnacked, granted, cap) =>
      [Str(id), Str(token), Int(maxUnacked), GraceToken(granted), GraceToken(cap)]
    case Resume(id, token, clientAck, serverAck) => [Str(id), Str(token), Int(clientAck), Int(serverAck)]
    case Resumed(clientAck, serverAck, newToken) => [Int(clientAck), Int(serverAck), Str(newToken)]
    case Data(d, offset, payload) => [Str(DirectionName(d)), Int(offset), Str(B.Encode64(payload))]
    case Ack(d, offset) => [Str(DirectionName(d)), Int(offset)]
    case Detach => []
    case Close => []
    case Ping => []
    case Pong => []
    case Error(code) => [Str(CodeName(code))]
  }

  function Tokens(f: V2Frame): seq<Token> {
    [Int(2), Str(KindName(f))] + FieldTokens(f)
  }

  function Print(f: V2Frame): string {
    PrintArray(Tokens(f))
  }

  // ---- Tokens to frames ----

  function CodeNamed(name: string): Option<ErrorCode> {
    if name == "expired" then Some(Expired)
    else if name == "offset_mismatch" then Some(OffsetMismatch)
    else if name == "invalid_frame" then Some(InvalidFrame)
    else if name == "session_closed" then Some(SessionClosed)
    else if name == "retention_exceeded" then Some(RetentionExceeded)
    else if name == "resume_disabled" then Some(ResumeDisabled)
    else if name == "superseded" then Some(Superseded)
    else None
  }

  function DirectionNamed(t: Token): Option<Direction> {
    if t == Str("client") then Some(Client) else if t == Str("server") then Some(Server) else None
  }

  function GraceOf(t: Token): Option<Option<int>> {
    if t.Null? then Some(None)
    else if t.Int? && t.n >= 1 && IsOffset(t.n) then Some(Some(t.n))
    else None
  }

  predicate OffsetToken(t: Token) {
    t.Int? && IsOffset(t.n)
  }

  function DecodeConnect(fields: seq<Token>): Option<V2Frame> {
    if |fields| != 3 || !fields[0].Str? || !IsHost(fields[0].s) || !fields[1].Int? || !IsPort(fields[1].n) ||
       GraceOf(fields[2]).None? then None
    else Some(Connect(fields[0].s, fields[1].n, GraceOf(fields[2]).value))
  }

  function DecodeReady(fields: seq<Token>): Option<V2Frame> {
    if |fields| != 5 || !fields[0].Str? || !IsSessionId(fields[0].s) || !fields[1].Str? || !IsToken(fields[1].s) ||
       !OffsetToken(fields[2]) || fields[2].n < 1 || fields[2].n > MAX_DATA_BYTES ||
       GraceOf(fields[3]).None? || GraceOf(fields[4]).None? then None
    else
      var granted, cap := GraceOf(fields[3]).value, GraceOf(fields[4]).value;
      if cap.Some? && (granted.None? || granted.value > cap.value) then None
      else Some(Ready(fields[0].s, fields[1].s, fields[2].n, granted, cap))
  }

  function DecodeResume(fields: seq<Token>): Option<V2Frame> {
    if |fields| != 4 || !fields[0].Str? || !IsSessionId(fields[0].s) || !fields[1].Str? || !IsToken(fields[1].s) ||
       !OffsetToken(fields[2]) || !OffsetToken(fields[3]) then None
    else Some(Resume(fields[0].s, fields[1].s, fields[2].n, fields[3].n))
  }

  function DecodeResumed(fields: seq<Token>): Option<V2Frame> {
    if |fields| != 3 || !OffsetToken(fields[0]) || !OffsetToken(fields[1]) || !fields[2].Str? || !IsToken(fields[2].s)
    then None
    else Some(Resumed(fields[0].n, fields[1].n, fields[2].s))
  }

  function DecodeData(fields: seq<Token>): Option<V2Frame> {
    if |fields| != 3 || DirectionNamed(fields[0]).None? || !OffsetToken(fields[1]) || !fields[2].Str? ||
       fields[2].s == "" || Utf16Length(fields[2].s) > MAX_PAYLOAD_TEXT then None
    else
      var payload := B.RelayDecode(fields[2].s);
      if payload.None? || payload.value == [] || |payload.value| > MAX_DATA_BYTES ||
         !IsOffset(fields[1].n + |payload.value|) then None
      else Some(Data(DirectionNamed(fields[0]).value, fields[1].n, payload.value))
  }

  function DecodeAck(fields: seq<Token>): Option<V2Frame> {
    if |fields| != 2 || DirectionNamed(fields[0]).None? || !OffsetToken(fields[1]) then None
    else Some(Ack(DirectionNamed(fields[0]).value, fields[1].n))
  }

  function DecodeError(fields: seq<Token>): Option<V2Frame> {
    if |fields| != 1 || !fields[0].Str? || CodeNamed(fields[0].s).None? then None
    else Some(V2Frame.Error(CodeNamed(fields[0].s).value))
  }

  function DecodeBare(fields: seq<Token>, f: V2Frame): Option<V2Frame> {
    if |fields| != 0 then None else Some(f)
  }

  function DecodeFields(kind: string, fields: seq<Token>): Option<V2Frame> {
    if kind == "connect" then DecodeConnect(fields)
    else if kind == "ready" then DecodeReady(fields)
    else if kind == "resume" then DecodeResume(fields)
    else if kind == "resumed" then DecodeResumed(fields)
    else if kind == "data" then DecodeData(fields)
    else if kind == "ack" then DecodeAck(fields)
    else if kind == "detach" then DecodeBare(fields, Detach)
    else if kind == "close" then DecodeBare(fields, Close)
    else if kind == "ping" then DecodeBare(fields, Ping)
    else if kind == "pong" then DecodeBare(fields, Pong)
    else if kind == "error" then DecodeError(fields)
    else None
  }

  function Decode(raw: string): Option<V2Frame> {
    if Utf16Length(raw) > MAX_DATA_LENGTH then None
    else
      var parts := ParseArray(raw);
      if parts.None? || |parts.value| < 2 || parts.value[0] != Int(2) || !parts.value[1].Str? then None
      else
        var kind := parts.value[1].s;
        if kind != "data" && Utf16Length(raw) > MAX_CONTROL_LENGTH then None
        else DecodeFields(kind, parts.value[2..])
  }

  /** Encoding throws, here None, unless the relay's own decoder takes the text. */
  function Encode(f: V2Frame): Option<string> {
    var raw := Print(f);
    if Decode(raw).None? then None else Some(raw)
  }

  // ---- Fields round trip ----

  lemma GraceRoundTrip(grace: Option<int>)
    ensures GraceOf(GraceToken(grace)) == if IsGrace(grace) then Some(grace) else None
  {
  }

  lemma NamesRoundTrip(d: Direction, code: ErrorCode)
    ensures DirectionNamed(Str(DirectionName(d))) == Some(d)
    ensures CodeNamed(CodeName(code)) == Some(code)
  {
    assert "client"[0] != "server"[0];
    CodesDiffer();
  }

  lemma CodesDiffer()
    ensures forall a: ErrorCode, b: ErrorCode :: CodeName(a) == CodeName(b) ==> a == b
  {
    forall a: ErrorCode, b: ErrorCode | CodeName(a) == CodeName(b) ensures a == b {
      assert CodeName(a)[0] == CodeName(b)[0] && |CodeName(a)| == |CodeName(b)| && CodeName(a)[2] == CodeName(b)[2];
    }
  }

  lemma DataRoundTrip(d: Direction, offset: int, payload: seq<byte>)
    ensures DecodeData([Str(DirectionName(d)), Int(offset), Str(B.Encode64(payload))]) ==
      if WellFormed(Data(d, offset, payload)) then Some(Data(d, offset, payload)) else None
  {
    hide B.Encode64, B.RelayDecode;
    var text := B.Encode64(payload);
    NamesRoundTrip(d, Expired);
    B.EncodedIsShaped(payload);
    B.OneTextPerPayload(text, payload);
    EncodedIsPlain(payload);
    PlainPrintsItself(text);
  }

  lemma {:induction false} EncodedIsPlain(payload: seq<byte>)
    ensures Plain(B.Encode64(payload))
  {
    hide B.First, B.Second, B.Third, B.Fourth;
    if |payload| >= 3 {
      EncodedIsPlain(payload[3..]);
    }
  }

  /** On the fields of a frame the decoder finds the frame, or nothing when it is malformed. */
  lemma FieldsRoundTrip(f: V2Frame)
    ensures DecodeFields(KindName(f), FieldTokens(f)) == if WellFormed(f) then Some(f) else None
  {
    hide B.Encode64, IsHost, IsToken, IsSessionId, CodeNamed, DecodeData;
    match f
    case Connect(_, _, grace) => GraceRoundTrip(grace);
    case Ready(_, _, _, granted, cap) => GraceRoundTrip(granted); GraceRoundTrip(cap);
    case Resume(_, _, _, _) =>
    case Resumed(_, _, _) =>
    case Data(d, offset, payload) => DataRoundTrip(d, offset, payload);
    case Ack(d, _) => NamesRoundTrip(d, Expired);
    case Detach =>
    case Close =>
    case Ping =>
    case Pong =>
    case Error(code) => NamesRoundTrip(Client, code);
  }

  // ---- Lengths ----

  /** Printed lengths of the tokens and a separator each. */
  function LengthBound(tokens: seq<Token>): nat {
    if tokens == [] then 0 else Utf16Length(PrintToken(tokens[0])) + 1 + LengthBound(tokens[1..])
  }

  lemma {:induction false} ItemsWithinBound(tokens: seq<Token>)
    ensures Utf16Length(PrintItems(tokens)) <= LengthBound(tokens)
  {
    hide PrintToken;
    if |tokens| > 1 {
      ItemsWithinBound(tokens[1..]);
      LengthAppends(PrintToken(tokens[0]) + ",", PrintItems(tokens[1..]));
      LengthAppends(PrintToken(tokens[0]), ",");
    }
  }

  lemma ArrayWithinBound(tokens: seq<Token>)
    ensures Utf16Length(PrintArray(tokens)) <= LengthBound(tokens) + 2
  {
    ItemsWithinBound(tokens);
    LengthAppends("[" + PrintItems(tokens), "]");
    LengthAppends("[", PrintItems(tokens));
  }

  /** Longest control token: a host of 253 units with every one escaped, and its quotes. */
  const CONTROL_TOKEN_LENGTH: nat := 508

  lemma {:induction false} ControlBound(tokens: seq<Token>)
    requires forall i :: 0 <= i < |tokens| ==> Utf16Length(PrintToken(tokens[i])) <= CONTROL_TOKEN_LENGTH
    ensures LengthBound(tokens) <= (CONTROL_TOKEN_LENGTH + 1) * |tokens|
  {
    hide PrintToken;
    if tokens != [] {
      ControlBound(tokens[1..]);
    }
  }

  lemma StringLength(s: string)
    ensures Utf16Length(PrintToken(Str(s))) == Utf16Length(Escape(s)) + 2
  {
    LengthAppends("\"" + Escape(s), "\"");
    LengthAppends("\"", Escape(s));
  }

  lemma PlainLength(s: string)
    requires Plain(s)
    ensures Utf16Length(PrintToken(Str(s))) == |s| + 2
  {
    StringLength(s);
    PlainPrintsItself(s);
  }

  lemma OffsetLength(n: int)
    requires IsOffset(n)
    ensures Utf16Length(PrintToken(Int(n))) <= 16
  {
    assert Pow10(2) == 100 && Pow10(4) == 10000 && Pow10(6) == 1000000 && Pow10(8) == 100000000;
    assert Pow10(10) == 100 * Pow10(8) && Pow10(12) == 100 * Pow10(10);
    assert Pow10(14) == 100 * Pow10(12) && Pow10(16) == 100 * Pow10(14);
    DigitsBounded(n, 16);
  }

  lemma {:induction false} HostLength(host: string)
    requires forall i :: 0 <= i < |host| ==> !IsRefusedInHost(host[i])
    ensures Utf16Length(Escape(host)) <= 2 * Utf16Length(host)
  {
    if host != "" {
      HostLength(host[1..]);
      LengthAppends(EscapeChar(host[0]), Escape(host[1..]));
      assert !IsRefusedInHost(host[0]);
      var text := EscapeChar(host[0]);
      LengthAtMostDouble(text);
      ShortPlain(text);
      assert |text| == 2 ==> Utf16Length(text) == 2 by {
        if |text| == 2 {
          BasicPlane(text);
        }
      }
    }
  }

  lemma GraceLength(grace: Option<int>)
    requires IsGrace(grace)
    ensures Utf16Length(PrintToken(GraceToken(grace))) <= 16
  {
    if grace.Some? {
      OffsetLength(grace.value);
    } else {
      LengthAtMostDouble("null");
    }
  }

  lemma NamesAreBrief(f: V2Frame, d: Direction, code: ErrorCode)
    ensures |KindName(f)| <= 7 && |DirectionName(d)| == 6 && |CodeName(code)| <= 18
  {
  }

  lemma DirectionIsPlain(d: Direction)
    ensures Plain(DirectionName(d)) && |DirectionName(d)| == 6 && Plain("data")
  {
  }

  lemma IdsArePlain(s: string)
    requires IsSessionId(s) || IsToken(s)
    ensures Plain(s)
  {
  }

  ghost predicate Short(t: Token) {
    Utf16Length(PrintToken(t)) <= CONTROL_TOKEN_LENGTH
  }

  lemma NameIsShort(s: string)
    requires |s| <= 18
    ensures Short(Str(s))
  {
    StringLength(s);
    EscapeLength(s);
    LengthAtMostDouble(s);
  }

  lemma NumberIsShort(n: int)
    requires IsOffset(n)
    ensures Short(Int(n))
  {
    OffsetLength(n);
  }

  lemma IdIsShort(s: string)
    requires IsSessionId(s) || IsToken(s)
    ensures Short(Str(s))
  {
    IdsArePlain(s);
    PlainLength(s);
  }

  lemma FieldsAreShort(f: V2Frame)
    requires WellFormed(f) && !f.Data?
    ensures forall i :: 0 <= i < |FieldTokens(f)| ==> Short(FieldTokens(f)[i])
  {
    hide Short, IsSessionId, IsToken, Plain, IsRefusedInHost, Utf16Length, DirectionName, CodeName;
    match f
    case Connect(host, port, grace) =>
      HostIsShort(host);
      NumberIsShort(port);
      GraceIsShort(grace);
    case Ready(id, token, maxUnacked, granted, cap) =>
      IdIsShort(id);
      IdIsShort(token);
      NumberIsShort(maxUnacked);
      GraceIsShort(granted);
      GraceIsShort(cap);
    case Resume(id, token, clientAck, serverAck) =>
      IdIsShort(id);
      IdIsShort(token);
      NumberIsShort(clientAck);
      NumberIsShort(serverAck);
    case Resumed(clientAck, serverAck, newToken) =>
      NumberIsShort(clientAck);
      NumberIsShort(serverAck);
      IdIsShort(newToken);
    case Ack(d, offset) =>
      NamesAreBrief(f, d, Expired);
      NameIsShort(DirectionName(d));
      NumberIsShort(offset);
    case Error(code) =>
      NamesAreBrief(f, Client, code);
      NameIsShort(CodeName(code));
    case Detach =>
    case Close =>
    case Ping =>
    case Pong =>
  }

  lemma HostIsShort(host: string)
    requires IsHost(host)
    ensures Short(Str(host))
  {
    HostLength(host);
    StringLength(host);
  }

  lemma GraceIsShort(grace: Option<int>)
    requires IsGrace(grace)
    ensures Short(GraceToken(grace))
  {
    GraceLength(grace);
  }

  lemma ControlFits(f: V2Frame)
    requires WellFormed(f) && !f.Data?
    ensures Utf16Length(Print(f)) <= MAX_CONTROL_LENGTH
  {
    hide WellFormed, Utf16Length, KindName, PrintArray, PrintToken, FieldTokens, LengthBound;
    var tokens := Tokens(f);
    FieldsAreShort(f);
    NamesAreBrief(f, Client, Expired);
    NameIsShort(KindName(f));
    NumberIsShort(2);
    FewFields(f);
    ControlBound(tokens);
    ArrayWithinBound(tokens);
  }

  lemma FewFields(f: V2Frame)
    ensures |FieldTokens(f)| <= 5
  {
  }

  lemma DataFits(d: Direction, offset: int, payload: seq<byte>)
    requires WellFormed(Data(d, offset, payload))
    ensures Utf16Length(Print(Data(d, offset, payload))) <= MAX_DATA_LENGTH
  {
    hide Utf16Length, PrintToken, PrintArray, Plain, DirectionName, B.Encode64;
    var text := B.Encode64(payload);
    var f := Data(d, offset, payload);
    DirectionIsPlain(d);
    B.EncodedIsShaped(payload);
    EncodedIsPlain(payload);
    PlainLength("data");
    PlainLength(DirectionName(d));
    PlainLength(text);
    OffsetLength(2);
    OffsetLength(offset);
    FiveBound(Int(2), Str("data"), Str(DirectionName(d)), Int(offset), Str(text));
    ArrayWithinBound(Tokens(f));
    assert Tokens(f) == [Int(2), Str("data"), Str(DirectionName(d)), Int(offset), Str(text)];
  }

  lemma FiveBound(a: Token, b: Token, c: Token, d: Token, e: Token)
    ensures LengthBound([a, b, c, d, e]) ==
      Utf16Length(PrintToken(a)) + Utf16Length(PrintToken(b)) + Utf16Length(PrintToken(c)) +
      Utf16Length(PrintToken(d)) + Utf16Length(PrintToken(e)) + 5
  {
    hide PrintToken, Utf16Length;
    assert [a, b, c, d, e][1..] == [b, c, d, e];
    assert [b, c, d, e][1..] == [c, d, e];
    assert [c, d, e][1..] == [d, e];
    assert [d, e][1..] == [e];
    assert [e][1..] == [];
    assert LengthBound([e]) == Utf16Length(PrintToken(e)) + 1;
    assert LengthBound([d, e]) == Utf16Length(PrintToken(d)) + 1 + LengthBound([e]);
    assert LengthBound([c, d, e]) == Utf16Length(PrintToken(c)) + 1 + LengthBound([d, e]);
    assert LengthBound([b, c, d, e]) == Utf16Length(PrintToken(b)) + 1 + LengthBound([c, d, e]);
  }

  // ---- Round trip ----

  lemma DecodePrinted(f: V2Frame)
    ensures WellFormed(f) ==> Decode(Print(f)) == Some(f)
    ensures !WellFormed(f) ==> Decode(Print(f)) == None
  {
    hide WellFormed, DecodeFields, FieldTokens, KindName, PrintArray, ParseArray, Utf16Length;
    ArrayRoundTrip(Tokens(f));
    FieldsRoundTrip(f);
    assert Tokens(f)[2..] == FieldTokens(f);
    OnlyDataIsNamedData(f);
    if WellFormed(f) {
      if f.Data? {
        DataFits(f.direction, f.offset, f.payload);
      } else {
        ControlFits(f);
      }
    }
  }

  lemma OnlyDataIsNamedData(f: V2Frame)
    ensures KindName(f) == "data" <==> f.Data?
  {
    assert KindName(f) == "data" ==> |KindName(f)| == 4 && KindName(f)[0] == 'd';
  }

  /**
   * Round trip: encoding throws on no well-formed frame and on every other one,
   * and what it prints decodes to the frame and to no other.
   */
  lemma CodecRoundTrip(f: V2Frame)
    ensures Encode(f).Some? <==> WellFormed(f)
    ensures Encode(f).Some? ==> Decode(Encode(f).value) == Some(f)
  {
    hide WellFormed, Decode, Print;
    DecodePrinted(f);
  }

  function Quoted(s: string): string {
    "\"" + s + "\""
  }

  lemma PrintedName(s: string)
    requires Plain(s)
    ensures PrintToken(Str(s)) == Quoted(s)
  {
    PlainPrintsItself(s);
  }

  lemma TwoItems(a: Token, b: Token)
    ensures PrintArray([a, b]) == "[" + PrintToken(a) + "," + PrintToken(b) + "]"
  {
    hide PrintToken;
    assert [a, b][1..] == [b];
    assert PrintItems([b]) == PrintToken(b);
  }

  lemma OneMoreItem(a: Token, rest: seq<Token>)
    requires rest != []
    ensures PrintItems([a] + rest) == PrintToken(a) + "," + PrintItems(rest)
  {
    hide PrintToken;
    assert ([a] + rest)[1..] == rest;
  }

  lemma PrintedTwo()
    ensures PrintToken(Int(2)) == "2"
  {
  }

  /** The texts of the frames without fields. */
  lemma BareWireShape(f: V2Frame)
    requires f.Detach? || f.Close? || f.Ping? || f.Pong?
    ensures Print(f) == "[2,\"" + KindName(f) + "\"]"
  {
    hide PrintToken, PrintArray;
    PrintedTwo();
    BareNameIsPlain(f);
    PrintedName(KindName(f));
    TwoItems(Int(2), Str(KindName(f)));
    assert Tokens(f) == [Int(2), Str(KindName(f))];
  }

  lemma BareNameIsPlain(f: V2Frame)
    requires f.Detach? || f.Close? || f.Ping? || f.Pong?
    ensures Plain(KindName(f))
  {
  }

  /** The text of a data frame: kind, direction, offset in decimal, payload in base64. */
  lemma DataWireShape(d: Direction, offset: nat, payload: seq<byte>)
    ensures Print(Data(d, offset, payload)) ==
      "[" + "2" + "," + Quoted("data") + "," + Quoted(DirectionName(d)) + "," + PrintNat(offset) + "," +
      Quoted(B.Encode64(payload)) + "]"
  {
    hide PrintToken, PrintArray, PrintNat, DirectionName, Plain, Quoted, B.Encode64;
    var text := B.Encode64(payload);
    PrintedTwo();
    DirectionIsPlain(d);
    EncodedIsPlain(payload);
    PrintedName("data");
    PrintedName(DirectionName(d));
    PrintedName(text);
    PrintedOffset(offset);
    FiveItems(Int(2), Str("data"), Str(DirectionName(d)), Int(offset), Str(text));
    assert Tokens(Data(d, offset, payload)) == [Int(2), Str("data"), Str(DirectionName(d)), Int(offset), Str(text)];
  }

  lemma FiveItems(a: Token, b: Token, c: Token, d: Token, e: Token)
    ensures PrintArray([a, b, c, d, e]) ==
      "[" + PrintToken(a) + "," + PrintToken(b) + "," + PrintToken(c) + "," + PrintToken(d) + "," + PrintToken(e) + "]"
  {
    hide PrintToken, PrintItems;
    LastItem(e);
    OneMoreItem(d, [e]);
    OneMoreItem(c, [d, e]);
    OneMoreItem(b, [c, d, e]);
    OneMoreItem(a, [b, c, d, e]);
    assert [d] + [e] == [d, e] && [c] + [d, e] == [c, d, e];
    assert [b] + [c, d, e] == [b, c, d, e] && [a] + [b, c, d, e] == [a, b, c, d, e];
  }

  lemma LastItem(t: Token)
    ensures PrintItems([t]) == PrintToken(t)
  {
  }

  lemma PrintedOffset(offset: nat)
    ensures PrintToken(Int(offset)) == PrintNat(offset)
  {
  }

  lemma EncodeIsInjective(f: V2Frame, g: V2Frame)
    requires Encode(f).Some? && Encode(f) == Encode(g)
    ensures f == g
  {
    hide WellFormed, Decode, Encode;
    CodecRoundTrip(f);
    CodecRoundTrip(g);
  }

  lemma DataDecodedOk(fields: seq<Token>)
    ensures DecodeData(fields).Some? ==> WellFormed(DecodeData(fields).value) && DecodeData(fields).value.Data?
  {
    hide B.RelayDecode, Utf16Length;
  }

  /** The decoder is strict: whatever text it takes, the frame is well formed, so it can be encoded again. */
  lemma DecodedIsWellFormed(raw: string)
    ensures Decode(raw).Some? ==> WellFormed(Decode(raw).value)
  {
    hide Utf16Length, ParseArray, DecodeData, IsHost, IsSessionId, IsToken, CodeNamed;
    if Decode(raw).Some? {
      DataDecodedOk(ParseArray(raw).value[2..]);
    }
  }

  // ---- What the Go side reads ----

  lemma {:induction false} Utf8AtMostTriple(s: string)
    ensures Utf8Length(s) <= 3 * Utf16Length(s)
  {
    if s != "" {
      Utf8AtMostTriple(s[1..]);
    }
  }

  predicate Ascii(s: string) {
    forall i :: 0 <= i < |s| ==> s[i] as int < 0x80
  }

  lemma {:induction false} AsciiLength(s: string)
    requires Ascii(s)
    ensures Utf8Length(s) == Utf16Length(s)
  {
    if s != "" {
      assert s[0] as int < 0x80;
      AsciiLength(s[1..]);
    }
  }

  lemma {:induction false} NatIsAscii(n: nat)
    ensures Ascii(PrintNat(n))
  {
    if n >= 10 {
      NatIsAscii(n / 10);
    }
  }

  lemma PlainTokenIsAscii(s: string)
    requires Plain(s)
    ensures Ascii(PrintToken(Str(s)))
  {
    PlainPrintsItself(s);
  }

  lemma {:induction false} ItemsAreAscii(tokens: seq<Token>)
    requires forall i :: 0 <= i < |tokens| ==> Ascii(PrintToken(tokens[i]))
    ensures Ascii(PrintItems(tokens))
  {
    hide PrintToken;
    if tokens != [] {
      ItemsAreAscii(tokens[1..]);
    }
  }

  lemma DataIsAscii(d: Direction, offset: nat, payload: seq<byte>)
    ensures Ascii(Print(Data(d, offset, payload)))
  {
    hide Ascii, Plain, PrintToken, DirectionName, B.Encode64, PrintItems;
    var f := Data(d, offset, payload);
    var text := B.Encode64(payload);
    DirectionIsPlain(d);
    EncodedIsPlain(payload);
    NumberIsAscii(2);
    NumberIsAscii(offset);
    PlainTokenIsAscii("data");
    PlainTokenIsAscii(DirectionName(d));
    PlainTokenIsAscii(text);
    ItemsAreAscii(Tokens(f));
    BracketsAreAscii(PrintItems(Tokens(f)));
  }

  lemma NumberIsAscii(n: nat)
    ensures Ascii(PrintToken(Int(n)))
  {
    NatIsAscii(n);
  }

  lemma BracketsAreAscii(s: string)
    requires Ascii(s)
    ensures Ascii("[" + s + "]")
  {
  }

  /** Every frame the relay can send is within the Go side's limit in bytes. */
  lemma GoReadsWhatTheRelaySends(f: V2Frame)
    requires Encode(f).Some?
    ensures Utf8Length(Encode(f).value) <= GO_MAX_LENGTH
  {
    hide WellFormed, Decode, Print, Ascii;
    CodecRoundTrip(f);
    if f.Data? {
      DataOffset(f);
      DataIsAscii(f.direction, f.offset, f.payload);
      AsciiLength(Print(f));
      DataFits(f.direction, f.offset, f.payload);
    } else {
      ControlFits(f);
      Utf8AtMostTriple(Print(f));
    }
  }

  lemma DataOffset(f: V2Frame)
    requires f.Data? && WellFormed(f)
    ensures f.offset >= 0
  {
  }
}
