/**
 * The payload text of a data frame: base64 (section 4 of RFC 4648) with exactly
 * one accepted text for each payload (section 3.5 of RFC 4648). The relay tests
 * the shape, decodes leniently and compares with the re-encoding; the Go side
 * decodes strictly. Both accept the same texts.
 */
module Base64 {
  import opened Frames

  newtype sextet = x: int | 0 <= x < 64

  function Char64(v: sextet): char {
    var n := v as int;
    if n < 26 then (n + 65) as char
    else if n < 52 then (n + 71) as char
    else if n < 62 then (n - 4) as char
    else if n == 62 then '+' else '/'
  }

  predicate IsChar64(c: char) {
    'A' <= c <= 'Z' || 'a' <= c <= 'z' || '0' <= c <= '9' || c == '+' || c == '/'
  }

  function Value64(c: char): sextet
    requires IsChar64(c)
  {
    var n := c as int;
    if 'A' <= c <= 'Z' then (n - 65) as sextet
    else if 'a' <= c <= 'z' then (n - 71) as sextet
    else if '0' <= c <= '9' then (n + 4) as sextet
    else if c == '+' then 62 else 63
  }

  lemma ValueOfChar(v: sextet)
    ensures IsChar64(Char64(v)) && Value64(Char64(v)) == v
  {
  }

  lemma CharOfValue(c: char)
    requires IsChar64(c)
    ensures Char64(Value64(c)) == c
  {
  }

  // ---- Groups of three bytes and four characters ----

  function First(a: byte): sextet { (a as int / 4) as sextet }
  function Second(a: byte, b: byte): sextet { (a as int % 4 * 16 + b as int / 16) as sextet }
  function Third(b: byte, c: byte): sextet { (b as int % 16 * 4 + c as int / 64) as sextet }
  function Fourth(c: byte): sextet { (c as int % 64) as sextet }

  function High(v: sextet, w: sextet): byte { (v as int * 4 + w as int / 16) as byte }
  function Mid(w: sextet, x: sextet): byte { (w as int % 16 * 16 + x as int / 4) as byte }
  function Low(x: sextet, y: sextet): byte { (x as int % 4 * 64 + y as int) as byte }

  lemma BytesThroughSextets(a: byte, b: byte, c: byte)
    ensures High(First(a), Second(a, b)) == a
    ensures Mid(Second(a, b), Third(b, c)) == b
    ensures Low(Third(b, c), Fourth(c)) == c
  {
  }

  lemma SextetsThroughBytes(v: sextet, w: sextet, x: sextet, y: sextet)
    ensures First(High(v, w)) == v
    ensures Second(High(v, w), Mid(w, x)) == w
    ensures Third(Mid(w, x), Low(x, y)) == x
    ensures Fourth(Low(x, y)) == y
  {
  }

  /** With the unused low bits cleared the last sextet comes back; otherwise it does not. */
  lemma PaddedSextets(v: sextet, w: sextet, x: sextet)
    ensures First(High(v, w)) == v
    ensures Second(High(v, w), 0) == w <==> w as int % 16 == 0
    ensures Second(High(v, w), Mid(w, x)) == w
    ensures Third(Mid(w, x), 0) == x <==> x as int % 4 == 0
  {
  }

  function Encode64(bytes: seq<byte>): string {
    if |bytes| == 0 then ""
    else if |bytes| == 1 then
      [Char64(First(bytes[0])), Char64(Second(bytes[0], 0)), '=', '=']
    else if |bytes| == 2 then
      [Char64(First(bytes[0])), Char64(Second(bytes[0], bytes[1])), Char64(Third(bytes[1], 0)), '=']
    else
      [Char64(First(bytes[0])), Char64(Second(bytes[0], bytes[1])),
       Char64(Third(bytes[1], bytes[2])), Char64(Fourth(bytes[2]))] + Encode64(bytes[3..])
  }

  /** Full groups of the alphabet, the last one possibly padded with one or two `=`. */
  predicate Shaped(text: string) {
    text == "" ||
    (|text| >= 4 && IsChar64(text[0]) && IsChar64(text[1]) &&
     ((IsChar64(text[2]) && IsChar64(text[3]) && Shaped(text[4..])) ||
      (|text| == 4 && text[3] == '=' && (IsChar64(text[2]) || text[2] == '='))))
  }

  /** Decodes well-shaped text and ignores the bits a padded group leaves over. */
  function Decode64(text: string): seq<byte>
    requires Shaped(text)
  {
    if text == "" then []
    else
      var v, w := Value64(text[0]), Value64(text[1]);
      if text[2] == '=' then [High(v, w)]
      else
        var x := Value64(text[2]);
        if text[3] == '=' then [High(v, w), Mid(w, x)]
        else [High(v, w), Mid(w, x), Low(x, Value64(text[3]))] + Decode64(text[4..])
  }

  /** The relay's test: shaped, and the re-encoded payload is the same text. */
  function RelayDecode(text: string): Option<seq<byte>> {
    if Shaped(text) && Encode64(Decode64(text)) == text then Some(Decode64(text)) else None
  }

  /** No bit is set that a padded last group would leave over. */
  predicate NoSpareBits(text: string)
    requires Shaped(text)
  {
    text == "" ||
    (if text[2] == '=' then Value64(text[1]) as int % 16 == 0
     else if text[3] == '=' then Value64(text[2]) as int % 4 == 0
     else NoSpareBits(text[4..]))
  }

  /** The Go side's strict decoder. */
  function StrictDecode(text: string): Option<seq<byte>> {
    if Shaped(text) && NoSpareBits(text) then Some(Decode64(text)) else None
  }

  // ---- One text for each payload ----

  lemma {:induction false} EncodedIsShaped(bytes: seq<byte>)
    ensures Shaped(Encode64(bytes)) && Decode64(Encode64(bytes)) == bytes
    ensures |Encode64(bytes)| == (|bytes| + 2) / 3 * 4
  {
    hide Char64, Value64, First, Second, Third, Fourth, High, Mid, Low, IsChar64;
    var text := Encode64(bytes);
    EqualsIsNoChar64();
    if |bytes| == 1 {
      Chars(First(bytes[0]), Second(bytes[0], 0), 0, 0);
      BytesThroughSextets(bytes[0], 0, 0);
    } else if |bytes| == 2 {
      Chars(First(bytes[0]), Second(bytes[0], bytes[1]), Third(bytes[1], 0), 0);
      BytesThroughSextets(bytes[0], bytes[1], 0);
    } else if |bytes| >= 3 {
      Chars(First(bytes[0]), Second(bytes[0], bytes[1]), Third(bytes[1], bytes[2]), Fourth(bytes[2]));
      BytesThroughSextets(bytes[0], bytes[1], bytes[2]);
      EncodedIsShaped(bytes[3..]);
      assert text[4..] == Encode64(bytes[3..]);
      assert bytes == bytes[..3] + bytes[3..];
    }
  }

  lemma EqualsIsNoChar64()
    ensures !IsChar64('=')
  {
  }

  lemma Chars(v: sextet, w: sextet, x: sextet, y: sextet)
    ensures IsChar64(Char64(v)) && Value64(Char64(v)) == v
    ensures IsChar64(Char64(w)) && Value64(Char64(w)) == w
    ensures IsChar64(Char64(x)) && Value64(Char64(x)) == x
    ensures IsChar64(Char64(y)) && Value64(Char64(y)) == y
  {
    ValueOfChar(v);
    ValueOfChar(w);
    ValueOfChar(x);
    ValueOfChar(y);
  }

  /** Re-encoding gives the text back exactly when it sets no spare bit. */
  lemma {:induction false} ReencodesExactlyWhenStrict(text: string)
    requires Shaped(text)
    ensures Encode64(Decode64(text)) == text <==> NoSpareBits(text)
  {
    hide Char64, Value64, First, Second, Third, Fourth, High, Mid, Low, IsChar64;
    EqualsIsNoChar64();
    if text != "" {
      var v, w := Value64(text[0]), Value64(text[1]);
      CharOfValue(text[0]);
      CharOfValue(text[1]);
      if text[2] == '=' {
        PaddedSextets(v, w, 0);
        CharIsValue(Second(High(v, w), 0), w);
        assert text == [text[0], text[1], '=', '='];
      } else if text[3] == '=' {
        var x := Value64(text[2]);
        CharOfValue(text[2]);
        PaddedSextets(v, w, x);
        CharIsValue(Third(Mid(w, x), 0), x);
        assert text == [text[0], text[1], text[2], '='];
      } else {
        FullGroup(text);
        ReencodesExactlyWhenStrict(text[4..]);
      }
    }
  }

  lemma CharIsValue(v: sextet, w: sextet)
    ensures Char64(v) == Char64(w) <==> v == w
  {
    ValueOfChar(v);
    ValueOfChar(w);
  }

  /** A full group re-encodes to itself, whatever follows. */
  lemma FullGroup(text: string)
    requires Shaped(text) && text != "" && text[2] != '=' && text[3] != '='
    ensures Encode64(Decode64(text)) == text[..4] + Encode64(Decode64(text[4..]))
    ensures Encode64(Decode64(text)) == text <==> Encode64(Decode64(text[4..])) == text[4..]
  {
    hide Char64, Value64, First, Second, Third, Fourth, High, Mid, Low, IsChar64;
    var v, w, x, y := Value64(text[0]), Value64(text[1]), Value64(text[2]), Value64(text[3]);
    CharOfValue(text[0]);
    CharOfValue(text[1]);
    CharOfValue(text[2]);
    CharOfValue(text[3]);
    SextetsThroughBytes(v, w, x, y);
    var rest := Decode64(text[4..]);
    assert Decode64(text) == [High(v, w), Mid(w, x), Low(x, y)] + rest;
    assert Decode64(text)[3..] == rest;
    assert text[..4] == [text[0], text[1], text[2], text[3]];
    assert text == text[..4] + text[4..];
    assert (text[..4] + Encode64(rest))[4..] == Encode64(rest);
  }

  /**
   * Canonical text: the relay's comparison and the Go side's strict decoder
   * accept the same texts with the same payload, and those are exactly the
   * encodings, one for each payload.
   */
  lemma OneTextPerPayload(text: string, payload: seq<byte>)
    ensures RelayDecode(text) == StrictDecode(text)
    ensures RelayDecode(text) == Some(payload) <==> text == Encode64(payload)
  {
    if Shaped(text) {
      ReencodesExactlyWhenStrict(text);
    }
    EncodedIsShaped(payload);
  }
}
