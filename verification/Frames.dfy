/** The frames of relay protocol version 2 and the limits both ends share. */
module Frames {

  newtype byte = x: int | 0 <= x < 256

  datatype Option<+T> = None | Some(value: T) {
    predicate IsFailure() {
      None?
    }

    function PropagateFailure<U>(): Option<U>
      requires None?
    {
      None
    }

    function Extract(): T
      requires Some?
    {
      value
    }
  }

  /** Bytes either end may hold unacknowledged in one direction. */
  const MAX_UNACKED_BYTES: nat := 262144

  /** Payload bytes either end puts in one data frame when it flushes. */
  const SEND_CHUNK_BYTES: nat := 32768

  datatype Direction = Client | Server

  datatype ErrorCode =
    | Expired
    | OffsetMismatch
    | InvalidFrame
    | SessionClosed
    | RetentionExceeded
    | ResumeDisabled
    | Superseded

  /** Offsets are integers, because the Go side accepts any 64-bit value before it checks the range. */
  datatype V2Frame =
    | Connect(host: string, port: int, requestedGraceMs: Option<int>)
    | Ready(sessionId: string, token: string, maxUnackedBytes: int,
            grantedGraceMs: Option<int>, capGraceMs: Option<int>)
    | Resume(sessionId: string, token: string, clientAck: int, serverAck: int)
    | Resumed(clientAck: int, serverAck: int, newToken: string)
    | Data(direction: Direction, offset: int, payload: seq<byte>)
    | Ack(direction: Direction, offset: int)
    | Detach
    | Close
    | Ping
    | Pong
    | Error(code: ErrorCode)

  predicate IsLowerHex(c: char) {
    '0' <= c <= '9' || 'a' <= c <= 'f'
  }

  predicate IsAnyHex(c: char) {
    IsLowerHex(c) || 'A' <= c <= 'F'
  }

  /** A session id as the relay validates it. */
  predicate IsSessionId(s: string) {
    |s| == 32 && forall i :: 0 <= i < |s| ==> IsLowerHex(s[i])
  }

  /** A token as the relay validates it. */
  predicate IsToken(s: string) {
    |s| == 64 && forall i :: 0 <= i < |s| ==> IsLowerHex(s[i])
  }

  /** Hex of the given length in either case, which is what the Go side checks. */
  predicate IsHexOfLength(s: string, n: nat) {
    |s| == n && forall i :: 0 <= i < |s| ==> IsAnyHex(s[i])
  }

  /** What either end did with a frame or an event. */
  datatype Outcome = Accepted | Ignored | Ended | Rejected(code: ErrorCode)

  function Min(a: int, b: int): (m: int)
    ensures m <= a && m <= b && (m == a || m == b)
  {
    if a <= b then a else b
  }

  /** Data frames that carry exactly `bytes`, from offset `from` to `to`, in order, 1 to 32768 bytes each. */
  ghost predicate DataRun(frames: seq<V2Frame>, direction: Direction, from: int, to: int, bytes: seq<byte>)
    decreases |frames|
  {
    |bytes| == to - from &&
    if frames == [] then from == to
    else
      frames[0].Data? && frames[0].direction == direction && frames[0].offset == from &&
      var n := |frames[0].payload|;
      0 < n <= SEND_CHUNK_BYTES && from + n <= to &&
      frames[0].payload == bytes[..n] && DataRun(frames[1..], direction, from + n, to, bytes[n..])
  }

  lemma SliceSplits(s: seq<byte>, a: nat, b: nat, c: nat)
    requires a <= b <= c <= |s|
    ensures s[a..c][..b - a] == s[a..b]
    ensures s[a..c][b - a..] == s[b..c]
  {
  }

  lemma SliceOfSlice(s: seq<byte>, a: nat, b: nat, from: nat, n: nat)
    requires a <= from && from + n <= b <= |s|
    ensures s[a..b][from - a..from - a + n] == s[from..from + n]
  {
    var inner, outer := s[a..b][from - a..from - a + n], s[from..from + n];
    assert forall i :: 0 <= i < n ==> inner[i] == outer[i];
  }

  lemma SlicesJoin(s: seq<byte>, a: nat, b: nat, c: nat)
    requires a <= b <= c <= |s|
    ensures s[a..b] + s[b..c] == s[a..c]
  {
  }
}
