/** Length-prefixed frames of canonical JSON contracts on a byte stream. */
module Frames {
  import opened Json
  import opened JsonReader
  import opened JsonRoundTrip
  import opened Canonical
  import opened ClosedDecoder
  import opened Options

  const MAX_BROKER_MESSAGE_BYTES: nat := 65536

  datatype FrameError =
    | InvalidLength(length: nat)
    | TruncatedPrefix
    | TruncatedPayload(expected: nat)
    | NonCanonicalPayload
    | PayloadJson(floats: bool)
    | InvalidEnvelope
    | Io

  datatype FrameResult<+T> = Message(message: T) | Failed(error: FrameError)

  /** A message contract: its schema and the envelope checks a decoded message must pass. */
  datatype Protocol<!T> = Protocol(schema: Schema<T>, validated: T -> bool)

  class Input {
    const data: string
    var position: nat

    ghost predicate Valid() reads this {
      position <= |data|
    }

    function Remaining(): string
      requires Valid()
      reads this
    {
      data[position..]
    }

    constructor (bytes: string)
      ensures Valid() && Remaining() == bytes
    {
      data := bytes;
      position := 0;
    }

    /** Fills a buffer of `n` bytes, or consumes what is left and reports the end of the stream. */
    method ReadExact(n: nat) returns (filled: bool, buffer: string)
      requires Valid()
      modifies this
      ensures Valid()
      ensures filled <==> n <= |old(Remaining())|
      ensures filled ==> buffer == old(Remaining())[..n] && Remaining() == old(Remaining())[n..]
      ensures !filled ==> Remaining() == ""
    {
      if n <= |data| - position {
        filled, buffer := true, data[position..position + n];
        assert data[position..][..n] == data[position..position + n];
        position := position + n;
      } else {
        filled, buffer := false, data[position..];
        position := |data|;
      }
    }
  }

  /** A byte stream that takes `room` more bytes before it fails. */
  class Stream {
    var bytes: string
    var room: nat

    constructor (room: nat)
      ensures bytes == "" && this.room == room
    {
      bytes := "";
      this.room := room;
    }

    /** Writes all of `part`, or as much as the stream takes and fails. */
    method WriteAll(part: string) returns (ok: bool)
      modifies this
      ensures ok <==> |part| <= old(room)
      ensures ok ==> bytes == old(bytes) + part && room == old(room) - |part|
      ensures !ok ==> bytes == old(bytes) + part[..old(room)] && room == 0
    {
      ok := |part| <= room;
      var n := if ok then |part| else room;
      assert part[..|part|] == part;
      bytes := bytes + part[..n];
      room := room - n;
    }
  }

  predicate IsByte(c: char) {
    c as int < 256
  }

  predicate IsBytes(s: string) {
    forall i | 0 <= i < |s| :: IsByte(s[i])
  }

  function Prefix(n: nat): (p: string)
    requires n < 0x1_0000_0000
    ensures |p| == 4
  {
    [(n / 0x100_0000) as char, (n / 0x1_0000 % 256) as char, (n / 256 % 256) as char, (n % 256) as char]
  }

  function PrefixValue(p: string): nat
    requires |p| == 4
  {
    p[0] as int * 0x100_0000 + p[1] as int * 0x1_0000 + p[2] as int * 256 + p[3] as int
  }

  lemma PrefixRoundTrip(n: nat)
    requires n < 0x1_0000_0000
    ensures PrefixValue(Prefix(n)) == n
  {
    assert n / 256 == n / 0x1_0000 * 256 + n / 256 % 256;
    assert n / 0x1_0000 == n / 0x100_0000 * 256 + n / 0x1_0000 % 256;
  }

  lemma PrefixCanonical(p: string)
    requires |p| == 4 && IsBytes(p)
    ensures PrefixValue(p) < 0x1_0000_0000 && Prefix(PrefixValue(p)) == p
  {
    var n := PrefixValue(p);
    assert n / 256 == p[0] as int * 0x1_0000 + p[1] as int * 256 + p[2] as int;
    assert n / 0x1_0000 == p[0] as int * 256 + p[1] as int;
    assert n / 0x100_0000 == p[0] as int;
  }

  function EncodedFrame<T>(x: T, protocol: Protocol<T>): FrameResult<string> {
    match CanonicalJson(protocol.schema.to(x))
    case Ok(payload) =>
      if payload == "" || |payload| > MAX_BROKER_MESSAGE_BYTES then Failed(InvalidLength(|payload|))
      else Message(Prefix(|payload|) + payload)
    case _ => Failed(PayloadJson(true))
  }

  /** The frame is appended whole, or, refused, nothing is; only when the stream itself fails is a
      part of the frame left on it, possibly just its length prefix. */
  method EncodeFrame<T>(x: T, protocol: Protocol<T>, writer: Stream) returns (r: FrameResult<()>)
    modifies writer
    ensures var frame := EncodedFrame(x, protocol);
      && (r.Message? <==> frame.Message? && |frame.message| <= old(writer.room))
      && (r.Message? ==> writer.bytes == old(writer.bytes) + frame.message)
      && (frame.Failed? ==> r == Failed(frame.error) && writer.bytes == old(writer.bytes))
      && (frame.Message? && r.Failed? ==>
          r == Failed(Io) && writer.bytes == old(writer.bytes) + frame.message[..old(writer.room)])
  {
    hide Encode;
    var json := CanonicalJsonV1(protocol.schema.to(x));
    if !json.Ok? {
      return Failed(PayloadJson(true));
    }
    var payload := json.value;
    if payload == "" || |payload| > MAX_BROKER_MESSAGE_BYTES {
      return Failed(InvalidLength(|payload|));
    }
    ghost var room := writer.room;
    var prefix := Prefix(|payload|);
    FramePart(old(writer.bytes), prefix, payload, room);
    var ok := writer.WriteAll(prefix);
    if !ok {
      return Failed(Io);
    }
    ok := writer.WriteAll(payload);
    if !ok {
      return Failed(Io);
    }
    r := Message(());
  }

  lemma FramePart(before: string, prefix: string, payload: string, room: nat)
    ensures before + prefix + payload == before + (prefix + payload)
    ensures room < |prefix| ==> before + prefix[..room] == before + (prefix + payload)[..room]
    ensures |prefix| <= room < |prefix + payload| ==>
      before + prefix + payload[..room - |prefix|] == before + (prefix + payload)[..room]
  {
    if |prefix| <= room < |prefix + payload| {
      assert (prefix + payload)[..room] == prefix + payload[..room - |prefix|];
    } else if room < |prefix| {
      assert (prefix + payload)[..room] == prefix[..room];
    }
  }

  function CheckPayload<T>(payload: string, protocol: Protocol<T>): FrameResult<T> {
    match DecodeClosed(payload, protocol.schema)
    case NonCanonicalInput => Failed(NonCanonicalPayload)
    case FloatForbidden => Failed(PayloadJson(true))
    case InvalidJson => Failed(PayloadJson(false))
    case Ok(x) =>
      if !protocol.validated(x) then Failed(InvalidEnvelope)
      else if CanonicalJson(protocol.schema.to(x)) != Ok(payload) then Failed(NonCanonicalPayload)
      else Message(x)
  }

  /** The first frame of a stream and the bytes after what was consumed. */
  function DecodedFrame<T>(s: string, protocol: Protocol<T>): (FrameResult<T>, string) {
    if |s| < 4 then (Failed(TruncatedPrefix), "")
    else
      var n := PrefixValue(s[..4]);
      if n == 0 || n > MAX_BROKER_MESSAGE_BYTES then (Failed(InvalidLength(n)), s[4..])
      else if |s[4..]| < n then (Failed(TruncatedPayload(n)), "")
      else (CheckPayload(s[4..][..n], protocol), s[4..][n..])
  }

  method DecodeFrame<T>(reader: Input, protocol: Protocol<T>) returns (r: FrameResult<T>)
    requires reader.Valid()
    modifies reader
    ensures reader.Valid()
    ensures (r, reader.Remaining()) == DecodedFrame(old(reader.Remaining()), protocol)
  {
    var filled, prefix := reader.ReadExact(4);
    if !filled {
      return Failed(TruncatedPrefix);
    }
    var length := PrefixValue(prefix);
    if length == 0 || length > MAX_BROKER_MESSAGE_BYTES {
      return Failed(InvalidLength(length));
    }
    var payload;
    filled, payload := reader.ReadExact(length);
    if !filled {
      return Failed(TruncatedPayload(length));
    }
    r := CheckPayload(payload, protocol);
  }

  // ----- main results -----

  /** The messages a peer may put on the wire. */
  ghost predicate Sendable<T(!new)>(x: T, protocol: Protocol<T>) {
    var v := protocol.schema.to(x);
    && protocol.validated(x)
    && protocol.schema.from(v) == Some(x)
    && FloatFree(v) && Readable(v) && Nests(v, LEVELS)
    && EncodedFrame(x, protocol).Message?
  }

  lemma Slices(p: string, payload: string, rest: string)
    requires |p| == 4
    ensures var s := p + payload + rest;
      s[..4] == p && s[4..][..|payload|] == payload && s[4..][|payload|..] == rest
  {
    var s := p + payload + rest;
    assert s[4..] == payload + rest;
  }

  lemma FrameForward<T(!new)>(x: T, protocol: Protocol<T>, rest: string)
    requires Sendable(x, protocol)
    ensures DecodedFrame(EncodedFrame(x, protocol).message + rest, protocol) == (Message(x), rest)
  {
    var payload := Encode(protocol.schema.to(x));
    PrefixRoundTrip(|payload|);
    Slices(Prefix(|payload|), payload, rest);
    ContractRoundTrip(x, protocol.schema, payload);
    assert CheckPayload(payload, protocol) == Message(x);
  }

  lemma FrameBackward<T(!new)>(x: T, protocol: Protocol<T>, s: string, rest: string)
    requires Sendable(x, protocol) && IsBytes(s) && DecodedFrame(s, protocol) == (Message(x), rest)
    ensures s == EncodedFrame(x, protocol).message + rest
  {
    var n := PrefixValue(s[..4]);
    var payload := s[4..][..n];
    assert CheckPayload(payload, protocol) == Message(x);
    assert CanonicalJson(protocol.schema.to(x)) == Ok(payload);
    PrefixCanonical(s[..4]);
    assert s == s[..4] + payload + rest;
  }

  /** One frame decodes to its message and nothing after it is consumed; conversely only the
      exact frame of a message decodes to it. */
  lemma FrameRoundTrip<T(!new)>(x: T, protocol: Protocol<T>, s: string, rest: string)
    requires Sendable(x, protocol) && IsBytes(s)
    ensures DecodedFrame(s, protocol) == (Message(x), rest) <==> s == EncodedFrame(x, protocol).message + rest
  {
    if s == EncodedFrame(x, protocol).message + rest {
      FrameForward(x, protocol, rest);
    }
    if DecodedFrame(s, protocol) == (Message(x), rest) {
      FrameBackward(x, protocol, s, rest);
    }
  }

  function Concatenated<T>(xs: seq<T>, protocol: Protocol<T>): string {
    if xs == [] then ""
    else
      (match EncodedFrame(xs[0], protocol) case Message(frame) => frame case Failed(_) => "")
      + Concatenated(xs[1..], protocol)
  }

  /** Decodes until the stream is empty or a frame fails. */
  function DecodedStream<T>(s: string, protocol: Protocol<T>): (seq<T>, string)
    decreases |s|
  {
    var (first, rest) := DecodedFrame(s, protocol);
    if s == "" || first.Failed? then ([], s)
    else
      var (more, end) := DecodedStream(rest, protocol);
      ([first.message] + more, end)
  }

  /** A stream of encoded frames decodes to the same messages, and every byte is consumed. */
  lemma {:induction false} StreamRoundTrip<T(!new)>(xs: seq<T>, protocol: Protocol<T>)
    requires forall i | 0 <= i < |xs| :: Sendable(xs[i], protocol)
    requires IsBytes(Concatenated(xs, protocol))
    ensures DecodedStream(Concatenated(xs, protocol), protocol) == (xs, "")
  {
    if xs != [] {
      var s, rest := Concatenated(xs, protocol), Concatenated(xs[1..], protocol);
      var frame := EncodedFrame(xs[0], protocol).message;
      assert s == frame + rest;
      assert forall i | 0 <= i < |rest| :: rest[i] == s[|frame| + i];
      FrameRoundTrip(xs[0], protocol, s, rest);
      StreamRoundTrip(xs[1..], protocol);
      assert xs == [xs[0]] + xs[1..];
    }
  }

  // ----- the bytes of a prefix, and every refusal -----

  /** The length is written most significant byte first. */
  lemma PrefixBytes(a: nat, b: nat, c: nat, d: nat)
    requires a < 256 && b < 256 && c < 256 && d < 256
    ensures Prefix(16777216 * a + 65536 * b + 256 * c + d) == [a as char, b as char, c as char, d as char]
    ensures PrefixValue([a as char, b as char, c as char, d as char]) == 16777216 * a + 65536 * b + 256 * c + d
  {
    var p := [a as char, b as char, c as char, d as char];
    assert IsBytes(p) by { assert forall i | 0 <= i < 4 :: IsByte(p[i]); }
    PrefixCanonical(p);
  }

  /** Only a value with a float in it and one of more than 65536 bytes have no frame. */
  lemma EncodeAnswers<T>(x: T, protocol: Protocol<T>)
    ensures var v := protocol.schema.to(x);
      && (EncodedFrame(x, protocol) == Failed(PayloadJson(true)) <==> !FloatFree(v))
      && (FloatFree(v) && |Encode(v)| > 65536 ==> EncodedFrame(x, protocol) == Failed(InvalidLength(|Encode(v)|)))
      && (EncodedFrame(x, protocol).Message? <==> FloatFree(v) && |Encode(v)| <= 65536)
  {
    hide Encode;
    var v := protocol.schema.to(x);
    if FloatFree(v) {
      EncodedIsWritten(v);
    }
  }

  lemma EncodedIsWritten(v: Json)
    requires FloatFree(v)
    ensures Encode(v) != ""
  {
  }

  /** The length that the first four bytes of a stream announce. */
  function Announced(s: string): nat
    requires |s| >= 4
  {
    16777216 * (s[0] as int) + 65536 * (s[1] as int) + 256 * (s[2] as int) + s[3] as int
  }

  /** Which part of a frame is missing or wrong, and what is then left of the stream. */
  lemma DecodeAnswers<T>(s: string, protocol: Protocol<T>)
    ensures var (r, rest) := DecodedFrame(s, protocol);
      && (|s| < 4 ==> r == Failed(TruncatedPrefix) && rest == "")
      && (|s| >= 4 ==>
          var n := Announced(s);
          && (n == 0 || n > 65536 ==> r == Failed(InvalidLength(n)) && rest == s[4..])
          && (0 < n <= 65536 && |s| < 4 + n ==> r == Failed(TruncatedPayload(n)) && rest == "")
          && (0 < n <= 65536 && |s| >= 4 + n ==> r == CheckPayload(s[4..4 + n], protocol) && rest == s[4 + n..]))
  {
    hide CheckPayload;
    if |s| >= 4 {
      var n := Announced(s);
      assert s[..4][0] == s[0] && s[..4][1] == s[1] && s[..4][2] == s[2] && s[..4][3] == s[3];
      if |s| >= 4 + n {
        assert s[4..][..n] == s[4..4 + n] && s[4..][n..] == s[4 + n..];
      }
    }
  }

  /** A complete payload is refused first for what it is not: closed JSON of the schema, canonical, an
      envelope that validates, and exactly what its message encodes to. */
  lemma PayloadAnswers<T(!new)>(payload: string, protocol: Protocol<T>)
    ensures var r, closed := CheckPayload(payload, protocol), DecodeClosed(payload, protocol.schema);
      && (closed.NonCanonicalInput? ==> r == Failed(NonCanonicalPayload))
      && (closed.FloatForbidden? || closed.InvalidJson? ==> r == Failed(PayloadJson(closed.FloatForbidden?)))
      && (r == Failed(InvalidEnvelope) <==> closed.Ok? && !protocol.validated(closed.value))
      && (r.Message? <==> closed.Ok? && protocol.validated(closed.value) && FloatFree(protocol.schema.to(closed.value))
                          && Encode(protocol.schema.to(closed.value)) == payload)
      && (r.Message? ==> r.message == closed.value)
  {
    hide Encode, DecodeClosed;
  }
}
