/** Wisp packets and their wire format. */
module Packets {
  import opened Common

  datatype Result<+T> = Ok(value: T) | Err(error: Error)

  datatype Error =
    | PacketTooSmall
    | InvalidUtf8
    | InvalidPacketType(ty: u8)
    | InvalidStreamId(id: u32)
    | IncompatibleVersion(major: u8, minor: u8)
    | ExtensionImplNotSupported
    | ExtensionImplError
    | PasswordNoCreds
    | PasswordCredsInvalid
    | CertNoKey
    | CertSigInvalid
    | CertTypeInvalid
    | SocketClosed
    | MaxStreamCountReached
    | Panic          // the code panics

  datatype StreamType = Tcp | Udp | OtherStream(code: u8)

  datatype CloseReason =
    | Unknown | Voluntary | Unexpected | ExtensionsIncompatible
    | ServerStreamInvalidInfo | ServerStreamUnreachable | ServerStreamConnectionTimedOut
    | ServerStreamConnectionRefused | ServerStreamTimedOut | ServerStreamBlockedAddress | ServerStreamThrottled
    | ClientUnexpected
    | ExtensionsPasswordAuthFailed | ExtensionsCertAuthFailed | ExtensionsAuthRequired
    | OtherReason(code: u8)

  datatype Body =
    | Connect(streamType: StreamType, host: Utf8, port: u16)
    | Data(payload: Bytes)
    | Continue(bufferRemaining: u32)
    | Close(reason: CloseReason)

  datatype Packet = Packet(streamId: u32, body: Body)

  // ---------- UTF-8, section 4 of RFC 3629 ----------

  predicate Tail(b: u8) { 0x80 <= b <= 0xBF }

  /** Length of the well-formed sequence at the start of `s`, 0 if there is none. */
  function Utf8Head(s: Bytes): (n: nat)
    ensures n <= |s|
  {
    if |s| >= 1 && s[0] <= 0x7F then 1
    else if |s| >= 2 && 0xC2 <= s[0] <= 0xDF && Tail(s[1]) then 2
    else if |s| >= 3 && s[0] == 0xE0 && 0xA0 <= s[1] <= 0xBF && Tail(s[2]) then 3
    else if |s| >= 3 && (0xE1 <= s[0] <= 0xEC || 0xEE <= s[0] <= 0xEF) && Tail(s[1]) && Tail(s[2]) then 3
    else if |s| >= 3 && s[0] == 0xED && 0x80 <= s[1] <= 0x9F && Tail(s[2]) then 3
    else if |s| >= 4 && s[0] == 0xF0 && 0x90 <= s[1] <= 0xBF && Tail(s[2]) && Tail(s[3]) then 4
    else if |s| >= 4 && 0xF1 <= s[0] <= 0xF3 && Tail(s[1]) && Tail(s[2]) && Tail(s[3]) then 4
    else if |s| >= 4 && s[0] == 0xF4 && 0x80 <= s[1] <= 0x8F && Tail(s[2]) && Tail(s[3]) then 4
    else 0
  }

  predicate ValidUtf8(s: Bytes)
    decreases |s|
  {
    s == [] || (Utf8Head(s) > 0 && ValidUtf8(s[Utf8Head(s)..]))
  }

  /** The bytes of a Rust `String`. */
  type Utf8 = s: Bytes | ValidUtf8(s)

  // ---------- Numbers ----------

  function U16Le(x: u16): (b: Bytes)
    ensures |b| == 2
  {
    var n: int := x;
    [n % 256, n / 256]
  }

  function U32Le(x: u32): (b: Bytes)
    ensures |b| == 4
  {
    var n1: int := x as int / 256;
    var n2: int := n1 / 256;
    var n3: int := n2 / 256;
    [x as int % 256, n1 % 256, n2 % 256, n3]
  }

  function GetU16Le(b: Bytes): u16
    requires |b| >= 2
  {
    b[0] as int + 256 * (b[1] as int)
  }

  function GetU32Le(b: Bytes): u32
    requires |b| >= 4
  {
    b[0] as int + 256 * (b[1] as int + 256 * (b[2] as int + 256 * (b[3] as int)))
  }

  lemma U16RoundTrip(x: u16, rest: Bytes)
    ensures GetU16Le(U16Le(x) + rest) == x
  {
  }

  lemma U32RoundTrip(x: u32, rest: Bytes)
    ensures GetU32Le(U32Le(x) + rest) == x
  {
    var b := U32Le(x) + rest;
    assert b[..4] == U32Le(x);
  }

  lemma LowByte(b: int, rest: int)
    requires 0 <= b < 256
    ensures (b + 256 * rest) % 256 == b && (b + 256 * rest) / 256 == rest
  {
  }

  lemma U32LeOfGet(b: Bytes)
    requires |b| >= 4
    ensures U32Le(GetU32Le(b)) == b[..4]
  {
    LowByte(b[0], b[1] as int + 256 * (b[2] as int + 256 * (b[3] as int)));
    LowByte(b[1], b[2] as int + 256 * (b[3] as int));
    LowByte(b[2], b[3]);
  }

  // ---------- Codes ----------

  function StreamCode(t: StreamType): u8 {
    match t
    case Tcp => 0x01
    case Udp => 0x02
    case OtherStream(x) => x
  }

  function StreamOf(x: u8): (t: StreamType)
    ensures StreamCode(t) == x
  {
    if x == 0x01 then Tcp else if x == 0x02 then Udp else OtherStream(x)
  }

  function ReasonCode(r: CloseReason): u8 {
    match r
    case Unknown => 0x01
    case Voluntary => 0x02
    case Unexpected => 0x03
    case ExtensionsIncompatible => 0x04
    case ServerStreamInvalidInfo => 0x41
    case ServerStreamUnreachable => 0x42
    case ServerStreamConnectionTimedOut => 0x43
    case ServerStreamConnectionRefused => 0x44
    case ServerStreamTimedOut => 0x47
    case ServerStreamBlockedAddress => 0x48
    case ServerStreamThrottled => 0x49
    case ClientUnexpected => 0x81
    case ExtensionsPasswordAuthFailed => 0xC0
    case ExtensionsCertAuthFailed => 0xC1
    case ExtensionsAuthRequired => 0xC2
    case OtherReason(x) => x
  }

  function ReasonOf(x: u8): (r: CloseReason)
    ensures ReasonCode(r) == x
  {
    if x == 0x01 then Unknown
    else if x == 0x02 then Voluntary
    else if x == 0x03 then Unexpected
    else if x == 0x04 then ExtensionsIncompatible
    else if x == 0x41 then ServerStreamInvalidInfo
    else if x == 0x42 then ServerStreamUnreachable
    else if x == 0x43 then ServerStreamConnectionTimedOut
    else if x == 0x44 then ServerStreamConnectionRefused
    else if x == 0x47 then ServerStreamTimedOut
    else if x == 0x48 then ServerStreamBlockedAddress
    else if x == 0x49 then ServerStreamThrottled
    else if x == 0x81 then ClientUnexpected
    else if x == 0xC0 then ExtensionsPasswordAuthFailed
    else if x == 0xC1 then ExtensionsCertAuthFailed
    else if x == 0xC2 then ExtensionsAuthRequired
    else OtherReason(x)
  }

  /** A catch-all reason with the code of a named one. */
  predicate Aliased(r: CloseReason) {
    r.OtherReason? && !ReasonOf(r.code).OtherReason?
  }

  /** What is left of a reason that is stored as its code. */
  function Stored(r: CloseReason): CloseReason {
    ReasonOf(ReasonCode(r))
  }

  lemma StoredExactly(r: CloseReason)
    ensures Stored(r) == r <==> !Aliased(r)
    ensures ReasonCode(Stored(r)) == ReasonCode(r) && !Aliased(Stored(r))
  {
  }

  /** No catch-all variant carries the code of a named one. */
  predicate Canonical(p: Packet) {
    match p.body
    case Connect(t, _, _) => StreamOf(StreamCode(t)) == t
    case Close(r) => ReasonOf(ReasonCode(r)) == r
    case _ => true
  }

  // ---------- Encoding and decoding ----------

  function TypeCode(b: Body): u8 {
    match b
    case Connect(_, _, _) => 0x01
    case Data(_) => 0x02
    case Continue(_) => 0x03
    case Close(_) => 0x04
  }

  function EncodeBody(b: Body): Bytes {
    match b
    case Connect(t, host, port) => [StreamCode(t)] + U16Le(port) + host
    case Data(payload) => payload
    case Continue(n) => U32Le(n)
    case Close(r) => [ReasonCode(r)]
  }

  function DecodeBody(b: Bytes, ty: u8): Result<Body> {
    if ty == 0x01 then
      if |b| < 3 then Err(PacketTooSmall)
      else if !ValidUtf8(b[3..]) then Err(InvalidUtf8)
      else Ok(Connect(StreamOf(b[0]), b[3..], GetU16Le(b[1..])))
    else if ty == 0x02 then Ok(Data(b))
    else if ty == 0x03 then
      if |b| < 4 then Err(PacketTooSmall) else Ok(Continue(GetU32Le(b)))
    else if ty == 0x04 then
      if |b| < 1 then Err(PacketTooSmall) else Ok(Close(ReasonOf(b[0])))
    else Err(Error.InvalidPacketType(ty))
  }

  function Encode(p: Packet): Bytes {
    [TypeCode(p.body)] + U32Le(p.streamId) + EncodeBody(p.body)
  }

  function Decode(b: Bytes): Result<Packet> {
    if |b| < 5 then Err(PacketTooSmall)
    else
      var body := DecodeBody(b[5..], b[0]);
      if body.Err? then Err(body.error) else Ok(Packet(GetU32Le(b[1..]), body.value))
  }

  function SizeHint(p: Packet): nat {
    1 + 4 + match p.body
            case Connect(_, host, _) => 1 + |host| + 2
            case Data(payload) => |payload|
            case Continue(_) => 4
            case Close(_) => 1
  }

  lemma DecodeBodyOfEncode(b: Body)
    requires Canonical(Packet(0, b))
    ensures DecodeBody(EncodeBody(b), TypeCode(b)) == Ok(b)
  {
    var e := EncodeBody(b);
    match b
    case Connect(t, host, port) =>
      assert e[1..] == U16Le(port) + host && e[3..] == host && e[0] == StreamCode(t);
      U16RoundTrip(port, host);
    case Continue(n) =>
      assert U32Le(n) + [] == e;
      U32RoundTrip(n, []);
    case _ =>
  }

  lemma EncodeParts(p: Packet)
    ensures |Encode(p)| == SizeHint(p) && Encode(p)[0] == TypeCode(p.body)
    ensures Encode(p)[1..] == U32Le(p.streamId) + EncodeBody(p.body) && Encode(p)[5..] == EncodeBody(p.body)
  {
  }

  /** Decoding undoes encoding exactly for packets without aliased catch-all codes; what comes back never
      has one; and an encoded packet has the length its size hint announces.  */
  lemma PacketRoundTrip(p: Packet)
    ensures Decode(Encode(p)) == Ok(p) <==> Canonical(p)
    ensures |Encode(p)| == SizeHint(p)
  {
    EncodeParts(p);
    U32RoundTrip(p.streamId, EncodeBody(p.body));
    if Canonical(p) {
      DecodeBodyOfEncode(p.body);
    }
  }

  /** Whatever is accepted is canonical, and re-encoding it gives a prefix of the input: all of it for
      Connect and Data, the first 9 and 6 bytes for Continue and Close.  */
  lemma AcceptedReencodes(b: Bytes)
    requires Decode(b).Ok?
    ensures Canonical(Decode(b).value)
    ensures Encode(Decode(b).value) <= b
    ensures |Encode(Decode(b).value)| == match Decode(b).value.body
                                         case Continue(_) => 9
                                         case Close(_) => 6
                                         case _ => |b|
  {
    var p := Decode(b).value;
    var body := b[5..];
    U32LeOfGet(b[1..]);
    assert b[1..][..4] == b[1..5];
    assert b == [b[0]] + b[1..5] + body;
    match p.body
    case Connect(t, host, port) =>
      assert U16Le(port) == body[1..3];
      assert body == [body[0]] + body[1..3] + body[3..];
      assert EncodeBody(p.body) == body;
    case Data(_) =>
      assert EncodeBody(p.body) == body;
    case Continue(n) =>
      U32LeOfGet(body);
    case Close(r) =>
      assert EncodeBody(p.body) == body[..1];
  }

  /** Decoding fails exactly on short input, unknown types and hosts that are not UTF-8, each with its own error. */
  lemma RejectedExactly(b: Bytes)
    ensures Decode(b) == Err(PacketTooSmall) <==>
      || |b| < 5
      || (b[0] == 0x01 && |b| < 8)
      || (b[0] == 0x03 && |b| < 9)
      || (b[0] == 0x04 && |b| < 6)
    ensures Decode(b) == Err(InvalidUtf8) <==> |b| >= 8 && b[0] == 0x01 && !ValidUtf8(b[8..])
    ensures |b| >= 5 && b[0] !in {0x01, 0x02, 0x03, 0x04} <==> Decode(b).Err? && Decode(b).error.InvalidPacketType?
    ensures Decode(b).Err? ==>
      Decode(b).error == PacketTooSmall || Decode(b).error == InvalidUtf8 || Decode(b).error == InvalidPacketType(b[0])
  {
    if |b| >= 8 {
      assert b[5..][3..] == b[8..];
    }
  }

  // ---------- Byte by byte ----------

  function Power256(k: nat): (p: nat)
    ensures p > 0
  {
    if k == 0 then 1 else 256 * Power256(k - 1)
  }

  /** Numbers are little-endian: byte `k` has the weight 256^k. */
  lemma LittleEndian(x: u32, y: u16, k: nat)
    ensures k < 4 ==> U32Le(x)[k] as int == x as int / Power256(k) % 256
    ensures k < 2 ==> U16Le(y)[k] as int == y as int / Power256(k) % 256
  {
    assert Power256(1) == 256 && Power256(2) == 65536 && Power256(3) == 16777216;
    DivideAgain(x);
  }

  lemma DivideAgain(x: nat)
    ensures x / 256 / 256 == x / 65536 && x / 256 / 256 / 256 == x / 16777216
  {
  }

  /** Type, stream id and body, field by field. */
  lemma Layout(p: Packet)
    ensures var b := Encode(p);
      && |b| == SizeHint(p) && b[1..5] == U32Le(p.streamId)
      && match p.body
         case Connect(t, host, port) =>
           b[0] == 0x01 && b[5] == StreamCode(t) && b[6..8] == U16Le(port) && b[8..] == host
         case Data(payload) => b[0] == 0x02 && b[5..] == payload
         case Continue(n) => b[0] == 0x03 && b[5..] == U32Le(n)
         case Close(r) => b[0] == 0x04 && b[5..] == [ReasonCode(r)]
  {
    EncodeParts(p);
  }

  /** The named close reasons. */
  const REASONS: seq<(u8, CloseReason)> := [
    (0x01, Unknown), (0x02, Voluntary), (0x03, Unexpected), (0x04, ExtensionsIncompatible),
    (0x41, ServerStreamInvalidInfo), (0x42, ServerStreamUnreachable), (0x43, ServerStreamConnectionTimedOut),
    (0x44, ServerStreamConnectionRefused), (0x47, ServerStreamTimedOut), (0x48, ServerStreamBlockedAddress),
    (0x49, ServerStreamThrottled), (0x81, ClientUnexpected), (0xC0, ExtensionsPasswordAuthFailed),
    (0xC1, ExtensionsCertAuthFailed), (0xC2, ExtensionsAuthRequired)]

  /** Codes and names go with each other as listed, and any other code is kept as it is. */
  lemma CodesExactly(x: u8)
    ensures forall i :: 0 <= i < |REASONS| ==> ReasonOf(REASONS[i].0) == REASONS[i].1
    ensures forall i :: 0 <= i < |REASONS| ==> ReasonCode(REASONS[i].1) == REASONS[i].0
    ensures ReasonOf(x) == OtherReason(x) <==> forall i :: 0 <= i < |REASONS| ==> REASONS[i].0 != x
    ensures ReasonCode(OtherReason(x)) == x && StreamCode(OtherStream(x)) == x
    ensures StreamOf(0x01) == Tcp && StreamOf(0x02) == Udp && StreamCode(Tcp) == 0x01 && StreamCode(Udp) == 0x02
    ensures StreamOf(x) == OtherStream(x) <==> x !in {0x01, 0x02}
  {
    if ReasonOf(x) != OtherReason(x) { var i := NamedAt(x); }
  }

  lemma NamedAt(x: u8) returns (i: nat)
    requires !ReasonOf(x).OtherReason?
    ensures i < |REASONS| && REASONS[i].0 == x
  {
    i := match ReasonOf(x)
         case Unknown => 0
         case Voluntary => 1
         case Unexpected => 2
         case ExtensionsIncompatible => 3
         case ServerStreamInvalidInfo => 4
         case ServerStreamUnreachable => 5
         case ServerStreamConnectionTimedOut => 6
         case ServerStreamConnectionRefused => 7
         case ServerStreamTimedOut => 8
         case ServerStreamBlockedAddress => 9
         case ServerStreamThrottled => 10
         case ClientUnexpected => 11
         case ExtensionsPasswordAuthFailed => 12
         case ExtensionsCertAuthFailed => 13
         case ExtensionsAuthRequired => 14;
  }
}
