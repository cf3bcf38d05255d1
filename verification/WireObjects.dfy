/** The buffers packets are written to and read from, and the codec code that works on them in place. */
module WireObjects {
  import opened Common
  import opened Packets
  import opened Extensions
  import opened Handshake

  /** A growing buffer (`BytesMut`). */
  class PayloadMut {
    var data: Bytes

    constructor ()
      ensures data == []
    {
      data := [];
    }

    method PutU8(x: u8)
      modifies this
      ensures data == old(data) + [x]
    {
      data := data + [x];
    }

    method PutU16Le(x: u16)
      modifies this
      ensures data == old(data) + U16Le(x)
    {
      data := data + U16Le(x);
    }

    method PutU32Le(x: u32)
      modifies this
      ensures data == old(data) + U32Le(x)
    {
      data := data + U32Le(x);
    }

    method Extend(b: Bytes)
      modifies this
      ensures data == old(data) + b
    {
      data := data + b;
    }
  }

  /** A buffer that is consumed from the front (`Bytes`); reading past its end panics. */
  class Payload {
    var data: Bytes

    constructor (data: Bytes)
      ensures this.data == data
    {
      this.data := data;
    }

    method GetByte() returns (x: u8)
      requires |data| >= 1
      modifies this
      ensures x == old(data)[0] && data == old(data)[1..]
    {
      x := data[0];
      data := data[1..];
    }

    method GetWord() returns (x: u16)
      requires |data| >= 2
      modifies this
      ensures x == GetU16Le(old(data)) && data == old(data)[2..]
    {
      x := GetU16Le(data);
      data := data[2..];
    }

    method GetLong() returns (x: u32)
      requires |data| >= 4
      modifies this
      ensures x == GetU32Le(old(data)) && data == old(data)[4..]
    {
      x := GetU32Le(data);
      data := data[4..];
    }

    /** Cuts off and returns the first `n` bytes. */
    method SplitTo(n: nat) returns (b: Bytes)
      requires n <= |data|
      modifies this
      ensures b == old(data)[..n] && data == old(data)[n..]
    {
      b := data[..n];
      data := data[n..];
    }
  }

  // ---------- Packets ----------

  method EncodePacket(p: Packet) returns (b: Bytes)
    ensures b == Encode(p)
  {
    var buf := new PayloadMut();
    buf.PutU8(TypeCode(p.body));
    buf.PutU32Le(p.streamId);
    match p.body {
      case Connect(t, host, port) =>
        buf.PutU8(StreamCode(t));
        buf.PutU16Le(port);
        buf.Extend(host);
      case Data(payload) => buf.Extend(payload);
      case Continue(n) => buf.PutU32Le(n);
      case Close(r) => buf.PutU8(ReasonCode(r));
    }
    b := buf.data;
    assert b == [TypeCode(p.body)] + U32Le(p.streamId) + EncodeBody(p.body);
  }

  method DecodePacket(b: Bytes) returns (r: Result<Packet>)
    ensures r == Decode(b)
  {
    if |b| < 5 {
      return Err(PacketTooSmall);
    }
    var buf := new Payload(b);
    var ty := buf.GetByte();
    var id := buf.GetLong();
    assert buf.data == b[5..];
    var body := DecodeRest(buf, ty);
    if body.Err? {
      return Err(body.error);
    }
    r := Ok(Packet(id, body.value));
  }

  /** `PacketType::decode`. */
  method DecodeRest(buf: Payload, ty: u8) returns (r: Result<Body>)
    modifies buf
    ensures r == DecodeBody(old(buf.data), ty)
  {
    if ty == 0x01 {
      if |buf.data| < 3 {
        return Err(PacketTooSmall);
      }
      ghost var before := buf.data;
      var t := buf.GetByte();
      var port := buf.GetWord();
      assert buf.data == before[3..];
      if !ValidUtf8(buf.data) {
        return Err(InvalidUtf8);
      }
      r := Ok(Connect(StreamOf(t), buf.data, port));
    } else if ty == 0x02 {
      r := Ok(Data(buf.data));
    } else if ty == 0x03 {
      if |buf.data| < 4 {
        return Err(PacketTooSmall);
      }
      var n := buf.GetLong();
      r := Ok(Continue(n));
    } else if ty == 0x04 {
      if |buf.data| < 1 {
        return Err(PacketTooSmall);
      }
      var reason := buf.GetByte();
      r := Ok(Close(ReasonOf(reason)));
    } else {
      r := Err(Error.InvalidPacketType(ty));
    }
  }

  // ---------- INFO packets ----------

  lemma EncodeEntriesAppend(es: seq<Entry>, e: Entry)
    ensures EncodeEntries(es + [e]) == EncodeEntries(es) + EncodeEntry(e)
  {
    if es == [] {
      assert es + [e] == [e];
      assert EncodeEntries([e]) == EncodeEntry(e) + EncodeEntries([]);
    } else {
      assert (es + [e])[1..] == es[1..] + [e];
      EncodeEntriesAppend(es[1..], e);
    }
  }

  /** `AnyProtocolExtension::encode_into`. */
  method PutEntry(buf: PayloadMut, e: Entry)
    modifies buf
    ensures buf.data == old(buf.data) + EncodeEntry(e)
  {
    buf.PutU8(e.id);
    buf.PutU32Le(|e.payload| % 0x1_0000_0000);
    buf.Extend(e.payload);
    assert buf.data == old(buf.data) + EncodeEntry(e);
  }

  /** `InfoPacket::encode`. */
  method EncodeInfo(es: seq<Entry>) returns (b: Bytes)
    ensures b == InfoBytes(es)
  {
    var buf := new PayloadMut();
    buf.PutU8(0x05);
    buf.PutU32Le(0);
    buf.PutU8(MAJOR);
    buf.PutU8(MINOR);
    ghost var header := buf.data;
    assert header == [0x05, 0, 0, 0, 0, MAJOR, MINOR];
    for i := 0 to |es|
      invariant buf.data == header + EncodeEntries(es[..i])
    {
      PutEntry(buf, es[i]);
      EncodeEntriesAppend(es[..i], es[i]);
      assert es[..i + 1] == es[..i] + [es[i]];
      assert buf.data == header + (EncodeEntries(es[..i]) + EncodeEntry(es[i]));
    }
    assert es[..|es|] == es;
    b := buf.data;
  }

  method FindBuilder(builders: array<Builder>, id: u8) returns (i: nat)
    ensures i == Find(builders[..], id)
  {
    i := 0;
    while i < builders.Length && Id(builders[i]) != id
      invariant i <= builders.Length
      invariant forall j :: 0 <= j < i ==> Id(builders[j]) != id
    {
      i := i + 1;
    }
  }

  function PrependAll(exts: seq<Ext>, b: Built): Built {
    Built(b.builders, if b.exts.Ok? then Ok(exts + b.exts.value) else b.exts)
  }

  /** One round of the loop of `InfoPacket::decode`: None if nobody knows the entry. */
  method DecodeEntry(buf: Payload, builders: array<Builder>, role: Role, crypto: Crypto)
      returns (r: Result<Option<Ext>>)
    requires |buf.data| >= 5
    modifies buf, builders
    ensures |buf.data| < |old(buf.data)|
    ensures var was := DecodeExts(old(buf.data), old(builders[..]), role, crypto);
      if r.Err? then was == Built(builders[..], Err(r.error))
      else if r.value.None? then was == DecodeExts(buf.data, builders[..], role, crypto)
      else was == Prepend(r.value.value, DecodeExts(buf.data, builders[..], role, crypto))
  {
    ghost var b, bs := buf.data, builders[..];
    var id := buf.GetByte();
    var length := buf.GetLong();
    assert buf.data == b[5..];
    if |buf.data| < length {
      return Err(PacketTooSmall);
    }
    var i := FindBuilder(builders, id);
    var bytes := buf.SplitTo(length);
    DecodeOne(b, bs, role, crypto, length, i);
    assert bytes == b[5..5 + length] && buf.data == b[5 + length..];
    if i == builders.Length {
      return Ok(None);
    }
    var built := BuildFrom(builders[i], bytes, role, crypto);
    builders[i] := built.0;
    assert builders[..] == bs[i := built.0];
    r := if built.1.Err? then Err(built.1.error) else Ok(Option.Some(built.1.value));
  }

  lemma PrependAllStep(exts: seq<Ext>, e: Ext, b: Built)
    ensures PrependAll(exts + [e], b) == PrependAll(exts, Prepend(e, b))
    ensures PrependAll([], b) == b
  {
    if b.exts.Ok? {
      assert exts + [e] + b.exts.value == exts + ([e] + b.exts.value);
      assert [] + b.exts.value == b.exts.value;
    }
  }

  /** The loop of `InfoPacket::decode`: consumes entries while five bytes remain, updating the builders. */
  method DecodeExtensions(buf: Payload, builders: array<Builder>, role: Role, crypto: Crypto)
      returns (r: Result<seq<Ext>>)
    modifies buf, builders
    ensures Built(builders[..], r) == DecodeExts(old(buf.data), old(builders[..]), role, crypto)
  {
    var exts := [];
    ghost var goal := DecodeExts(buf.data, builders[..], role, crypto);
    PrependAllStep([], UdpExt, goal);
    while |buf.data| >= 5
      invariant goal == PrependAll(exts, DecodeExts(buf.data, builders[..], role, crypto))
      decreases |buf.data|
    {
      var next := DecodeEntry(buf, builders, role, crypto);
      if next.Err? {
        return Err(next.error);
      }
      if next.value.Some? {
        PrependAllStep(exts, next.value.value, DecodeExts(buf.data, builders[..], role, crypto));
        exts := exts + [next.value.value];
      }
    }
    assert exts + [] == exts;
    r := Ok(exts);
  }

  // ---------- Building authentication extensions from bytes ----------

  /** The server's part of `PasswordProtocolExtensionBuilder::build_from_bytes`. */
  method BuildPasswordFromBytes(builder: Builder, buf: Payload) returns (next: Builder, r: Result<Ext>)
    requires builder.PasswordServerBefore?
    modifies buf
    ensures (next, r) == BuildPassword(builder, old(buf.data))
  {
    ghost var b := buf.data;
    next := builder;
    if |buf.data| < 1 {
      return builder, Err(Panic);
    }
    var n := buf.GetByte();
    if |buf.data| < n {
      return builder, Err(Panic);
    }
    var user := buf.SplitTo(n);
    assert user == b[1..1 + n as int] && buf.data == b[1 + n as int..];
    if !ValidUtf8(user) || !ValidUtf8(buf.data) {
      return builder, Err(InvalidUtf8);
    }
    var password := buf.data;
    next := PasswordServerAfter(builder.users, builder.required);
    if user in builder.users && builder.users[user] == password {
      r := Ok(PasswordVerified(user, password));
    } else {
      r := Err(PasswordCredsInvalid);
    }
  }

  /** The server's part of `CertAuthProtocolExtensionBuilder::build_from_bytes`. */
  method BuildCertFromBytes(verifiers: seq<VerifyKey>, challenge: Bytes, buf: Payload, crypto: Crypto)
      returns (r: Result<Ext>)
    modifies buf
    ensures r == BuildCert(verifiers, challenge, old(buf.data), crypto)
  {
    ghost var b := buf.data;
    if |buf.data| < 1 {
      return Err(Panic);
    }
    var certType := buf.GetByte();
    if !KnownCertBits(certType) {
      return Err(CertSigInvalid);
    }
    if |buf.data| < 32 {
      return Err(Panic);
    }
    var hash := buf.SplitTo(32);
    var sig := buf.data;
    assert hash == b[1..33] && sig == b[33..];
    if |sig| != 64 {
      return Err(ExtensionImplError);
    }
    var valid := false;
    for i := 0 to |verifiers|
      invariant valid <==> SomeKeyVerifies(verifiers[..i], certType, hash, challenge, sig, crypto)
    {
      var v := verifiers[i];
      valid := valid || (v.certType == certType && v.hash == hash && crypto.verify(v.key, challenge, sig));
      assert verifiers[..i + 1][i] == v && verifiers[..i + 1][..i] == verifiers[..i];
    }
    assert verifiers[..|verifiers|] == verifiers;
    r := if valid then Ok(CertVerified) else Err(CertSigInvalid);
  }
}
