/** The bytes of what each side offers, and the exact error of every handshake that fails. */
module HandshakeErrors {
  import opened Common
  import opened Packets
  import opened Extensions
  import opened Handshake
  import opened HandshakeSuccess

  // ---------- What INFO packets look like ----------

  function Bit(b: bool): u8 {
    if b then 1 else 0
  }

  /** The entry of a builder, with the numbers of the protocol written out. */
  predicate Says(b: Builder, role: Role, random: Bytes, crypto: Crypto, e: Entry) {
    match b
    case UdpBuilder => e == Entry(1, [])
    case MotdServer(motd) => e == Entry(4, if role.Server? then motd else [])
    case MotdClient => e == Entry(4, [])
    case PasswordServerBefore(_, required) => e == Entry(2, [Bit(required)])
    case PasswordClientAfter(creds, _) =>
      creds.Some? && |creds.value.0| <= 255 && e == Entry(2, [|creds.value.0|] + creds.value.0 + creds.value.1)
    case CertServerBefore(_, required) => e == Entry(3, [Bit(required), 1] + random)
    case CertClientAfter(signer, _, challenge, _) =>
      && signer.Some? && crypto.sign(signer.value.key, challenge).Some?
      && e == Entry(3, [1] + signer.value.hash + crypto.sign(signer.value.key, challenge).value)
    case _ => false
  }

  /** An offer has one entry for each builder, in the order of the builders. */
  lemma OfferSays(bs: seq<Builder>, role: Role, draw: Draw, crypto: Crypto)
    requires Offer(bs, role, draw, crypto).1.Ok?
    ensures var es := Offer(bs, role, draw, crypto).1.value;
      |es| == |bs| && forall i :: 0 <= i < |bs| ==> Says(bs[i], role, draw(i), crypto, es[i])
  {
    OfferExactly(bs, role, draw, crypto);
    var es := Offer(bs, role, draw, crypto).1.value;
    forall i | 0 <= i < |bs| ensures Says(bs[i], role, draw(i), crypto, es[i]) {
      OneOffered(bs, i, role, draw, crypto);
    }
  }

  /** Id, length and payload. */
  lemma EntryLayout(e: Entry)
    requires |e.payload| <= U32_MAX
    ensures var b := EncodeEntry(e);
      |b| == 5 + |e.payload| && b[0] == e.id && b[1..5] == U32Le(|e.payload|) && b[5..] == e.payload
  {
  }

  /** Type 5, stream 0 and version 2.0; then the entries, one after the other. */
  lemma InfoLayout(es: seq<Entry>, k: nat)
    requires k < |es|
    ensures var b := InfoBytes(es);
      var at := 7 + |EncodeEntries(es[..k])|;
      && b[..7] == [5, 0, 0, 0, 0, 2, 0]
      && at + |EncodeEntry(es[k])| <= |b| && b[at..at + |EncodeEntry(es[k])|] == EncodeEntry(es[k])
  {
    EntriesSplit(es, k);
    Inside(InfoBytes(es)[..7], EncodeEntries(es[..k]), EncodeEntry(es[k]), EncodeEntries(es[k + 1..]));
  }

  lemma Inside(head: Bytes, front: Bytes, e: Bytes, rest: Bytes)
    ensures var at := |head| + |front|; (head + (front + e + rest))[at..at + |e|] == e
  {
  }

  lemma {:induction false} EntriesSplit(es: seq<Entry>, k: nat)
    requires k < |es|
    ensures EncodeEntries(es) == EncodeEntries(es[..k]) + EncodeEntry(es[k]) + EncodeEntries(es[k + 1..])
    decreases k
  {
    if k > 0 {
      EntriesSplit(es[1..], k - 1);
      assert es[1..][..k - 1] == es[..k][1..] && es[1..][k..] == es[k + 1..];
    }
  }

  // ---------- Why a side cannot offer ----------

  predicate CannotBuild(b: Builder, e: Error, crypto: Crypto) {
    match b
    case UdpBuilder => false
    case MotdServer(_) => false
    case MotdClient => false
    case PasswordServerBefore(_, _) => false
    case CertServerBefore(_, _) => false
    case PasswordClientAfter(creds, _) => creds.None? && e == PasswordNoCreds
    case CertClientAfter(signer, certTypes, challenge, _) =>
      if signer.None? then e == CertNoKey
      else if !(certTypes == 1 && signer.value.certType == 1) then e == CertTypeInvalid
      else crypto.sign(signer.value.key, challenge).None? && e == ExtensionImplError
    case _ => e == ExtensionImplNotSupported
  }

  lemma {:induction false} FirstFailureCounts(bs: seq<Builder>, k: nat, role: Role, draw: Draw, crypto: Crypto)
      returns (i: nat)
    requires k <= |bs| && BuildAll(bs, k, role, draw, crypto).exts.Err?
    ensures k <= i < |bs|
    ensures BuildTo(bs[i], role, draw(i), crypto).1 == Err(BuildAll(bs, k, role, draw, crypto).exts.error)
    ensures forall j :: k <= j < i ==> BuildTo(bs[j], role, draw(j), crypto).1.Ok?
    decreases |bs| - k
  {
    var (b, r) := BuildTo(bs[k], role, draw(k), crypto);
    if r.Err? {
      i := k;
    } else {
      i := FirstFailureCounts(bs[k := b], k + 1, role, draw, crypto);
    }
  }

  predicate LongName(b: Builder) {
    b.PasswordClientAfter? && b.creds.Some? && |b.creds.value.0| > 255
  }

  /** A side that cannot offer fails with the error of the first builder that has nothing to say; if all have, then
      some user name is too long for its length byte, and the code panics. */
  lemma OfferFails(bs: seq<Builder>, role: Role, draw: Draw, crypto: Crypto) returns (i: nat)
    requires Offer(bs, role, draw, crypto).1.Err?
    ensures i < |bs| && var e := Offer(bs, role, draw, crypto).1.error;
      if LongName(bs[i]) then e == Panic && forall j :: 0 <= j < |bs| ==> BuildTo(bs[j], role, draw(j), crypto).1.Ok?
      else CannotBuild(bs[i], e, crypto) && forall j :: 0 <= j < i ==> BuildTo(bs[j], role, draw(j), crypto).1.Ok?
  {
    var built := BuildAll(bs, 0, role, draw, crypto);
    if built.exts.Err? {
      i := FirstFailureCounts(bs, 0, role, draw, crypto);
    } else {
      BuildAllPointwise(bs, 0, role, draw, crypto);
      i := FirstUnencodable(built.exts.value);
      assert Ok(built.exts.value[i - 0]) == BuildTo(bs[i], role, draw(i), crypto).1;
    }
  }

  lemma {:induction false} FirstUnencodable(exts: seq<Ext>) returns (i: nat)
    requires ToEntries(exts).Err?
    ensures i < |exts| && exts[i].PasswordCreds? && |exts[i].user| > 255 && ToEntries(exts).error == Panic
    decreases |exts|
  {
    if EncodeExt(exts[0]).Err? {
      i := 0;
    } else {
      i := FirstUnencodable(exts[1..]);
      i := i + 1;
    }
  }

  // ---------- Why an entry is refused ----------

  /** Some user name, its length in front, and a password. */
  ghost predicate Credentials(payload: Bytes, user: Bytes, password: Bytes) {
    |user| <= 255 && payload == [|user|] + user + password
  }

  /** The credentials are not text, or not in the table. */
  ghost predicate BadCredentials(user: Bytes, password: Bytes, users: map<Utf8, Utf8>, e: Error) {
    if !ValidUtf8(user) || !ValidUtf8(password) then e == InvalidUtf8
    else e == PasswordCredsInvalid && !(user in users && users[user] == password)
  }

  ghost predicate Refused(b: Builder, payload: Bytes, role: Role, crypto: Crypto, e: Error) {
    match b
    case UdpBuilder => false
    case MotdServer(_) => role.Client? && !ValidUtf8(payload) && e == ExtensionImplError
    case MotdClient => role.Client? && !ValidUtf8(payload) && e == ExtensionImplError
    case PasswordServerBefore(users, _) =>
      || (e == Panic && !exists user, password :: Credentials(payload, user, password))
      || (exists user, password :: Credentials(payload, user, password) && BadCredentials(user, password, users, e))
    case PasswordClientBefore(_) => payload == [] && e == Panic
    case CertServerAfter(verifiers, challenge, _) =>
      || (e == Panic && (payload == [] || (payload[0] <= 1 && |payload| < 33)))
      || (e == ExtensionImplError && |payload| >= 33 && |payload| != 97 && payload[0] <= 1)
      || (e == CertSigInvalid && payload != [] && payload[0] > 1)
      || (e == CertSigInvalid && |payload| == 97 && payload[0] <= 1 &&
          !SomeKeyVerifies(verifiers, payload[0], payload[1..33], challenge, payload[33..], crypto))
    case CertClientBefore(_) =>
      (e == Panic && |payload| < 2) || (e == CertTypeInvalid && |payload| >= 2 && payload[1] > 1)
    case _ => e == ExtensionImplNotSupported
  }

  /** Whatever the payload is, a builder refuses it for exactly one reason or accepts it. */
  lemma RefusedExactly(b: Builder, payload: Bytes, role: Role, crypto: Crypto, e: Error)
    ensures BuildFrom(b, payload, role, crypto).1 == Err(e) <==> Refused(b, payload, role, crypto, e)
  {
    if b.PasswordServerBefore? { PasswordRefused(b, payload, role, crypto, e); }
  }

  /** Only a client takes over the text. */
  predicate ReadsText(made: Ext, payload: Bytes, role: Role) {
    made.MotdExt? && made.role == role && made.motd == if role.Client? then payload else []
  }

  /** What a builder makes of a payload, and what becomes of it. */
  ghost predicate Makes(b: Builder, payload: Bytes, role: Role, after: Builder, made: Ext) {
    match b
    case UdpBuilder => after == b && made == UdpExt
    case MotdServer(_) => after == b && ReadsText(made, payload, role)
    case MotdClient => after == b && ReadsText(made, payload, role)
    case PasswordServerBefore(users, required) =>
      && after == PasswordServerAfter(users, required) && made.PasswordVerified?
      && Credentials(payload, made.user, made.password)
    case PasswordClientBefore(creds) =>
      payload != [] && after == PasswordClientAfter(creds, payload[0] > 0) && made == PasswordReceived
    case CertServerAfter(_, _, _) => after == b && made == CertVerified
    case CertClientBefore(signer) =>
      && |payload| >= 2 && after == CertClientAfter(signer, payload[1], payload[2..], payload[0] > 0)
      && made == CertReceived
    case _ => false
  }

  /** A payload that is not refused is turned into what it spells. */
  lemma AcceptedMakes(b: Builder, payload: Bytes, role: Role, crypto: Crypto)
    ensures var (after, r) := BuildFrom(b, payload, role, crypto);
      r.Ok? ==> Makes(b, payload, role, after, r.value)
  {
    if b.PasswordServerBefore? && Framed(payload) { FramedReading(payload); }
  }

  lemma OneReading(payload: Bytes, user: Bytes, password: Bytes)
    requires Credentials(payload, user, password)
    ensures Framed(payload) && user == payload[1..1 + payload[0] as int] && password == payload[1 + payload[0] as int..]
  {
  }

  predicate Framed(payload: Bytes) {
    payload != [] && payload[0] as int <= |payload| - 1
  }

  lemma FramedReading(payload: Bytes)
    requires Framed(payload)
    ensures Credentials(payload, payload[1..1 + payload[0] as int], payload[1 + payload[0] as int..])
  {
    var end: int := 1 + payload[0] as int;
    assert payload == [payload[0]] + payload[1..end] + payload[end..];
  }

  lemma PasswordRefused(b: Builder, payload: Bytes, role: Role, crypto: Crypto, e: Error)
    requires b.PasswordServerBefore?
    ensures BuildFrom(b, payload, role, crypto).1 == Err(e) <==> Refused(b, payload, role, crypto, e)
  {
    if Framed(payload) {
      FramedReading(payload);
      var end: int := 1 + payload[0] as int;
      var user, password := payload[1..end], payload[end..];
      assert BuildFrom(b, payload, role, crypto).1 == Err(e) <==> BadCredentials(user, password, b.users, e);
      forall u, p | Credentials(payload, u, p) ensures u == user && p == password { OneReading(payload, u, p); }
    } else {
      forall u, p ensures !Credentials(payload, u, p) {
        if Credentials(payload, u, p) { OneReading(payload, u, p); }
      }
    }
  }

  /** What becomes of a builder that refuses: credentials can be tried once. */
  lemma RefusedKeeps(b: Builder, payload: Bytes, role: Role, crypto: Crypto)
    ensures var (after, r) := BuildFrom(b, payload, role, crypto);
      r.Err? ==>
        if b.PasswordServerBefore? && r.error.PasswordCredsInvalid?
        then after == PasswordServerAfter(b.users, b.required) else after == b
  {
  }

  /** A list of entries fails with the reason for which a builder, at that point, refuses one of the entries. */
  lemma {:induction false} FeedRefused(es: seq<Entry>, bs: seq<Builder>, role: Role, crypto: Crypto)
      returns (k: nat, b: Builder)
    requires Feed(es, bs, role, crypto).exts.Err?
    ensures k < |es| && Id(b) == es[k].id
    ensures Refused(b, es[k].payload, role, crypto, Feed(es, bs, role, crypto).exts.error)
    decreases |es|
  {
    var i := Find(bs, es[0].id);
    FeedFirst(es, bs, role, crypto, i);
    if i == |bs| {
      k, b := FeedRefused(es[1..], bs, role, crypto);
      k := k + 1;
    } else {
      var (next, r) := BuildFrom(bs[i], es[0].payload, role, crypto);
      if r.Err? {
        k, b := 0, bs[i];
        RefusedExactly(b, es[0].payload, role, crypto, r.error);
      } else {
        k, b := FeedRefused(es[1..], bs[i := next], role, crypto);
        k := k + 1;
      }
    }
  }

  /** The errors of builders. */
  predicate OfBuilder(e: Error) {
    e in {Panic, InvalidUtf8, PasswordCredsInvalid, CertSigInvalid, CertTypeInvalid, ExtensionImplError,
          ExtensionImplNotSupported}
  }

  // ---------- The first message ----------

  predicate IsInfo(b: Bytes) {
    |b| >= 7 && b[0] == 5 && b[5] == 2
  }

  /** The entries of an INFO packet, and whether a builder refuses one of them. */
  function Entries(b: Bytes): seq<Entry>
    requires IsInfo(b)
  {
    SplitEntries(b[7..]).0
  }

  /** Which error the first message of a handshake gives rise to. */
  predicate Unreadable(b: Bytes, bs: seq<Builder>, role: Role, crypto: Crypto, e: Error) {
    if IsInfo(b) then
      var fed := Feed(Entries(b), bs, role, crypto).exts;
      if fed.Err? then fed.error == e && OfBuilder(e) else SplitEntries(b[7..]).1 && e == PacketTooSmall
    else if |b| >= 7 && b[0] == 5 then e == IncompatibleVersion(b[5], b[6])
    else if |b| >= 5 && b[0] != 5 then Decode(b) == Err(e)
    else e == PacketTooSmall
  }

  lemma FirstUnreadable(b: Bytes, bs: seq<Builder>, role: Role, crypto: Crypto, e: Error)
    ensures DecodeFirst(b, bs, role, crypto).1 == Err(e) <==> Unreadable(b, bs, role, crypto, e)
  {
    if IsInfo(b) {
      DecodeIsFeed(b[7..], bs, role, crypto);
      if Feed(Entries(b), bs, role, crypto).exts.Err? {
        var k, b' := FeedRefused(Entries(b), bs, role, crypto);
      }
    }
  }

  /** Whatever the client sends: how a version 2 server fails, told from the bytes of the first message. */
  lemma ServerFailsExactly(sb: seq<Builder>, bufferSize: u32, incoming: seq<Bytes>, draw: Draw, crypto: Crypto,
                           e: Error)
    requires Offer(sb, Server, draw, crypto).1.Ok?
    ensures ServerSide(Some(sb), bufferSize, incoming, draw, crypto).outcome == Failed(e) <==>
      if incoming == [] then e == SocketClosed
      else Unreadable(incoming[0], Offer(sb, Server, draw, crypto).0, Server, crypto, e)
  {
    if incoming != [] { FirstUnreadable(incoming[0], Offer(sb, Server, draw, crypto).0, Server, crypto, e); }
  }

  // ---------- The Continue packet ----------

  /** A Continue packet for stream 0 with this number, and perhaps more. */
  predicate StartsContinue(b: Bytes, n: u32) {
    |b| >= 9 && b[..9] == [3, 0, 0, 0, 0] + U32Le(n)
  }

  lemma ContinueExactly(b: Bytes, n: u32)
    ensures DecodeContinue(b) == Ok(n) <==> StartsContinue(b, n)
  {
    if DecodeContinue(b) == Ok(n) {
      AcceptedReencodes(b);
      ContinueDecodes(n);
      assert Encode(Packet(0, Continue(n))) == [3] + U32Le(0) + U32Le(n);
      assert b[..9] == Encode(Packet(0, Continue(n)));
    }
    if StartsContinue(b, n) {
      U32RoundTrip(n, b[9..]);
      assert b == [3, 0, 0, 0, 0] + U32Le(n) + b[9..];
      assert b[5..] == U32Le(n) + b[9..];
      U32RoundTrip(0, b[5..]);
      assert b[1..] == U32Le(0) + b[5..];
    }
  }

  /** Why a message is not a Continue packet for stream 0. */
  predicate NoContinue(b: Bytes, e: Error) {
    if Decode(b).Err? then e == Decode(b).error
    else if Decode(b).value.streamId != 0 then e == InvalidStreamId(Decode(b).value.streamId)
    else b[0] != 3 && e == InvalidPacketType(b[0])
  }

  lemma NoContinueExactly(b: Bytes, e: Error)
    ensures DecodeContinue(b) == Err(e) <==> NoContinue(b, e)
  {
  }

  /** A version 1 client sends nothing; it ends with the number in the Continue packet that comes first, and with the
      reason for which the first message is none otherwise. */
  lemma OldClientExactly(incoming: seq<Bytes>, draw: Draw, crypto: Crypto, n: u32, e: Error)
    ensures var client := ClientSide(None, incoming, draw, crypto);
      && client.sent == []
      && (client.outcome == Done(false, [UdpExt], false, n, None) <==> incoming != [] && StartsContinue(incoming[0], n))
      && (client.outcome == Failed(e) <==> if incoming == [] then e == SocketClosed else NoContinue(incoming[0], e))
  {
    if incoming != [] {
      ContinueExactly(incoming[0], n);
      NoContinueExactly(incoming[0], e);
    }
  }

  /** A version 1 server sends its Continue packet and does not wait for anything. */
  lemma OldServerExactly(bufferSize: u32, incoming: seq<Bytes>, draw: Draw, crypto: Crypto)
    ensures var server := ServerSide(None, bufferSize, incoming, draw, crypto);
      && server.outcome == Done(false, [UdpExt], false, bufferSize, None)
      && |server.sent| == 1 && |server.sent[0]| == 9 && StartsContinue(server.sent[0], bufferSize)
  {
    ContinueDecodes(bufferSize);
    ContinueExactly(ContinueBytes(bufferSize), bufferSize);
  }

  /** A version 2 client falls back exactly if the first message is a Continue packet for stream 0. */
  lemma ClientDowngradesExactly(cb: seq<Builder>, incoming: seq<Bytes>, draw: Draw, crypto: Crypto, n: u32)
    ensures var client := ClientSide(Some(cb), incoming, draw, crypto);
      && (client.outcome == Done(false, [UdpExt], true, n, None) <==>
            incoming != [] && StartsContinue(incoming[0], n))
      && (client.outcome.Done? && client.outcome.bufferSize == n && !client.outcome.v2 ==>
            client.sent == [] && client.outcome == Done(false, [UdpExt], true, n, None))
      && (client.outcome.Done? && client.outcome.v2 ==> !client.outcome.downgraded)
  {
    if incoming != [] { ContinueExactly(incoming[0], n); }
  }

  /** The client has read INFO, and can answer. */
  predicate Answers(cb: seq<Builder>, b: Bytes, draw: Draw, crypto: Crypto) {
    var (bs, first) := DecodeFirst(b, cb, Client, crypto);
    first.Ok? && first.value.Info? && Offer(bs, Client, draw, crypto).1.Ok?
  }

  /** Whatever the server sends: how a version 2 client fails. */
  lemma ClientFailsExactly(cb: seq<Builder>, incoming: seq<Bytes>, draw: Draw, crypto: Crypto, e: Error)
    ensures ClientSide(Some(cb), incoming, draw, crypto).outcome == Failed(e) <==>
      if incoming == [] then e == SocketClosed
      else if Answers(cb, incoming[0], draw, crypto) then
        if |incoming| == 1 then e == SocketClosed else NoContinue(incoming[1], e)
      else
        || Unreadable(incoming[0], cb, Client, crypto, e)
        || (IsInfo(incoming[0]) && Feed(Entries(incoming[0]), cb, Client, crypto).exts.Ok? &&
            !SplitEntries(incoming[0][7..]).1 &&
            Offer(Feed(Entries(incoming[0]), cb, Client, crypto).builders, Client, draw, crypto).1 == Err(e))
        || (|incoming[0]| >= 5 && incoming[0][0] != 5 && Decode(incoming[0]).Ok? && NoContinue(incoming[0], e))
  {
    if incoming != [] {
      var b := incoming[0];
      FirstUnreadable(b, cb, Client, crypto, e);
      if IsInfo(b) { DecodeIsFeed(b[7..], cb, Client, crypto); }
      NoContinueExactly(b, e);
      if |incoming| > 1 { NoContinueExactly(incoming[1], e); }
    }
  }
}
