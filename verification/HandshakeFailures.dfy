/** What a failed handshake tells the client, and what a finished one has told it. */
module HandshakeFailures {
  import opened Common
  import opened Packets
  import opened Extensions
  import opened Handshake
  import opened HandshakeSuccess

  // ---------- The last packet of a server that fails ----------

  /** A Close packet for stream 0, byte by byte. */
  function CloseBytes(code: u8): Bytes {
    [0x04, 0, 0, 0, 0, code]
  }

  lemma CloseBytesDecode(code: u8)
    ensures Decode(CloseBytes(code)) == Ok(Packet(0, Close(ReasonOf(code))))
  {
  }

  lemma FarewellBytes(e: Error)
    ensures Farewell(e) ==
      if e.PasswordCredsInvalid? then [CloseBytes(0xC0)] else if e.CertSigInvalid? then [CloseBytes(0xC1)] else []
  {
    assert Encode(Packet(0, Close(ExtensionsPasswordAuthFailed))) == CloseBytes(0xC0);
    assert Encode(Packet(0, Close(ExtensionsCertAuthFailed))) == CloseBytes(0xC1);
  }

  lemma {:induction false} BuildAllError(bs: seq<Builder>, k: nat, role: Role, draw: Draw, crypto: Crypto)
    requires k <= |bs| && BuildAll(bs, k, role, draw, crypto).exts.Err?
    ensures var e := BuildAll(bs, k, role, draw, crypto).exts.error; !e.PasswordCredsInvalid? && !e.CertSigInvalid?
    decreases |bs| - k
  {
    var (b, r) := BuildTo(bs[k], role, draw(k), crypto);
    if r.Ok? { BuildAllError(bs[k := b], k + 1, role, draw, crypto); }
  }

  lemma {:induction false} ToEntriesError(exts: seq<Ext>)
    requires ToEntries(exts).Err?
    ensures ToEntries(exts).error == Panic
    decreases |exts|
  {
    if exts != [] && EncodeExt(exts[0]).Ok? { ToEntriesError(exts[1..]); }
  }

  /** Nobody's own offer fails on credentials. */
  lemma OfferError(bs: seq<Builder>, role: Role, draw: Draw, crypto: Crypto)
    requires Offer(bs, role, draw, crypto).1.Err?
    ensures var e := Offer(bs, role, draw, crypto).1.error; !e.PasswordCredsInvalid? && !e.CertSigInvalid?
  {
    var built := BuildAll(bs, 0, role, draw, crypto);
    if built.exts.Err? {
      BuildAllError(bs, 0, role, draw, crypto);
    } else {
      ToEntriesError(built.exts.value);
    }
  }

  /** The packets after INFO. */
  function Told(e: Error): seq<Bytes> {
    match e
    case PasswordCredsInvalid => [CloseBytes(0xC0)]
    case CertSigInvalid => [CloseBytes(0xC1)]
    case _ => []
  }

  lemma FarewellIsTold(e: Error)
    ensures Farewell(e) == Told(e)
  {
    FarewellBytes(e);
  }

  lemma FailureSends(sb: seq<Builder>, bufferSize: u32, incoming: seq<Bytes>, draw: Draw, crypto: Crypto)
    requires ServerSide(Some(sb), bufferSize, incoming, draw, crypto).outcome.Failed?
    ensures var server := ServerSide(Some(sb), bufferSize, incoming, draw, crypto);
      var offered := Offer(sb, Server, draw, crypto).1;
      && (offered.Err? ==> server.outcome.error == offered.error && server.sent == Farewell(offered.error))
      && (offered.Ok? ==> server.sent == [InfoBytes(offered.value)] + Farewell(server.outcome.error))
  {
  }

  /** Whatever bytes the client sent: a server that fails on credentials has sent its INFO packet and then one packet,
      which closes stream 0 with the code 0xC0; on a signature the code is 0xC1; after any other failure nothing
      follows the INFO packet, and nothing at all is sent if the server has nothing to offer. */
  lemma FailureIsTold(sb: seq<Builder>, bufferSize: u32, incoming: seq<Bytes>, draw: Draw, crypto: Crypto)
    requires ServerSide(Some(sb), bufferSize, incoming, draw, crypto).outcome.Failed?
    ensures var server := ServerSide(Some(sb), bufferSize, incoming, draw, crypto);
      var offered := Offer(sb, Server, draw, crypto).1;
      if offered.Err? then server.sent == [] && server.outcome.error == offered.error
      else server.sent == [InfoBytes(offered.value)] + Told(server.outcome.error)
    ensures Decode(CloseBytes(0xC0)) == Ok(Packet(0, Close(ExtensionsPasswordAuthFailed)))
    ensures Decode(CloseBytes(0xC1)) == Ok(Packet(0, Close(ExtensionsCertAuthFailed)))
  {
    FailureSends(sb, bufferSize, incoming, draw, crypto);
    FarewellIsTold(ServerSide(Some(sb), bufferSize, incoming, draw, crypto).outcome.error);
    if Offer(sb, Server, draw, crypto).1.Err? { OfferError(sb, Server, draw, crypto); }
    CloseBytesDecode(0xC0);
    CloseBytesDecode(0xC1);
  }

  // ---------- Which failure it is ----------

  /** The first entry that its builder does not accept. */
  predicate FirstRejected(es: seq<Entry>, bs: seq<Builder>, k: nat, role: Role, crypto: Crypto) {
    && k < |es| && !Accepts(bs, es[k], role, crypto)
    && forall j :: 0 <= j < k ==> Accepts(bs, es[j], role, crypto)
  }

  lemma AcceptsFrame(bs: seq<Builder>, i: nat, b: Builder, e: Entry, role: Role, crypto: Crypto)
    requires i < |bs| && Id(b) == Id(bs[i]) && e.id != Id(b)
    ensures Accepts(bs[i := b], e, role, crypto) == Accepts(bs, e, role, crypto)
    ensures Find(bs[i := b], e.id) < |bs| ==> bs[i := b][Find(bs, e.id)] == bs[Find(bs, e.id)]
  {
    FindAfterUpdate(bs, i, b, e.id);
  }

  /** With distinct ids the list fails with the error of the first entry that is not accepted. */
  lemma {:induction false} FirstErrorCounts(es: seq<Entry>, bs: seq<Builder>, k: nat, role: Role, crypto: Crypto)
    requires UniqueEntries(es) && FirstRejected(es, bs, k, role, crypto)
    ensures var refused := BuildFrom(bs[Find(bs, es[k].id)], es[k].payload, role, crypto).1;
      Feed(es, bs, role, crypto).exts == Err(refused.error)
    decreases |es|
  {
    var i := Find(bs, es[0].id);
    FeedFirst(es, bs, role, crypto, i);
    if k > 0 {
      FirstNotMentionedAgain(es);
      assert Accepts(bs, es[0], role, crypto);
      var bs' := if i == |bs| then bs else bs[i := BuildFrom(bs[i], es[0].payload, role, crypto).0];
      LaterRejected(es, bs, k, bs', role, crypto);
      FirstErrorCounts(es[1..], bs', k - 1, role, crypto);
    }
  }

  /** The first entry changes its own builder only. */
  lemma LaterRejected(es: seq<Entry>, bs: seq<Builder>, k: nat, bs': seq<Builder>, role: Role, crypto: Crypto)
    requires UniqueEntries(es) && FirstRejected(es, bs, k, role, crypto) && k > 0
    requires var i := Find(bs, es[0].id);
      bs' == if i == |bs| then bs else bs[i := BuildFrom(bs[i], es[0].payload, role, crypto).0]
    ensures FirstRejected(es[1..], bs', k - 1, role, crypto)
    ensures Find(bs', es[k].id) == Find(bs, es[k].id) < |bs| == |bs'|
    ensures bs'[Find(bs, es[k].id)] == bs[Find(bs, es[k].id)]
  {
    var i, tail := Find(bs, es[0].id), es[1..];
    assert forall j :: 0 <= j < |tail| ==> tail[j] == es[j + 1];
    if i < |bs| {
      forall j | 0 <= j < k ensures Accepts(bs', tail[j], role, crypto) == Accepts(bs, es[j + 1], role, crypto) {
        assert es[j + 1].id != es[0].id;
        AcceptsFrame(bs, i, bs'[i], tail[j], role, crypto);
      }
      AcceptsFrame(bs, i, bs'[i], es[k], role, crypto);
      FindAfterUpdate(bs, i, bs'[i], es[k].id);
    }
  }

  /** What a server answers to an INFO packet whose first entry that is not accepted is `es[k]`. */
  lemma RejectedByServer(sb: seq<Builder>, es: seq<Entry>, k: nat, bufferSize: u32, draw: Draw, crypto: Crypto)
    requires Offer(sb, Server, draw, crypto).1.Ok? && UniqueEntries(es) && Carried(es)
    requires FirstRejected(es, Offer(sb, Server, draw, crypto).0, k, Server, crypto)
    ensures var bs := Offer(sb, Server, draw, crypto).0;
      ServerSide(Some(sb), bufferSize, [InfoBytes(es)], draw, crypto).outcome ==
      Failed(BuildFrom(bs[Find(bs, es[k].id)], es[k].payload, Server, crypto).1.error)
  {
    var bs := Offer(sb, Server, draw, crypto).0;
    var b := InfoBytes(es);
    assert b[7..] == EncodeEntries(es) + [];
    EntriesRoundTrip(es, []);
    DecodeIsFeed(b[7..], bs, Server, crypto);
    FirstErrorCounts(es, bs, k, Server, crypto);
  }

  /** A client with a user name and password that are not in the table, whatever else it offers: the handshake fails
      and the packet after INFO says so. */
  lemma WrongPasswordIsTold(sb: seq<Builder>, i: nat, es: seq<Entry>, k: nat, user: Utf8, password: Utf8,
                            bufferSize: u32, draw: Draw, crypto: Crypto)
    requires Offer(sb, Server, draw, crypto).1.Ok? && UniqueEntries(es) && Carried(es)
    requires FirstFor(sb, i) && sb[i].PasswordServerBefore? && |user| <= 255
    requires !(user in sb[i].users && sb[i].users[user] == password)
    requires k < |es| && es[k] == Entry(PASSWORD_ID, [|user|] + user + password)
    requires forall j :: 0 <= j < k ==> Accepts(Offer(sb, Server, draw, crypto).0, es[j], Server, crypto)
    ensures ServerSide(Some(sb), bufferSize, [InfoBytes(es)], draw, crypto) ==
            Side([InfoBytes(Offer(sb, Server, draw, crypto).1.value), CloseBytes(0xC0)], Failed(PasswordCredsInvalid))
  {
    var bs := Offer(sb, Server, draw, crypto).0;
    ServerBuilders(sb, i, draw, crypto);
    FirstForFind(bs, i);
    HonestPassword(sb[i].users, sb[i].required, user, password, crypto);
    RejectedByServer(sb, es, k, bufferSize, draw, crypto);
    FailureIsTold(sb, bufferSize, [InfoBytes(es)], draw, crypto);
  }

  /** The same for a signature that no listed key verifies. */
  lemma WrongSignatureIsTold(sb: seq<Builder>, i: nat, es: seq<Entry>, k: nat, hash: Bytes, sig: Bytes,
                             bufferSize: u32, draw: Draw, crypto: Crypto)
    requires Offer(sb, Server, draw, crypto).1.Ok? && UniqueEntries(es) && Carried(es)
    requires FirstFor(sb, i) && sb[i].CertServerBefore? && |hash| == 32 && |sig| == 64
    requires !SomeKeyVerifies(sb[i].verifiers, ED25519, hash, draw(i), sig, crypto)
    requires k < |es| && es[k] == Entry(CERT_ID, [ED25519] + hash + sig)
    requires forall j :: 0 <= j < k ==> Accepts(Offer(sb, Server, draw, crypto).0, es[j], Server, crypto)
    ensures ServerSide(Some(sb), bufferSize, [InfoBytes(es)], draw, crypto) ==
            Side([InfoBytes(Offer(sb, Server, draw, crypto).1.value), CloseBytes(0xC1)], Failed(CertSigInvalid))
  {
    var bs := Offer(sb, Server, draw, crypto).0;
    ServerBuilders(sb, i, draw, crypto);
    FirstForFind(bs, i);
    HonestCert(sb[i].verifiers, sb[i].required, draw(i), SigningKey(ED25519, hash, 0), sig, crypto);
    RejectedByServer(sb, es, k, bufferSize, draw, crypto);
    FailureIsTold(sb, bufferSize, [InfoBytes(es)], draw, crypto);
  }

  /** The client is waiting for a Continue packet, and fails on the Close packet it gets instead. */
  lemma RejectedClientFails(cb: seq<Builder>, info: Bytes, code: u8, draw: Draw, crypto: Crypto)
    requires ClientSide(Some(cb), [info], draw, crypto).sent != []
    ensures ClientSide(Some(cb), [info, CloseBytes(code)], draw, crypto).outcome == Failed(InvalidPacketType(0x04))
  {
    CloseBytesDecode(code);
  }

  // ---------- What a finished handshake has told the client ----------

  /** The builders for the message of the day stay as they are. */
  lemma {:induction false} FeedMotd(es: seq<Entry>, bs: seq<Builder>, i: nat, role: Role, crypto: Crypto)
    requires FirstFor(bs, i) && (bs[i].MotdServer? || bs[i].MotdClient?) && Feed(es, bs, role, crypto).exts.Ok?
    ensures var exts := Feed(es, bs, role, crypto).exts.value;
      && (forall e :: e in exts && ExtId(e) == MOTD_ID ==>
            exists j :: 0 <= j < |es| && es[j].id == MOTD_ID && Ok(e) == BuildMotd(es[j].payload, role))
      && (forall j :: 0 <= j < |es| && es[j].id == MOTD_ID ==>
            BuildMotd(es[j].payload, role).Ok? && BuildMotd(es[j].payload, role).value in exts)
    decreases |es|
  {
    if es != [] {
      FirstForFind(bs, i);
      var k, tail := Find(bs, es[0].id), es[1..];
      FeedFirst(es, bs, role, crypto, k);
      assert forall j :: 0 <= j < |tail| ==> tail[j] == es[j + 1];
      if k == |bs| {
        FeedMotd(tail, bs, i, role, crypto);
      } else {
        var bs' := bs[k := BuildFrom(bs[k], es[0].payload, role, crypto).0];
        FeedMotd(tail, bs', i, role, crypto);
      }
    }
  }

  /** What the client reads of the server's INFO packet. */
  lemma ReadsServerInfo(sb: seq<Builder>, cb: seq<Builder>, draw: Draw, crypto: Crypto)
    requires Offer(sb, Server, draw, crypto).1.Ok? && Carried(Offer(sb, Server, draw, crypto).1.value)
    ensures var es := Offer(sb, Server, draw, crypto).1.value;
      var fed := Feed(es, cb, Client, crypto);
      DecodeFirst(InfoBytes(es), cb, Client, crypto) ==
        (fed.builders, if fed.exts.Err? then Err(fed.exts.error) else Ok(Info(fed.exts.value)))
  {
    var es := Offer(sb, Server, draw, crypto).1.value;
    assert InfoBytes(es)[7..] == EncodeEntries(es) + [];
    EntriesRoundTrip(es, []);
    DecodeIsFeed(InfoBytes(es)[7..], cb, Client, crypto);
  }

  /** The only entry with the id of builder `k` is what builder `k` offers. */
  lemma OnlyOffer(sb: seq<Builder>, k: nat, draw: Draw, crypto: Crypto)
    requires UniqueIds(sb) && k < |sb| && Offer(sb, Server, draw, crypto).1.Ok?
    ensures var es := Offer(sb, Server, draw, crypto).1.value;
      && |es| == |sb| && OfferedAt(sb, k, Server, draw, crypto)
      && forall j :: 0 <= j < |es| && es[j].id == Id(sb[k]) ==> j == k
  {
    OfferExactly(sb, Server, draw, crypto);
    OneOffered(sb, k, Server, draw, crypto);
    var es := Offer(sb, Server, draw, crypto).1.value;
    forall j | 0 <= j < |es| && es[j].id == Id(sb[k]) ensures j == k { OneOffered(sb, j, Server, draw, crypto); }
  }

  /** A client whose handshake succeeded shows the server's message of the day, and no other. */
  lemma MotdArrives(sb: seq<Builder>, cb: seq<Builder>, k: nat, i: nat, bufferSize: u32, toServer: seq<Bytes>,
                    toClient: seq<Bytes>, draws: (Draw, Draw), crypto: Crypto)
    requires Talking(ServerSide(Some(sb), bufferSize, toServer, draws.0, crypto),
                     ClientSide(Some(cb), toClient, draws.1, crypto), toServer, toClient)
    requires OffersFit(sb, Server, draws.0, crypto) && UniqueIds(sb)
    requires k < |sb| && sb[k].MotdServer? && FirstFor(cb, i) && cb[i].MotdClient?
    requires ClientSide(Some(cb), toClient, draws.1, crypto).outcome.Done?
    ensures var exts := ClientSide(Some(cb), toClient, draws.1, crypto).outcome.exts;
      forall e :: e in exts && ExtId(e) == MOTD_ID <==> e == MotdExt(Client, sb[k].motd)
  {
    var offered := Offer(sb, Server, draws.0, crypto).1;
    V2Messages(sb, cb, bufferSize, toServer, toClient, draws, crypto);
    ReadsServerInfo(sb, cb, draws.0, crypto);
    ReportsAll(sb, cb, bufferSize, toServer, toClient, draws, crypto);
    OnlyOffer(sb, k, draws.0, crypto);
    FeedMotd(offered.value, cb, i, Client, crypto);
    assert offered.value[k].payload == sb[k].motd;
  }

  /** A client that succeeded reports all it has read. */
  lemma ReportsAll(sb: seq<Builder>, cb: seq<Builder>, bufferSize: u32, toServer: seq<Bytes>, toClient: seq<Bytes>,
                   draws: (Draw, Draw), crypto: Crypto)
    requires Talking(ServerSide(Some(sb), bufferSize, toServer, draws.0, crypto),
                     ClientSide(Some(cb), toClient, draws.1, crypto), toServer, toClient)
    requires OffersFit(sb, Server, draws.0, crypto)
    requires ClientSide(Some(cb), toClient, draws.1, crypto).outcome.Done?
    ensures toClient != [] && var first := DecodeFirst(toClient[0], cb, Client, crypto).1;
      first.Ok? && first.value.Info? &&
      ClientSide(Some(cb), toClient, draws.1, crypto).outcome.exts == first.value.exts
  {
    V2Messages(sb, cb, bufferSize, toServer, toClient, draws, crypto);
    InfoDecodes(Offer(sb, Server, draws.0, crypto).1.value, cb, Client, crypto);
    var (cb', first) := DecodeFirst(toClient[0], cb, Client, crypto);
    OfferIds(cb', Client, draws.1, crypto);
    SupportedAllOf(first.value.exts, Offer(cb', Client, draws.1, crypto).0);
  }

  /** A client that has read INFO knows what the server requires, and the challenge. */
  lemma RequiredIsTold(sb: seq<Builder>, cb: seq<Builder>, k: nat, i: nat, draw: Draw, crypto: Crypto)
    requires UniqueIds(sb) && k < |sb| && FirstFor(cb, i) && Id(cb[i]) == Id(sb[k])
    requires Offer(sb, Server, draw, crypto).1.Ok? && Carried(Offer(sb, Server, draw, crypto).1.value)
    requires DecodeFirst(InfoBytes(Offer(sb, Server, draw, crypto).1.value), cb, Client, crypto).1.Ok?
    ensures var bs := DecodeFirst(InfoBytes(Offer(sb, Server, draw, crypto).1.value), cb, Client, crypto).0;
      && |bs| == |cb|
      && (sb[k].PasswordServerBefore? && cb[i].PasswordClientBefore? ==>
            bs[i] == PasswordClientAfter(cb[i].creds, sb[k].required))
      && (sb[k].CertServerBefore? && cb[i].CertClientBefore? ==>
            bs[i] == CertClientAfter(cb[i].signer, ED25519, draw(k), sb[k].required))
  {
    var es := Offer(sb, Server, draw, crypto).1.value;
    ReadsServerInfo(sb, cb, draw, crypto);
    OnlyOffer(sb, k, draw, crypto);
    OfferedUnique(sb, Server, draw, crypto);
    FeedBuilder(es, cb, i, Client, crypto);
    FedFrom(es, cb[i], k, Client, crypto);
    var payload := es[k].payload;
    if sb[k].CertServerBefore? { assert payload[2..] == draw(k) && payload[0] == Flag(sb[k].required); }
  }
}
