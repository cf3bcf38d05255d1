/** The handshake: INFO exchange, extension negotiation and downgrade to version 1. */
module Handshake {
  import opened Common
  import opened Packets
  import opened Extensions

  const MAJOR: u8 := 2
  const MINOR: u8 := 0

  /** What a successful handshake hands to the multiplexor; `first` is a packet that came instead of INFO. */
  datatype Outcome =
    | Done(v2: bool, exts: seq<Ext>, downgraded: bool, bufferSize: u32, first: Option<Packet>)
    | Failed(error: Error)

  /** One side of a handshake: the messages it sends and how it ends. */
  datatype Side = Side(sent: seq<Bytes>, outcome: Outcome)

  /** Randomness drawn by the builder at a position. */
  type Draw = nat -> Bytes

  // ---------- INFO packets ----------

  /** `send_info_packet`: builds all extensions in order; the first failure ends it. */
  function BuildAll(bs: seq<Builder>, k: nat, role: Role, draw: Draw, crypto: Crypto): Built
    requires k <= |bs|
    decreases |bs| - k
  {
    if k == |bs| then Built(bs, Ok([]))
    else
      var (b, r) := BuildTo(bs[k], role, draw(k), crypto);
      if r.Err? then Built(bs[k := b], Err(r.error))
      else Prepend(r.value, BuildAll(bs[k := b], k + 1, role, draw, crypto))
  }

  function ToEntries(exts: seq<Ext>): (r: Result<seq<Entry>>)
    ensures r.Ok? ==> |r.value| == |exts| && forall i :: 0 <= i < |exts| ==> r.value[i].id == ExtId(exts[i])
  {
    if exts == [] then Ok([])
    else
      var p, rest := EncodeExt(exts[0]), ToEntries(exts[1..]);
      if p.Err? then Err(p.error) else if rest.Err? then rest
      else Ok([Entry(ExtId(exts[0]), p.value)] + rest.value)
  }

  function InfoBytes(es: seq<Entry>): Bytes {
    [0x05, 0, 0, 0, 0, MAJOR, MINOR] + EncodeEntries(es)
  }

  datatype First = Info(exts: seq<Ext>) | Plain(packet: Packet)

  /** `MaybeInfoPacket::decode`. */
  function DecodeFirst(b: Bytes, bs: seq<Builder>, role: Role, crypto: Crypto): (seq<Builder>, Result<First>) {
    if |b| < 5 then (bs, Err(PacketTooSmall))
    else if b[0] != 0x05 then
      var p := Decode(b);
      (bs, if p.Err? then Err(p.error) else Ok(Plain(p.value)))
    else if |b| < 7 then (bs, Err(PacketTooSmall))
    else if b[5] != MAJOR then (bs, Err(IncompatibleVersion(b[5], b[6])))
    else
      var built := DecodeExts(b[7..], bs, role, crypto);
      (built.builders, if built.exts.Err? then Err(built.exts.error) else Ok(Info(built.exts.value)))
  }

  /** `get_supported_extensions`. */
  function Supported(exts: seq<Ext>, bs: seq<Builder>): seq<Ext> {
    if exts == [] then []
    else (if ExtId(exts[0]) in IdSet(bs) then [exts[0]] else []) + Supported(exts[1..], bs)
  }

  function ContinueBytes(bufferSize: u32): Bytes {
    Encode(Packet(0, Continue(bufferSize)))
  }

  function ValidateContinue(p: Packet): Result<u32> {
    if p.streamId != 0 then Err(Error.InvalidStreamId(p.streamId))
    else if !p.body.Continue? then Err(Error.InvalidPacketType(TypeCode(p.body)))
    else Ok(p.body.bufferRemaining)
  }

  function DecodeContinue(b: Bytes): Result<u32> {
    var p := Decode(b);
    if p.Err? then Err(p.error) else ValidateContinue(p.value)
  }

  // ---------- The two sides ----------

  /** The extensions a side sends, as INFO entries, and its builders afterwards. */
  function Offer(bs: seq<Builder>, role: Role, draw: Draw, crypto: Crypto): (seq<Builder>, Result<seq<Entry>>) {
    var built := BuildAll(bs, 0, role, draw, crypto);
    (built.builders, if built.exts.Err? then Err(built.exts.error) else ToEntries(built.exts.value))
  }

  /** `ServerImpl::handle_error`: authentication failures are answered with a Close packet. */
  function Farewell(e: Error): seq<Bytes> {
    if e.PasswordCredsInvalid? then [Encode(Packet(0, Close(ExtensionsPasswordAuthFailed)))]
    else if e.CertSigInvalid? then [Encode(Packet(0, Close(ExtensionsCertAuthFailed)))]
    else []
  }

  /** `ServerImpl::handshake`; `v2` holds the builders of a version 2 server. */
  function ServerSide(v2: Option<seq<Builder>>, bufferSize: u32, incoming: seq<Bytes>, draw: Draw,
                      crypto: Crypto): Side {
    if v2.None? then Side([ContinueBytes(bufferSize)], Done(false, [UdpExt], false, bufferSize, None))
    else
      var (bs, entries) := Offer(v2.value, Server, draw, crypto);
      if entries.Err? then Side(Farewell(entries.error), Failed(entries.error))
      else
        var info := InfoBytes(entries.value);
        if incoming == [] then Side([info], Failed(SocketClosed))
        else
          var (bs', first) := DecodeFirst(incoming[0], bs, Server, crypto);
          if first.Err? then Side([info] + Farewell(first.error), Failed(first.error))
          else match first.value
            case Info(exts) =>
              Side([info, ContinueBytes(bufferSize)], Done(true, Supported(exts, bs'), false, bufferSize, None))
            case Plain(p) => Side([info], Done(false, [UdpExt], true, bufferSize, Some(p)))
  }

  /** `ClientImpl::handshake`. */
  function ClientSide(v2: Option<seq<Builder>>, incoming: seq<Bytes>, draw: Draw, crypto: Crypto): Side {
    if incoming == [] then Side([], Failed(SocketClosed))
    else if v2.None? then Side([], Finish(DecodeContinue(incoming[0]), false, [UdpExt], false))
    else
      var (bs, first) := DecodeFirst(incoming[0], v2.value, Client, crypto);
      if first.Err? then Side([], Failed(first.error))
      else match first.value
        case Plain(p) => Side([], Finish(ValidateContinue(p), false, [UdpExt], true))
        case Info(exts) =>
          var (bs', entries) := Offer(bs, Client, draw, crypto);
          if entries.Err? then Side([], Failed(entries.error))
          else if |incoming| < 2 then Side([InfoBytes(entries.value)], Failed(SocketClosed))
          else Side([InfoBytes(entries.value)], Finish(DecodeContinue(incoming[1]), true, Supported(exts, bs'), false))
  }

  function Finish(bufferSize: Result<u32>, v2: bool, exts: seq<Ext>, downgraded: bool): Outcome {
    if bufferSize.Err? then Failed(bufferSize.error) else Done(v2, exts, downgraded, bufferSize.value, None)
  }

  // ---------- Agreement ----------

  /** Two sides that talk to each other: each has received some prefix of what the other one sends. */
  ghost predicate Talking(server: Side, client: Side, toServer: seq<Bytes>, toClient: seq<Bytes>) {
    toServer <= client.sent && toClient <= server.sent
  }

  function EntryIds(es: seq<Entry>): set<u8> {
    set i | 0 <= i < |es| :: es[i].id
  }

  function SupportedIds(exts: seq<Ext>): set<u8> {
    set i | 0 <= i < |exts| :: ExtId(exts[i])
  }

  lemma {:induction false} BuildAllIds(bs: seq<Builder>, k: nat, role: Role, draw: Draw, crypto: Crypto)
    requires k <= |bs|
    ensures IdSet(BuildAll(bs, k, role, draw, crypto).builders) == IdSet(bs)
    ensures var exts := BuildAll(bs, k, role, draw, crypto).exts;
      exts.Ok? ==> |exts.value| == |bs| - k && forall i :: 0 <= i < |bs| - k ==> ExtId(exts.value[i]) == Id(bs[k + i])
    decreases |bs| - k
  {
    if k < |bs| {
      var (b, r) := BuildTo(bs[k], role, draw(k), crypto);
      IdSetUpdate(bs, k, b);
      BuildAllIds(bs[k := b], k + 1, role, draw, crypto);
    }
  }

  /** A side offers exactly the ids of its builders. */
  lemma OfferIds(bs: seq<Builder>, role: Role, draw: Draw, crypto: Crypto)
    ensures IdSet(Offer(bs, role, draw, crypto).0) == IdSet(bs)
    ensures Offer(bs, role, draw, crypto).1.Ok? ==> EntryIds(Offer(bs, role, draw, crypto).1.value) == IdSet(bs)
  {
    BuildAllIds(bs, 0, role, draw, crypto);
    var (bs', entries) := Offer(bs, role, draw, crypto);
    if entries.Ok? {
      assert forall i :: 0 <= i < |bs| ==> entries.value[i].id == Id(bs[i]);
    }
  }

  lemma {:induction false} KnownIdsSet(es: seq<Entry>, ids: set<u8>)
    ensures forall x :: x in KnownIds(es, ids) <==> x in ids && exists i :: 0 <= i < |es| && es[i].id == x
    decreases |es|
  {
    if es != [] {
      KnownIdsSet(es[1..], ids);
      forall x ensures x in KnownIds(es, ids) <==> x in ids && exists i :: 0 <= i < |es| && es[i].id == x {
        if i :| 0 <= i < |es[1..]| && es[1..][i].id == x { assert es[i + 1].id == x; }
        if i :| 1 <= i < |es| && es[i].id == x { assert es[1..][i - 1].id == x; }
      }
    }
  }

  lemma {:induction false} SupportedAll(exts: seq<Ext>, bs: seq<Builder>)
    requires forall i :: 0 <= i < |exts| ==> ExtId(exts[i]) in IdSet(bs)
    ensures Supported(exts, bs) == exts
    decreases |exts|
  {
    if exts != [] {
      SupportedAll(exts[1..], bs);
    }
  }

  lemma SupportedAllOf(exts: seq<Ext>, bs: seq<Builder>)
    requires SupportedIds(exts) <= IdSet(bs)
    ensures Supported(exts, bs) == exts
  {
    forall i | 0 <= i < |exts| ensures ExtId(exts[i]) in IdSet(bs) { assert ExtId(exts[i]) in SupportedIds(exts); }
    SupportedAll(exts, bs);
  }

  /** What a side that reads the other one's INFO ends up with: the ids both know. */
  lemma InfoDecodes(es: seq<Entry>, bs: seq<Builder>, role: Role, crypto: Crypto)
    requires Carried(es)
    ensures var (bs', first) := DecodeFirst(InfoBytes(es), bs, role, crypto);
      && IdSet(bs') == IdSet(bs)
      && (first.Ok? ==> first.value.Info? && SupportedIds(first.value.exts) == EntryIds(es) * IdSet(bs))
  {
    var b := InfoBytes(es);
    assert b[7..] == EncodeEntries(es) + [];
    EntriesRoundTrip(es, []);
    DecodeIsFeed(b[7..], bs, role, crypto);
    FeedIds(es, bs, role, crypto);
    KnownIdsSet(es, IdSet(bs));
    var exts := Feed(es, bs, role, crypto).exts;
    if exts.Ok? {
      var ids := ExtIds(exts.value);
      forall x ensures x in SupportedIds(exts.value) <==> x in EntryIds(es) * IdSet(bs) {
        if x in ids {
          var i :| 0 <= i < |ids| && ids[i] == x;
          assert ExtId(exts.value[i]) == x;
        }
        if i :| 0 <= i < |exts.value| && ExtId(exts.value[i]) == x { assert ids[i] == x; }
      }
    }
  }

  /** Reading entries that fit the length field is feeding them to the builders. */
  lemma ReadsInfo(es: seq<Entry>, bs: seq<Builder>, role: Role, crypto: Crypto)
    requires Carried(es) && Feed(es, bs, role, crypto).exts.Ok?
    ensures DecodeFirst(InfoBytes(es), bs, role, crypto) ==
      (Feed(es, bs, role, crypto).builders, Ok(Info(Feed(es, bs, role, crypto).exts.value)))
  {
    var b := InfoBytes(es);
    assert b[7..] == EncodeEntries(es) + [];
    EntriesRoundTrip(es, []);
    DecodeIsFeed(b[7..], bs, role, crypto);
  }

  /** Every payload a side offers fits the 32-bit length field. */
  predicate OffersFit(bs: seq<Builder>, role: Role, draw: Draw, crypto: Crypto) {
    Offer(bs, role, draw, crypto).1.Ok? ==> Carried(Offer(bs, role, draw, crypto).1.value)
  }

  lemma ContinueDecodes(n: u32)
    ensures DecodeContinue(ContinueBytes(n)) == Ok(n) && ContinueBytes(n)[0] == 0x03 && |ContinueBytes(n)| == 9
  {
    PacketRoundTrip(Packet(0, Continue(n)));
  }

  lemma FarewellIsNoContinue(e: Error)
    ensures forall i :: 0 <= i < |Farewell(e)| ==>
      |Farewell(e)[i]| >= 5 && Farewell(e)[i][0] == 0x04 && DecodeContinue(Farewell(e)[i]).Err?
  {
    PacketRoundTrip(Packet(0, Close(ExtensionsPasswordAuthFailed)));
    PacketRoundTrip(Packet(0, Close(ExtensionsCertAuthFailed)));
  }

  /** What both sides agree on. */
  predicate Agreed(server: Outcome, client: Outcome, ids: set<u8>) {
    && server.Done? && client.Done?
    && server.v2 == client.v2 && server.bufferSize == client.bufferSize
    && SupportedIds(server.exts) == SupportedIds(client.exts) == ids
  }

  ghost function CommonIds(server: Option<seq<Builder>>, client: Option<seq<Builder>>): set<u8> {
    if server.Some? && client.Some? then IdSet(server.value) * IdSet(client.value) else {UDP_ID}
  }

  /** The client succeeded with version 1, which only a version 1 server offers. */
  lemma AgreementV1(cv2: Option<seq<Builder>>, bufferSize: u32, toServer: seq<Bytes>, toClient: seq<Bytes>,
                    draws: (Draw, Draw), crypto: Crypto)
    requires toClient == [ContinueBytes(bufferSize)]
    ensures var client := ClientSide(cv2, toClient, draws.1, crypto).outcome;
      Agreed(ServerSide(None, bufferSize, toServer, draws.0, crypto).outcome, client, {UDP_ID})
      && client.downgraded == cv2.Some?
  {
    ContinueDecodes(bufferSize);
    assert SupportedIds([UdpExt]) == {UDP_ID} by { assert ExtId([UdpExt][0]) == UDP_ID; }
  }

  /** Both sides speak version 2. */
  lemma AgreementV2(sb: seq<Builder>, cb: seq<Builder>, bufferSize: u32, toServer: seq<Bytes>, toClient: seq<Bytes>,
                    draws: (Draw, Draw), crypto: Crypto)
    requires Talking(ServerSide(Some(sb), bufferSize, toServer, draws.0, crypto),
                     ClientSide(Some(cb), toClient, draws.1, crypto), toServer, toClient)
    requires OffersFit(sb, Server, draws.0, crypto)
    requires toClient != [] ==> OffersFit(DecodeFirst(toClient[0], cb, Client, crypto).0, Client, draws.1, crypto)
    requires ClientSide(Some(cb), toClient, draws.1, crypto).outcome.Done?
    ensures ContinueBytes(bufferSize) in toClient
    ensures Agreed(ServerSide(Some(sb), bufferSize, toServer, draws.0, crypto).outcome,
                   ClientSide(Some(cb), toClient, draws.1, crypto).outcome, IdSet(sb) * IdSet(cb))
  {
    V2Messages(sb, cb, bufferSize, toServer, toClient, draws, crypto);
    var (sb', offered) := Offer(sb, Server, draws.0, crypto);
    OfferIds(sb, Server, draws.0, crypto);
    InfoDecodes(offered.value, cb, Client, crypto);
    var (cb', first) := DecodeFirst(toClient[0], cb, Client, crypto);
    var (cb'', answered) := Offer(cb', Client, draws.1, crypto);
    OfferIds(cb', Client, draws.1, crypto);
    InfoDecodes(answered.value, sb', Server, crypto);
    SupportedAllOf(first.value.exts, cb'');
    var (sb'', first') := DecodeFirst(toServer[0], sb', Server, crypto);
    SupportedAllOf(first'.value.exts, sb'');
    ContinueDecodes(bufferSize);
  }

  /** The messages of a version 2 conversation at whose end the client has succeeded. */
  lemma V2Messages(sb: seq<Builder>, cb: seq<Builder>, bufferSize: u32, toServer: seq<Bytes>, toClient: seq<Bytes>,
                   draws: (Draw, Draw), crypto: Crypto)
    requires Talking(ServerSide(Some(sb), bufferSize, toServer, draws.0, crypto),
                     ClientSide(Some(cb), toClient, draws.1, crypto), toServer, toClient)
    requires OffersFit(sb, Server, draws.0, crypto)
    requires ClientSide(Some(cb), toClient, draws.1, crypto).outcome.Done?
    ensures var (sb', offered) := Offer(sb, Server, draws.0, crypto);
      && offered.Ok? && |toClient| == 2 && toClient == [InfoBytes(offered.value), ContinueBytes(bufferSize)]
      && var (cb', first) := DecodeFirst(toClient[0], cb, Client, crypto);
      && first.Ok? && first.value.Info?
      && var answered := Offer(cb', Client, draws.1, crypto).1;
      && answered.Ok? && toServer == [InfoBytes(answered.value)]
      && var first' := DecodeFirst(toServer[0], sb', Server, crypto).1;
      && first'.Ok? && first'.value.Info?
  {
    var server := ServerSide(Some(sb), bufferSize, toServer, draws.0, crypto);
    var (sb', offered) := Offer(sb, Server, draws.0, crypto);
    assert toClient[0] == server.sent[0];
    if offered.Err? {
      FarewellIsNoContinue(offered.error);
      assert false;
    }
    InfoDecodes(offered.value, cb, Client, crypto);
    assert toClient[1] == server.sent[1];
    var first' := DecodeFirst(toServer[0], sb', Server, crypto).1;
    if first'.Err? { FarewellIsNoContinue(first'.error); }
  }

  lemma InfoIsNoContinue(es: seq<Entry>)
    ensures DecodeContinue(InfoBytes(es)).Err?
  {
  }

  /** All four combinations of versions, and any point at which the connection breaks: if the client's handshake
      succeeds, then it has received the server's Continue packet, the server's handshake has succeeded, and both
      agree on the version, the buffer size and the extension ids: those both sides have a builder for in
      version 2, and UDP alone in version 1.  */
  lemma HandshakeAgreement(sv2: Option<seq<Builder>>, cv2: Option<seq<Builder>>, bufferSize: u32,
                           toServer: seq<Bytes>, toClient: seq<Bytes>, draws: (Draw, Draw), crypto: Crypto)
    requires Talking(ServerSide(sv2, bufferSize, toServer, draws.0, crypto), ClientSide(cv2, toClient, draws.1, crypto),
                     toServer, toClient)
    requires sv2.Some? ==> OffersFit(sv2.value, Server, draws.0, crypto)
    requires cv2.Some? && toClient != [] ==>
      OffersFit(DecodeFirst(toClient[0], cv2.value, Client, crypto).0, Client, draws.1, crypto)
    requires ClientSide(cv2, toClient, draws.1, crypto).outcome.Done?
    ensures ContinueBytes(bufferSize) in toClient
    ensures Agreed(ServerSide(sv2, bufferSize, toServer, draws.0, crypto).outcome,
                   ClientSide(cv2, toClient, draws.1, crypto).outcome, CommonIds(sv2, cv2))
  {
    if sv2.None? {
      assert toClient == [ContinueBytes(bufferSize)];
      AgreementV1(cv2, bufferSize, toServer, toClient, draws, crypto);
    } else if cv2.Some? {
      AgreementV2(sv2.value, cv2.value, bufferSize, toServer, toClient, draws, crypto);
    } else {
      var offered := Offer(sv2.value, Server, draws.0, crypto).1;
      assert toClient[0] == ServerSide(sv2, bufferSize, toServer, draws.0, crypto).sent[0];
      if offered.Err? { FarewellIsNoContinue(offered.error); } else { InfoIsNoContinue(offered.value); }
    }
  }

  // ---------- What a server result proves ----------

  lemma {:induction false} BuildAllPointwise(bs: seq<Builder>, k: nat, role: Role, draw: Draw, crypto: Crypto)
    requires k <= |bs| && BuildAll(bs, k, role, draw, crypto).exts.Ok?
    ensures var built := BuildAll(bs, k, role, draw, crypto);
      && |built.builders| == |bs| && |built.exts.value| == |bs| - k
      && (forall i :: 0 <= i < k ==> built.builders[i] == bs[i])
      && (forall i :: k <= i < |bs| ==>
           && built.builders[i] == BuildTo(bs[i], role, draw(i), crypto).0
           && Ok(built.exts.value[i - k]) == BuildTo(bs[i], role, draw(i), crypto).1)
    decreases |bs| - k
  {
    if k < |bs| {
      BuildAllPointwise(bs[k := BuildTo(bs[k], role, draw(k), crypto).0], k + 1, role, draw, crypto);
    }
  }

  lemma ToEntriesAt(exts: seq<Ext>, i: nat)
    requires ToEntries(exts).Ok? && i < |exts|
    ensures EncodeExt(exts[i]) == Ok(ToEntries(exts).value[i].payload)
  {
    if i > 0 {
      ToEntriesAt(exts[1..], i - 1);
    }
  }

  /** Decoded extensions all have builders, so that filtering them keeps them all. */
  lemma DecodedSupported(b: Bytes, bs: seq<Builder>, role: Role, crypto: Crypto)
    requires DecodeExts(b, bs, role, crypto).exts.Ok?
    ensures Supported(DecodeExts(b, bs, role, crypto).exts.value, DecodeExts(b, bs, role, crypto).builders)
      == DecodeExts(b, bs, role, crypto).exts.value
  {
    var es := SplitEntries(b).0;
    DecodeIsFeed(b, bs, role, crypto);
    FeedIds(es, bs, role, crypto);
    KnownIdsSet(es, IdSet(bs));
    var exts := DecodeExts(b, bs, role, crypto).exts.value;
    forall i | 0 <= i < |exts| ensures ExtId(exts[i]) in IdSet(bs) { assert ExtIds(exts)[i] == ExtId(exts[i]); }
    SupportedAll(exts, DecodeExts(b, bs, role, crypto).builders);
  }

  /** A version 2 server finished; `es` are the entries of the client's INFO packet. */
  ghost predicate ServerFinished(sb: seq<Builder>, bufferSize: u32, toServer: seq<Bytes>, draw: Draw, crypto: Crypto,
                                 es: seq<Entry>, exts: seq<Ext>) {
    var outcome := ServerSide(Some(sb), bufferSize, toServer, draw, crypto).outcome;
    && outcome.Done? && outcome.v2 && outcome.exts == exts
    && toServer != [] && |toServer[0]| >= 7 && es == SplitEntries(toServer[0][7..]).0
  }

  lemma ServerBuilders(sb: seq<Builder>, k: nat, draw: Draw, crypto: Crypto)
    requires FirstFor(sb, k) && Offer(sb, Server, draw, crypto).1.Ok?
    ensures var bs := Offer(sb, Server, draw, crypto).0;
      FirstFor(bs, k) && bs[k] == BuildTo(sb[k], Server, draw(k), crypto).0
  {
    BuildAllPointwise(sb, 0, Server, draw, crypto);
  }

  /** Whatever bytes the client sent: a finished server that reports the password extension received exactly
      one password entry, and its user and password are in the table.  */
  lemma ServerPasswordSound(sb: seq<Builder>, k: nat, bufferSize: u32, toServer: seq<Bytes>, draw: Draw, crypto: Crypto,
                            es: seq<Entry>, exts: seq<Ext>)
    requires ServerFinished(sb, bufferSize, toServer, draw, crypto, es, exts)
    requires FirstFor(sb, k) && sb[k].PasswordServerBefore? && Contains(exts, PASSWORD_ID)
    ensures Count(es, PASSWORD_ID) == 1
    ensures forall e :: e in exts && ExtId(e) == PASSWORD_ID ==> Authentic(e, es, sb[k].users)
  {
    var bs := Offer(sb, Server, draw, crypto).0;
    ServerBuilders(sb, k, draw, crypto);
    DecodedSupported(toServer[0][7..], bs, Server, crypto);
    PasswordSound(toServer[0][7..], bs, k, crypto);
  }

  lemma CertOffered(sb: seq<Builder>, k: nat, draw: Draw, crypto: Crypto)
    requires k < |sb| && sb[k].CertServerBefore? && Offer(sb, Server, draw, crypto).1.Ok?
    ensures var offered := Offer(sb, Server, draw, crypto).1.value;
      |offered| == |sb| && offered[k] == Entry(CERT_ID, [Flag(sb[k].required), ED25519] + draw(k))
  {
    BuildAllPointwise(sb, 0, Server, draw, crypto);
    var exts := BuildAll(sb, 0, Server, draw, crypto).exts.value;
    CertChallenge(sb[k], draw(k), crypto);
    assert exts[k - 0] == CertOffer(ED25519, draw(k), sb[k].required);
    ToEntriesAt(exts, k);
  }

  lemma CertChallenge(b: Builder, random: Bytes, crypto: Crypto)
    requires b.CertServerBefore?
    ensures BuildTo(b, Server, random, crypto) ==
            (CertServerAfter(b.verifiers, random, b.required), Ok(CertOffer(ED25519, random, b.required)))
  {
  }

  /** Whatever bytes the client sent: a finished server that reports the certificate extension has offered a
      challenge in its own INFO packet, and a listed key verified a signature of that very challenge.  */
  lemma ServerCertSound(sb: seq<Builder>, k: nat, bufferSize: u32, toServer: seq<Bytes>, draw: Draw, crypto: Crypto,
                        es: seq<Entry>, exts: seq<Ext>) returns (offered: seq<Entry>)
    requires ServerFinished(sb, bufferSize, toServer, draw, crypto, es, exts)
    requires FirstFor(sb, k) && sb[k].CertServerBefore? && Contains(exts, CERT_ID)
    ensures CertProof(es, sb[k].verifiers, draw(k), crypto)
    ensures ServerSide(Some(sb), bufferSize, toServer, draw, crypto).sent[0] == InfoBytes(offered)
    ensures |offered| == |sb| && offered[k] == Entry(CERT_ID, [Flag(sb[k].required), ED25519] + draw(k))
  {
    offered := Offer(sb, Server, draw, crypto).1.value;
    CertOffered(sb, k, draw, crypto);
    var bs := Offer(sb, Server, draw, crypto).0;
    ServerBuilders(sb, k, draw, crypto);
    DecodedSupported(toServer[0][7..], bs, Server, crypto);
    DecodedCert(toServer[0][7..], bs, k, es, crypto);
  }

  /** A decoded payload that yields the certificate extension carries a proof. */
  lemma DecodedCert(b: Bytes, bs: seq<Builder>, k: nat, es: seq<Entry>, crypto: Crypto)
    requires FirstFor(bs, k) && bs[k].CertServerAfter? && es == SplitEntries(b).0
    requires DecodeExts(b, bs, Server, crypto).exts.Ok?
    requires Contains(DecodeExts(b, bs, Server, crypto).exts.value, CERT_ID)
    ensures CertProof(es, bs[k].verifiers, bs[k].challenge, crypto)
  {
    DecodeIsFeed(b, bs, Server, crypto);
    FeedCert(es, bs, k, Server, crypto);
  }
}
