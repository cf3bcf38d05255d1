/** Why payloads have to fit the 32-bit length field: a longer one is taken apart by the reader. */
module HandshakeOversize {
  import opened Common
  import opened Packets
  import opened Extensions
  import opened Handshake
  import opened HandshakeSuccess

  // ---------- A message of the day of exactly 2^32 bytes ----------

  function Zeros(n: nat): Bytes {
    seq(n, i => 0)
  }

  /** Entries whose encoding is ASCII, the first of which pretends to be a password offer. */
  const Hidden: seq<Entry> := [Entry(PASSWORD_ID, [0]), Filler(0x7F7F_7F7F), Filler(0x7F7F_7F00), Filler(0x0101_016C)]

  function Filler(n: nat): Entry {
    Entry(0x09, Zeros(n))
  }

  predicate Ascii(b: Bytes) {
    forall i :: 0 <= i < |b| ==> b[i] <= 0x7F
  }

  lemma {:induction false} AsciiIsUtf8(b: Bytes)
    requires Ascii(b)
    ensures ValidUtf8(b)
    decreases |b|
  {
    if b != [] { AsciiIsUtf8(b[1..]); }
  }

  lemma AsciiConcat(x: Bytes, y: Bytes)
    requires Ascii(x) && Ascii(y)
    ensures Ascii(x + y)
  {
  }

  lemma EntryHead(e: Entry, len: Bytes)
    requires |e.payload| <= U32_MAX && U32Le(|e.payload|) == len
    ensures EncodeEntry(e) == [e.id] + len + e.payload
  {
  }

  lemma AsciiEntry(e: Entry, a: u8, b: u8, c: u8, d: u8)
    requires |e.payload| <= U32_MAX && U32Le(|e.payload|) == [a, b, c, d]
    requires Ascii([e.id, a, b, c, d]) && Ascii(e.payload)
    ensures Ascii(EncodeEntry(e)) && |EncodeEntry(e)| == 5 + |e.payload|
  {
    EntryHead(e, [a, b, c, d]);
    assert [e.id] + [a, b, c, d] == [e.id, a, b, c, d];
    AsciiConcat([e.id, a, b, c, d], e.payload);
  }

  lemma HiddenIsText()
    ensures Ascii(EncodeEntries(Hidden)) && |EncodeEntries(Hidden)| == 0x1_0000_0000 && Carried(Hidden)
  {
    AsciiEntry(Hidden[0], 1, 0, 0, 0);
    AsciiEntry(Hidden[1], 0x7F, 0x7F, 0x7F, 0x7F);
    AsciiEntry(Hidden[2], 0x00, 0x7F, 0x7F, 0x7F);
    AsciiEntry(Hidden[3], 0x6C, 0x01, 0x01, 0x01);
    FourEntries(Hidden[0], Hidden[1], Hidden[2], Hidden[3]);
  }

  lemma FourEntries(a: Entry, b: Entry, c: Entry, d: Entry)
    ensures EncodeEntries([a, b, c, d]) == EncodeEntry(a) + (EncodeEntry(b) + (EncodeEntry(c) + EncodeEntry(d)))
  {
    FirstEntry(a, [b, c, d]);
    FirstEntry(b, [c, d]);
    FirstEntry(c, [d]);
    FirstEntry(d, []);
    assert [a] + [b, c, d] == [a, b, c, d] && [b] + [c, d] == [b, c, d] && [c] + [d] == [c, d] && [d] + [] == [d];
    assert EncodeEntry(d) + [] == EncodeEntry(d);
  }

  lemma FirstEntry(e: Entry, rest: seq<Entry>)
    ensures EncodeEntries([e] + rest) == EncodeEntry(e) + EncodeEntries(rest)
  {
    assert ([e] + rest)[1..] == rest;
  }

  function Motd(): (m: Utf8)
    ensures |m| == 0x1_0000_0000
  {
    HiddenIsText();
    AsciiIsUtf8(EncodeEntries(Hidden));
    EncodeEntries(Hidden)
  }

  /** The length of a text of 2^32 bytes is cut to 0, so that a text that spells entries is read as those entries. */
  lemma TextIsReadAsEntries(hidden: seq<Entry>, text: Bytes)
    requires text == EncodeEntries(hidden) && |text| == 0x1_0000_0000
    ensures InfoBytes([Entry(MOTD_ID, text)]) == InfoBytes([Entry(MOTD_ID, [])] + hidden)
  {
    var long, short := Entry(MOTD_ID, text), Entry(MOTD_ID, []);
    FirstEntry(long, []);
    FirstEntry(short, hidden);
    assert [long] + [] == [long];
    assert EncodeEntry(long) + [] == EncodeEntry(long);
    assert EncodeEntry(long) == [MOTD_ID] + U32Le(0) + text;
    assert EncodeEntry(short) == [MOTD_ID] + U32Le(0);
  }

  // ---------- Both sides succeed and disagree ----------

  lemma FeedStep(e: Entry, rest: seq<Entry>, bs: seq<Builder>, role: Role, crypto: Crypto)
    ensures Find(bs, e.id) == |bs| ==> Feed([e] + rest, bs, role, crypto) == Feed(rest, bs, role, crypto)
    ensures Find(bs, e.id) < |bs| ==>
      var i := Find(bs, e.id);
      var (b, r) := BuildFrom(bs[i], e.payload, role, crypto);
      r.Ok? ==> Feed([e] + rest, bs, role, crypto) == Prepend(r.value, Feed(rest, bs[i := b], role, crypto))
  {
    assert ([e] + rest)[1..] == rest;
  }

  lemma {:induction false} FeedUnknown(es: seq<Entry>, bs: seq<Builder>, role: Role, crypto: Crypto)
    requires forall i :: 0 <= i < |es| ==> Find(bs, es[i].id) == |bs|
    ensures Feed(es, bs, role, crypto) == Built(bs, Ok([]))
    decreases |es|
  {
    if es != [] { FeedUnknown(es[1..], bs, role, crypto); }
  }

  /** A server that offers nothing but the long message, and a client that knows nothing but passwords. */
  function LongServer(): seq<Builder> {
    [MotdServer(Motd())]
  }

  const PlainClient: seq<Builder> := [PasswordClientBefore(Some(([], [])))]
  const ToldClient: seq<Builder> := [PasswordClientAfter(Some(([], [])), false)]

  lemma ServerOffersText(draw: Draw, crypto: Crypto)
    ensures Offer(LongServer(), Server, draw, crypto) == (LongServer(), Ok([Entry(MOTD_ID, Motd())]))
  {
    var bs := LongServer();
    assert bs[0 := bs[0]] == bs;
    assert BuildAll(bs, 1, Server, draw, crypto) == Built(bs, Ok([]));
    assert [MotdExt(Server, Motd())] + [] == [MotdExt(Server, Motd())];
    assert BuildAll(bs, 0, Server, draw, crypto) == Built(bs, Ok([MotdExt(Server, Motd())]));
    OneToEntries(MotdExt(Server, Motd()), Motd());
  }

  lemma OneToEntries(e: Ext, payload: Bytes)
    requires EncodeExt(e) == Ok(payload)
    ensures ToEntries([e]) == Ok([Entry(ExtId(e), payload)])
  {
    assert [e][1..] == [] && ToEntries([]) == Ok([]);
    assert [Entry(ExtId(e), payload)] + [] == [Entry(ExtId(e), payload)];
  }

  /** A client that is offered a password between entries it does not know. */
  lemma FeedOffer(short: Entry, offer: Entry, fillers: seq<Entry>, crypto: Crypto)
    requires short.id == MOTD_ID && offer == Entry(PASSWORD_ID, [0])
    requires forall i :: 0 <= i < |fillers| ==> fillers[i].id == 0x09
    ensures Feed([short] + ([offer] + fillers), PlainClient, Client, crypto) ==
            Built(ToldClient, Ok([PasswordReceived]))
  {
    FeedStep(short, [offer] + fillers, PlainClient, Client, crypto);
    FeedStep(offer, fillers, PlainClient, Client, crypto);
    assert PlainClient[0 := ToldClient[0]] == ToldClient;
    FeedUnknown(fillers, ToldClient, Client, crypto);
    assert [PasswordReceived] + [] == [PasswordReceived];
  }

  lemma ClientReadsOffer(crypto: Crypto)
    ensures DecodeFirst(InfoBytes([Entry(MOTD_ID, Motd())]), PlainClient, Client, crypto) ==
      (ToldClient, Ok(Info([PasswordReceived])))
  {
    HiddenIsText();
    TextIsReadAsEntries(Hidden, Motd());
    var short, fillers := Entry(MOTD_ID, []), Hidden[1..];
    assert Hidden == [Hidden[0]] + fillers;
    assert forall i :: 0 <= i < |fillers| ==> fillers[i] == Hidden[i + 1];
    FeedOffer(short, Hidden[0], fillers, crypto);
    ReadsInfo([short] + Hidden, PlainClient, Client, crypto);
  }

  lemma ClientOffersCreds(draw: Draw, crypto: Crypto)
    ensures Offer(ToldClient, Client, draw, crypto) == (ToldClient, Ok([Entry(PASSWORD_ID, [0])]))
  {
    var e := PasswordCreds([], []);
    assert ToldClient[0 := ToldClient[0]] == ToldClient && [e] + [] == [e];
    assert BuildAll(ToldClient, 1, Client, draw, crypto) == Built(ToldClient, Ok([]));
    assert BuildAll(ToldClient, 0, Client, draw, crypto) == Built(ToldClient, Ok([e]));
    assert [0] + [] + [] == [0];
    OneToEntries(e, [0]);
  }

  lemma ServerSkipsCreds(crypto: Crypto)
    ensures DecodeFirst(InfoBytes([Entry(PASSWORD_ID, [0])]), LongServer(), Server, crypto) ==
      (LongServer(), Ok(Info([])))
  {
    FeedUnknown([Entry(PASSWORD_ID, [0])], LongServer(), Server, crypto);
    ReadsInfo([Entry(PASSWORD_ID, [0])], LongServer(), Server, crypto);
  }

  /** Both sides of a version 2 conversation succeed, with these extensions. */
  predicate BothDone(sb: seq<Builder>, cb: seq<Builder>, bufferSize: u32, draws: (Draw, Draw), crypto: Crypto,
                     server: seq<Ext>, client: seq<Ext>) {
    var sides := Converse(sb, cb, bufferSize, draws, crypto);
    && sides.0.outcome == Done(true, server, false, bufferSize, None)
    && sides.1.outcome == Done(true, client, false, bufferSize, None)
  }

  /** A conversation, put together from what each side reads and offers. */
  lemma ConverseBy(sb: seq<Builder>, cb: seq<Builder>, bufferSize: u32, draws: (Draw, Draw), crypto: Crypto,
                   es: seq<Entry>, told: seq<Ext>, bs: seq<Builder>, answer: seq<Entry>, heard: seq<Ext>)
    requires Offer(sb, Server, draws.0, crypto) == (sb, Ok(es))
    requires DecodeFirst(InfoBytes(es), cb, Client, crypto) == (bs, Ok(Info(told)))
    requires Offer(bs, Client, draws.1, crypto) == (bs, Ok(answer))
    requires DecodeFirst(InfoBytes(answer), sb, Server, crypto) == (sb, Ok(Info(heard)))
    ensures BothDone(sb, cb, bufferSize, draws, crypto, Supported(heard, sb), Supported(told, bs))
  {
    ContinueDecodes(bufferSize);
  }

  /** With a message of the day of 2^32 bytes both handshakes succeed, and the sides disagree: the client believes in an
      extension the server does not have. */
  lemma OversizedOfferDisagrees(bufferSize: u32, draws: (Draw, Draw), crypto: Crypto)
    ensures BothDone(LongServer(), PlainClient, bufferSize, draws, crypto, [], [PasswordReceived])
  {
    ServerOffersText(draws.0, crypto);
    ClientReadsOffer(crypto);
    ClientOffersCreds(draws.1, crypto);
    ServerSkipsCreds(crypto);
    ConverseBy(LongServer(), PlainClient, bufferSize, draws, crypto, [Entry(MOTD_ID, Motd())], [PasswordReceived],
               ToldClient, [Entry(PASSWORD_ID, [0])], []);
    ToldSupports();
  }

  lemma OneSupported(e: Ext, bs: seq<Builder>)
    requires ExtId(e) in IdSet(bs)
    ensures Supported([e], bs) == [e]
  {
    SupportedAll([e], bs);
  }

  lemma ToldSupports()
    ensures Supported([PasswordReceived], ToldClient) == [PasswordReceived] && Supported([], LongServer()) == []
  {
    assert Id(ToldClient[0]) in IdSet(ToldClient);
    OneSupported(PasswordReceived, ToldClient);
  }

  // ---------- Agreement, exactly ----------

  /** Every payload a side offers has at most `max` bytes. */
  predicate OffersUpTo(max: nat, bs: seq<Builder>, role: Role, draw: Draw, crypto: Crypto) {
    var offered := Offer(bs, role, draw, crypto).1;
    offered.Ok? ==> forall i :: 0 <= i < |offered.value| ==> |offered.value[i].payload| <= max
  }

  /** Two sides talk to each other, offer payloads of at most `max` bytes, and the client's handshake succeeds. */
  ghost predicate ClientSucceeds(max: nat, sv2: Option<seq<Builder>>, cv2: Option<seq<Builder>>, bufferSize: u32,
                                 toServer: seq<Bytes>, toClient: seq<Bytes>, draws: (Draw, Draw), crypto: Crypto) {
    && Talking(ServerSide(sv2, bufferSize, toServer, draws.0, crypto), ClientSide(cv2, toClient, draws.1, crypto),
               toServer, toClient)
    && (sv2.Some? ==> OffersUpTo(max, sv2.value, Server, draws.0, crypto))
    && (cv2.Some? && toClient != [] ==>
          OffersUpTo(max, DecodeFirst(toClient[0], cv2.value, Client, crypto).0, Client, draws.1, crypto))
    && ClientSide(cv2, toClient, draws.1, crypto).outcome.Done?
  }

  ghost predicate AlwaysAgree(max: nat, draws: (Draw, Draw), crypto: Crypto) {
    forall sv2, cv2, bufferSize, toServer, toClient ::
      ClientSucceeds(max, sv2, cv2, bufferSize, toServer, toClient, draws, crypto) ==>
        && ContinueBytes(bufferSize) in toClient
        && Agreed(ServerSide(sv2, bufferSize, toServer, draws.0, crypto).outcome,
                  ClientSide(cv2, toClient, draws.1, crypto).outcome, CommonIds(sv2, cv2))
  }

  /** The messages of the conversation in which both sides succeed and disagree. */
  function ToServer(): seq<Bytes> {
    [InfoBytes([Entry(PASSWORD_ID, [0])])]
  }

  function ToClient(): seq<Bytes> {
    [InfoBytes([Entry(MOTD_ID, Motd())]), ContinueBytes(1)]
  }

  lemma LongServerTalks(draw: Draw, crypto: Crypto)
    ensures ServerSide(Some(LongServer()), 1, ToServer(), draw, crypto).sent == ToClient()
    ensures OffersUpTo(0x1_0000_0000, LongServer(), Server, draw, crypto)
  {
    ServerOffersText(draw, crypto);
    ServerSkipsCreds(crypto);
  }

  lemma PlainClientTalks(draw: Draw, crypto: Crypto)
    ensures var client := ClientSide(Some(PlainClient), ToClient(), draw, crypto);
      client.sent == ToServer() && client.outcome == Done(true, [PasswordReceived], false, 1, None)
    ensures OffersUpTo(0x1_0000_0000, DecodeFirst(ToClient()[0], PlainClient, Client, crypto).0, Client, draw, crypto)
  {
    ClientReadsOffer(crypto);
    ClientOffersCreds(draw, crypto);
    ContinueDecodes(1);
    ToldSupports();
  }

  /** Each side has received all the other one sent. */
  lemma FullTalk(max: nat, sb: seq<Builder>, cb: seq<Builder>, bufferSize: u32, toServer: seq<Bytes>,
                 toClient: seq<Bytes>, draws: (Draw, Draw), crypto: Crypto)
    requires ServerSide(Some(sb), bufferSize, toServer, draws.0, crypto).sent == toClient && toClient != []
    requires ClientSide(Some(cb), toClient, draws.1, crypto).sent == toServer
    requires ClientSide(Some(cb), toClient, draws.1, crypto).outcome.Done?
    requires OffersUpTo(max, sb, Server, draws.0, crypto)
    requires OffersUpTo(max, DecodeFirst(toClient[0], cb, Client, crypto).0, Client, draws.1, crypto)
    ensures ClientSucceeds(max, Some(sb), Some(cb), bufferSize, toServer, toClient, draws, crypto)
  {
  }

  lemma PasswordIsNotCommon()
    ensures PASSWORD_ID in SupportedIds([PasswordReceived])
    ensures PASSWORD_ID !in CommonIds(Some(LongServer()), Some(PlainClient))
  {
    assert ExtId([PasswordReceived][0]) == PASSWORD_ID;
  }

  lemma OversizedFails(draws: (Draw, Draw), crypto: Crypto)
    ensures !AlwaysAgree(0x1_0000_0000, draws, crypto)
  {
    LongServerTalks(draws.0, crypto);
    PlainClientTalks(draws.1, crypto);
    FullTalk(0x1_0000_0000, LongServer(), PlainClient, 1, ToServer(), ToClient(), draws, crypto);
    PasswordIsNotCommon();
  }

  lemma MoreOffers(max: nat, more: nat, draws: (Draw, Draw), crypto: Crypto)
    requires max <= more && AlwaysAgree(more, draws, crypto)
    ensures AlwaysAgree(max, draws, crypto)
  {
    forall sv2, cv2, bufferSize, toServer, toClient |
      ClientSucceeds(max, sv2, cv2, bufferSize, toServer, toClient, draws, crypto)
      ensures ClientSucceeds(more, sv2, cv2, bufferSize, toServer, toClient, draws, crypto)
    {
    }
  }

  /** Whoever talks to whom, over whatever connection: the sides agree whenever the client succeeds, exactly if no side
      offers a payload that is too long for the 32-bit length field. */
  lemma AgreesExactly(max: nat, draws: (Draw, Draw), crypto: Crypto)
    ensures AlwaysAgree(max, draws, crypto) <==> max <= U32_MAX
  {
    if max <= U32_MAX {
      forall sv2, cv2, bufferSize, toServer, toClient |
        ClientSucceeds(max, sv2, cv2, bufferSize, toServer, toClient, draws, crypto)
        ensures ContinueBytes(bufferSize) in toClient
        ensures Agreed(ServerSide(sv2, bufferSize, toServer, draws.0, crypto).outcome,
                       ClientSide(cv2, toClient, draws.1, crypto).outcome, CommonIds(sv2, cv2))
      {
        HandshakeAgreement(sv2, cv2, bufferSize, toServer, toClient, draws, crypto);
      }
    } else {
      OversizedFails(draws, crypto);
      if AlwaysAgree(max, draws, crypto) { MoreOffers(0x1_0000_0000, max, draws, crypto); }
    }
  }
}
