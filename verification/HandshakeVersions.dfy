/** How a handshake ends for every combination of versions, and what a finished server knows about its client. */
module HandshakeVersions {
  import opened Common
  import opened Packets
  import opened Extensions
  import opened Handshake
  import opened HandshakeSuccess

  // ---------- Success, for all four combinations ----------

  /** A conversation in which every message is delivered. */
  function ConverseAny(sv2: Option<seq<Builder>>, cv2: Option<seq<Builder>>, bufferSize: u32, draws: (Draw, Draw),
                       crypto: Crypto): (Side, Side) {
    var opening := ServerSide(sv2, bufferSize, [], draws.0, crypto).sent;
    var answer := ClientSide(cv2, opening, draws.1, crypto).sent;
    var server := ServerSide(sv2, bufferSize, answer, draws.0, crypto);
    (server, ClientSide(cv2, server.sent, draws.1, crypto))
  }

  /** A version 1 client fails with every version 2 server, whatever either receives and wherever the connection
      breaks: it takes the INFO packet for its first packet. */
  lemma OldClientFails(sb: seq<Builder>, bufferSize: u32, toServer: seq<Bytes>, toClient: seq<Bytes>,
                       draws: (Draw, Draw), crypto: Crypto)
    requires toClient <= ServerSide(Some(sb), bufferSize, toServer, draws.0, crypto).sent
    ensures var client := ClientSide(None, toClient, draws.1, crypto);
      && client.sent == [] && client.outcome.Failed?
      && (toClient != [] && Offer(sb, Server, draws.0, crypto).1.Ok? ==>
            client.outcome.error == InvalidPacketType(0x05))
  {
    var offered := Offer(sb, Server, draws.0, crypto).1;
    if toClient != [] {
      assert toClient[0] == ServerSide(Some(sb), bufferSize, toServer, draws.0, crypto).sent[0];
      if offered.Err? { FarewellIsNoContinue(offered.error); } else { InfoIsNoContinue(offered.value); }
    }
  }

  /** The client's handshake succeeds with every version 1 server; a version 1 client never succeeds with a version 2
      server; and two version 2 sides succeed exactly if each of the client's builders is acceptable.  The server
      succeeds exactly if the client does. */
  lemma SucceedsExactly(sv2: Option<seq<Builder>>, cv2: Option<seq<Builder>>, bufferSize: u32, draws: (Draw, Draw),
                        crypto: Crypto)
    requires sv2.Some? && cv2.Some? ==>
      IsServerList(sv2.value) && IsClientList(cv2.value) && Sized(sv2.value, cv2.value, draws.0, crypto)
    ensures var (server, client) := ConverseAny(sv2, cv2, bufferSize, draws, crypto);
      && (server.outcome.Done? <==> client.outcome.Done?)
      && (client.outcome.Done? <==>
            (sv2.Some? ==> cv2.Some? && forall i :: 0 <= i < |cv2.value| ==>
               Acceptable(cv2.value[i], sv2.value, draws.0, crypto)))
  {
    var (server, client) := ConverseAny(sv2, cv2, bufferSize, draws, crypto);
    if sv2.None? {
      AgreementV1(cv2, bufferSize, ClientSide(cv2, server.sent, draws.1, crypto).sent, server.sent, draws, crypto);
    } else if cv2.None? {
      OldClientFails(sv2.value, bufferSize, [], ServerSide(sv2, bufferSize, [], draws.0, crypto).sent, draws, crypto);
      OldClientFails(sv2.value, bufferSize, [], server.sent, draws, crypto);
    } else {
      assert ConverseAny(sv2, cv2, bufferSize, draws, crypto) ==
             Converse(sv2.value, cv2.value, bufferSize, draws, crypto);
      HandshakeSucceedsExactly(sv2.value, cv2.value, bufferSize, draws, crypto);
    }
  }

  /** The first message is a packet of version 1. */
  predicate PlainFirst(toServer: seq<Bytes>) {
    toServer != [] && |toServer[0]| >= 5 && toServer[0][0] != 0x05 && Decode(toServer[0]).Ok?
  }

  /** A version 2 server that has sent its INFO falls back to version 1 exactly if the first message is a plain packet.
      It then sends nothing after the INFO, no Continue packet in particular, and passes the packet on. */
  lemma DowngradesExactly(sb: seq<Builder>, bufferSize: u32, toServer: seq<Bytes>, draw: Draw, crypto: Crypto)
    requires Offer(sb, Server, draw, crypto).1.Ok?
    ensures var server := ServerSide(Some(sb), bufferSize, toServer, draw, crypto);
      && (server.outcome.Done? && server.outcome.downgraded <==> PlainFirst(toServer))
      && (server.outcome.Done? && !server.outcome.v2 <==> PlainFirst(toServer))
      && (PlainFirst(toServer) ==>
            && server.sent == [InfoBytes(Offer(sb, Server, draw, crypto).1.value)]
            && ContinueBytes(bufferSize) !in server.sent
            && server.outcome == Done(false, [UdpExt], true, bufferSize, Some(Decode(toServer[0]).value)))
  {
    ContinueDecodes(bufferSize);
    assert InfoBytes(Offer(sb, Server, draw, crypto).1.value)[0] == 0x05;
  }

  // ---------- What a finished server reports ----------

  /** The first message is an INFO packet with an entry for `id`. */
  ghost predicate InfoMentions(toServer: seq<Bytes>, id: u8) {
    toServer != [] && |toServer[0]| >= 7 && toServer[0][0] == 0x05 && Mentions(SplitEntries(toServer[0][7..]).0, id)
  }

  lemma DecodedMentions(b: Bytes, bs: seq<Builder>, role: Role, crypto: Crypto, id: u8)
    requires DecodeExts(b, bs, role, crypto).exts.Ok? && id in IdSet(bs)
    ensures Contains(DecodeExts(b, bs, role, crypto).exts.value, id) <==> Mentions(SplitEntries(b).0, id)
  {
    var es := SplitEntries(b).0;
    DecodeIsFeed(b, bs, role, crypto);
    FeedIds(es, bs, role, crypto);
    KnownIdsSet(es, IdSet(bs));
    var exts := DecodeExts(b, bs, role, crypto).exts.value;
    var ids := ExtIds(exts);
    assert ids == KnownIds(es, IdSet(bs));
    if Contains(exts, id) {
      var e :| e in exts && ExtId(e) == id;
      var i :| 0 <= i < |exts| && exts[i] == e;
      assert ids[i] == id;
    }
    if Mentions(es, id) {
      var i :| 0 <= i < |ids| && ids[i] == id;
      assert exts[i] in exts && ExtId(exts[i]) == id;
    }
  }

  /** Whatever the client sends and whatever the builders say is required: a finished server reports an extension it
      has a builder for, other than UDP, exactly if the first message is an INFO packet that mentions it. */
  lemma ServerReportsExactly(sb: seq<Builder>, id: u8, bufferSize: u32, toServer: seq<Bytes>, draw: Draw,
                             crypto: Crypto)
    requires id in IdSet(sb) && id != UDP_ID
    requires ServerSide(Some(sb), bufferSize, toServer, draw, crypto).outcome.Done?
    ensures Contains(ServerSide(Some(sb), bufferSize, toServer, draw, crypto).outcome.exts, id) <==>
      InfoMentions(toServer, id)
  {
    var bs := Offer(sb, Server, draw, crypto).0;
    OfferIds(sb, Server, draw, crypto);
    var outcome := ServerSide(Some(sb), bufferSize, toServer, draw, crypto).outcome;
    if outcome.v2 {
      DecodedSupported(toServer[0][7..], bs, Server, crypto);
      DecodedMentions(toServer[0][7..], bs, Server, crypto, id);
    } else {
      assert outcome.exts == [UdpExt];
    }
  }

  // ---------- Ways around authentication ----------

  /** A client that sends an INFO packet without entries is let in, whatever the server's builders require. */
  lemma EmptyInfoPasses(sb: seq<Builder>, bufferSize: u32, draw: Draw, crypto: Crypto)
    requires Offer(sb, Server, draw, crypto).1.Ok?
    ensures ServerSide(Some(sb), bufferSize, [InfoBytes([])], draw, crypto).outcome ==
            Done(true, [], false, bufferSize, None)
  {
    assert InfoBytes([])[7..] == [];
  }

  /** A client that sends any packet of version 1 first is let in, whatever the server's builders require. */
  lemma PlainPacketPasses(sb: seq<Builder>, bufferSize: u32, p: Packet, draw: Draw, crypto: Crypto)
    requires Offer(sb, Server, draw, crypto).1.Ok? && Canonical(p)
    ensures ServerSide(Some(sb), bufferSize, [Encode(p)], draw, crypto).outcome ==
      Done(false, [UdpExt], true, bufferSize, Some(p))
  {
    PacketRoundTrip(p);
    EncodeParts(p);
  }
}
