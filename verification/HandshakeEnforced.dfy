/** Which extensions a server can enforce with the check for required ids, and which required ids a client can
    satisfy. */
module HandshakeEnforced {
  import opened Common
  import opened Packets
  import opened Extensions
  import opened Handshake
  import opened HandshakeSuccess
  import opened HandshakeVersions
  import opened HandshakeRequired

  /** What the server reports about a client that gets in. */
  ghost predicate LetsIn(sb: seq<Builder>, bufferSize: u32, toServer: seq<Bytes>, draw: Draw, crypto: Crypto,
                         exts: seq<Ext>) {
    var outcome := ServerSide(Some(sb), bufferSize, toServer, draw, crypto).outcome;
    outcome.Done? && outcome.exts == exts
  }

  /** No client gets past the server and the check for `ids` without the extension `id`. */
  ghost predicate Enforced(sb: seq<Builder>, id: u8, ids: seq<u8>, draw: Draw, crypto: Crypto) {
    forall bufferSize: u32, toServer, exts ::
      LetsIn(sb, bufferSize, toServer, draw, crypto, exts) && Missing(exts, ids) == [] ==> Contains(exts, id)
  }

  /** Some client gets past the server and the check for `ids`. */
  ghost predicate Passable(sb: seq<Builder>, ids: seq<u8>, draw: Draw, crypto: Crypto) {
    exists bufferSize: u32, toServer, exts ::
      LetsIn(sb, bufferSize, toServer, draw, crypto, exts) && Missing(exts, ids) == []
  }

  // ---------- Leaving an extension out ----------

  function Without(es: seq<Entry>, id: u8): seq<Entry> {
    if es == [] then [] else (if es[0].id == id then [] else [es[0]]) + Without(es[1..], id)
  }

  function WithoutExt(exts: seq<Ext>, id: u8): seq<Ext> {
    if exts == [] then [] else (if ExtId(exts[0]) == id then [] else [exts[0]]) + WithoutExt(exts[1..], id)
  }

  lemma {:induction false} WithoutExtContains(exts: seq<Ext>, id: u8, x: u8)
    ensures Contains(WithoutExt(exts, id), x) <==> x != id && Contains(exts, x)
    decreases |exts|
  {
    if exts != [] {
      WithoutExtContains(exts[1..], id, x);
      assert exts == [exts[0]] + exts[1..];
      assert forall e :: e in exts <==> e == exts[0] || e in exts[1..];
      var rest := WithoutExt(exts[1..], id);
      assert forall e :: e in WithoutExt(exts, id) <==> (e == exts[0] && ExtId(e) != id) || e in rest;
    }
  }

  lemma {:induction false} SplitCarried(b: Bytes)
    ensures Carried(SplitEntries(b).0)
    decreases |b|
  {
    if |b| >= 5 && |b| - 5 >= GetU32Le(b[1..]) { SplitCarried(b[5 + GetU32Le(b[1..])..]); }
  }

  lemma {:induction false} WithoutCarried(es: seq<Entry>, id: u8)
    requires Carried(es)
    ensures Carried(Without(es, id))
    decreases |es|
  {
    if es != [] {
      assert forall i :: 0 <= i < |es[1..]| ==> es[1..][i] == es[i + 1];
      WithoutCarried(es[1..], id);
    }
  }

  lemma {:induction false} FindAgrees(bs: seq<Builder>, cs: seq<Builder>, id: u8)
    requires |cs| == |bs| && forall i :: 0 <= i < |bs| ==> Id(cs[i]) == Id(bs[i])
    ensures Find(cs, id) == Find(bs, id)
    decreases |bs|
  {
    if bs != [] { FindAgrees(bs[1..], cs[1..], id); }
  }

  /** The same builders, but for the one at `k`, which still has its id. */
  predicate SameBut(bs: seq<Builder>, cs: seq<Builder>, k: nat) {
    && |cs| == |bs| && k < |bs| && Id(cs[k]) == Id(bs[k])
    && forall i :: 0 <= i < |bs| && i != k ==> cs[i] == bs[i]
  }

  /** Leaving out all entries of one builder leaves out its extensions and changes nothing else. */
  lemma {:induction false} FeedWithout(es: seq<Entry>, bs: seq<Builder>, cs: seq<Builder>, k: nat, crypto: Crypto)
    requires FirstFor(bs, k) && SameBut(bs, cs, k) && Feed(es, bs, Server, crypto).exts.Ok?
    ensures Feed(Without(es, Id(bs[k])), cs, Server, crypto).exts ==
            Ok(WithoutExt(Feed(es, bs, Server, crypto).exts.value, Id(bs[k])))
    decreases |es|
  {
    var id := Id(bs[k]);
    if es != [] {
      var i := Find(bs, es[0].id);
      FirstForFind(bs, k);
      FindAgrees(bs, cs, es[0].id);
      var bs' := if i == |bs| then bs else bs[i := BuildFrom(bs[i], es[0].payload, Server, crypto).0];
      var cs' := if i == |bs| || i == k then cs else cs[i := BuildFrom(bs[i], es[0].payload, Server, crypto).0];
      assert FirstFor(bs', k) && SameBut(bs', cs', k) && Id(bs'[k]) == id;
      FeedWithout(es[1..], bs', cs', k, crypto);
      OneLess(es, bs, cs, k, i, crypto);
    }
  }

  /** The first entry's part in `FeedWithout`. */
  lemma OneLess(es: seq<Entry>, bs: seq<Builder>, cs: seq<Builder>, k: nat, i: nat, crypto: Crypto)
    requires es != [] && FirstFor(bs, k) && SameBut(bs, cs, k) && Feed(es, bs, Server, crypto).exts.Ok?
    requires i == Find(bs, es[0].id) == Find(cs, es[0].id) && (es[0].id == Id(bs[k]) <==> i == k)
    requires var id := Id(bs[k]);
      var bs' := if i == |bs| then bs else bs[i := BuildFrom(bs[i], es[0].payload, Server, crypto).0];
      var cs' := if i == |bs| || i == k then cs else cs[i := BuildFrom(bs[i], es[0].payload, Server, crypto).0];
      && Feed(es[1..], bs', Server, crypto).exts.Ok?
      && Feed(Without(es[1..], id), cs', Server, crypto).exts ==
         Ok(WithoutExt(Feed(es[1..], bs', Server, crypto).exts.value, id))
    ensures Feed(Without(es, Id(bs[k])), cs, Server, crypto).exts ==
            Ok(WithoutExt(Feed(es, bs, Server, crypto).exts.value, Id(bs[k])))
  {
    var id, rest := Id(bs[k]), Without(es[1..], Id(bs[k]));
    if i == k {
      assert [] + rest == rest;
    } else {
      assert ([es[0]] + rest)[0] == es[0] && ([es[0]] + rest)[1..] == rest;
    }
    if i < |bs| {
      var e := BuildFrom(bs[i], es[0].payload, Server, crypto).1.value;
      var tail := Feed(es[1..], bs[i := BuildFrom(bs[i], es[0].payload, Server, crypto).0], Server, crypto).exts.value;
      assert ([e] + tail)[0] == e && ([e] + tail)[1..] == tail;
      assert [] + WithoutExt(tail, id) == WithoutExt(tail, id);
    }
  }

  /** A client that got in with a version 2 handshake could have left any extension out. */
  lemma CouldLeaveOut(sb: seq<Builder>, id: u8, bufferSize: u32, toServer: seq<Bytes>, draw: Draw, crypto: Crypto)
    requires id in IdSet(sb)
    requires var o := ServerSide(Some(sb), bufferSize, toServer, draw, crypto).outcome; o.Done? && o.v2
    ensures var es := Without(SplitEntries(toServer[0][7..]).0, id);
      LetsIn(sb, bufferSize, [InfoBytes(es)], draw, crypto,
             WithoutExt(ServerSide(Some(sb), bufferSize, toServer, draw, crypto).outcome.exts, id))
  {
    var bs := Offer(sb, Server, draw, crypto).0;
    OfferIds(sb, Server, draw, crypto);
    var b := toServer[0][7..];
    var es := SplitEntries(b).0;
    DecodedSupported(b, bs, Server, crypto);
    DecodeIsFeed(b, bs, Server, crypto);
    SplitCarried(b);
    WithoutCarried(es, id);
    var k := Find(bs, id);
    FeedWithout(es, bs, bs, k, crypto);
    ReadsInfo(Without(es, id), bs, Server, crypto);
    InfoSupported(Without(es, id), bs, crypto);
  }

  lemma InfoSupported(es: seq<Entry>, bs: seq<Builder>, crypto: Crypto)
    requires Carried(es) && Feed(es, bs, Server, crypto).exts.Ok?
    ensures Supported(Feed(es, bs, Server, crypto).exts.value, Feed(es, bs, Server, crypto).builders) ==
            Feed(es, bs, Server, crypto).exts.value
  {
    var b := EncodeEntries(es);
    assert b + [] == b;
    EntriesRoundTrip(es, []);
    DecodeIsFeed(b, bs, Server, crypto);
    DecodedSupported(b, bs, Server, crypto);
  }

  // ---------- What is enforced ----------

  lemma MissingWithout(exts: seq<Ext>, id: u8, ids: seq<u8>)
    requires Missing(exts, ids) == [] && id !in ids
    ensures Missing(WithoutExt(exts, id), ids) == []
  {
    MissingExactly(exts, ids);
    MissingExactly(WithoutExt(exts, id), ids);
    forall i | 0 <= i < |ids| ensures Contains(WithoutExt(exts, id), ids[i]) { WithoutExtContains(exts, id, ids[i]); }
  }

  /** If some client gets in, one without the extension does, unless the check asks for it. */
  lemma WayAround(sb: seq<Builder>, id: u8, ids: seq<u8>, bufferSize: u32, toServer: seq<Bytes>, draw: Draw,
                  crypto: Crypto)
      returns (toServer': seq<Bytes>, exts: seq<Ext>)
    requires var o := ServerSide(Some(sb), bufferSize, toServer, draw, crypto).outcome;
      o.Done? && Missing(o.exts, ids) == []
    requires id !in ids
    ensures LetsIn(sb, bufferSize, toServer', draw, crypto, exts) && Missing(exts, ids) == [] && !Contains(exts, id)
  {
    var o := ServerSide(Some(sb), bufferSize, toServer, draw, crypto).outcome;
    toServer', exts := toServer, o.exts;
    if Contains(o.exts, id) {
      if o.v2 {
        ServerIdsKnown(sb, id, bufferSize, toServer, draw, crypto);
        CouldLeaveOut(sb, id, bufferSize, toServer, draw, crypto);
        MissingWithout(o.exts, id, ids);
        WithoutExtContains(o.exts, id, id);
        toServer' := [InfoBytes(Without(SplitEntries(toServer[0][7..]).0, id))];
        exts := WithoutExt(o.exts, id);
      } else {
        assert o.exts == [UdpExt] && id == UDP_ID;
        OnlyUdp(ids);
        EmptyInfoPasses(sb, bufferSize, draw, crypto);
        toServer', exts := [InfoBytes([])], [];
      }
    }
  }

  lemma OnlyUdp(ids: seq<u8>)
    requires Missing([UdpExt], ids) == [] && UDP_ID !in ids
    ensures ids == []
  {
    MissingExactly([UdpExt], ids);
    assert forall i :: 0 <= i < |ids| ==> ids[i] in ids;
  }

  /** A finished version 2 server reports only ids it has builders for. */
  lemma ServerIdsKnown(sb: seq<Builder>, id: u8, bufferSize: u32, toServer: seq<Bytes>, draw: Draw, crypto: Crypto)
    requires var o := ServerSide(Some(sb), bufferSize, toServer, draw, crypto).outcome;
      o.Done? && o.v2 && Contains(o.exts, id)
    ensures id in IdSet(sb)
  {
    var bs := Offer(sb, Server, draw, crypto).0;
    OfferIds(sb, Server, draw, crypto);
    var b := toServer[0][7..];
    DecodedSupported(b, bs, Server, crypto);
    DecodeIsFeed(b, bs, Server, crypto);
    var es := SplitEntries(b).0;
    FeedIds(es, bs, Server, crypto);
    KnownIdsSet(es, IdSet(bs));
    ContainsIds(DecodeExts(b, bs, Server, crypto).exts.value, id);
  }

  /** For any builders and any list of required ids: an extension is enforced exactly if its id is required, or if no
      client gets past the check at all. */
  lemma EnforcedExactly(sb: seq<Builder>, id: u8, ids: seq<u8>, draw: Draw, crypto: Crypto)
    ensures Enforced(sb, id, ids, draw, crypto) <==> id in ids || !Passable(sb, ids, draw, crypto)
  {
    if id in ids {
      forall bufferSize: u32, toServer, exts |
        LetsIn(sb, bufferSize, toServer, draw, crypto, exts) && Missing(exts, ids) == []
        ensures Contains(exts, id)
      {
        MissingExactly(exts, ids);
      }
    } else if Passable(sb, ids, draw, crypto) {
      var bufferSize: u32, toServer, exts :|
        LetsIn(sb, bufferSize, toServer, draw, crypto, exts) && Missing(exts, ids) == [];
      var toServer', exts' := WayAround(sb, id, ids, bufferSize, toServer, draw, crypto);
    }
  }

  // ---------- What can be satisfied ----------

  /** The builder accepts some payload that fits an INFO packet. */
  ghost predicate Satisfiable(b: Builder, crypto: Crypto) {
    exists payload: Bytes :: |payload| <= U32_MAX && BuildFrom(b, payload, Server, crypto).1.Ok?
  }

  /** In the server's own terms: a user with a short name, or a signature that a listed key verifies. */
  ghost predicate SomebodyKnown(b: Builder, crypto: Crypto) {
    match b
    case PasswordServerBefore(users, _) =>
      exists user :: user in users && |user| <= 255 && 1 + |user| + |users[user]| <= U32_MAX
    case CertServerAfter(verifiers, challenge, _) =>
      exists certType: u8, hash: Bytes, sig: Bytes ::
        && KnownCertBits(certType) && |hash| == 32 && |sig| == 64
        && SomeKeyVerifies(verifiers, certType, hash, challenge, sig, crypto)
    case _ => b.UdpBuilder? || b.MotdServer?
  }

  lemma SatisfiableExactly(b: Builder, crypto: Crypto)
    requires b.UdpBuilder? || b.MotdServer? || b.PasswordServerBefore? || b.CertServerAfter?
    ensures Satisfiable(b, crypto) <==> SomebodyKnown(b, crypto)
  {
    if b.PasswordServerBefore? {
      PasswordSatisfiable(b.users, b.required, crypto);
    } else if b.CertServerAfter? {
      CertSatisfiable(b.verifiers, b.challenge, b.required, crypto);
    } else {
      var empty: Bytes := [];
      assert |empty| <= U32_MAX && BuildFrom(b, empty, Server, crypto).1.Ok?;
    }
  }

  lemma PasswordSatisfiable(users: map<Utf8, Utf8>, required: bool, crypto: Crypto)
    ensures Satisfiable(PasswordServerBefore(users, required), crypto) <==>
            SomebodyKnown(PasswordServerBefore(users, required), crypto)
  {
    var b := PasswordServerBefore(users, required);
    if payload: Bytes :| |payload| <= U32_MAX && BuildFrom(b, payload, Server, crypto).1.Ok? {
      AcceptedIsKnown(users, required, payload, crypto);
    }
    if user :| user in users && |user| <= 255 && 1 + |user| + |users[user]| <= U32_MAX {
      KnownIsAccepted(users, required, user, crypto);
    }
  }

  lemma AcceptedIsKnown(users: map<Utf8, Utf8>, required: bool, payload: Bytes, crypto: Crypto)
    requires |payload| <= U32_MAX
    requires BuildFrom(PasswordServerBefore(users, required), payload, Server, crypto).1.Ok?
    ensures SomebodyKnown(PasswordServerBefore(users, required), crypto)
  {
    var b := PasswordServerBefore(users, required);
    PasswordPayload(b, payload);
    var e := BuildPassword(b, payload).1.value;
    assert e.user in users && |e.user| <= 255 && |payload| == 1 + |e.user| + |users[e.user]|;
  }

  lemma KnownIsAccepted(users: map<Utf8, Utf8>, required: bool, user: Utf8, crypto: Crypto)
    requires user in users && |user| <= 255 && 1 + |user| + |users[user]| <= U32_MAX
    ensures Satisfiable(PasswordServerBefore(users, required), crypto)
  {
    HonestPassword(users, required, user, users[user], crypto);
    var payload := EncodeExt(PasswordCreds(user, users[user])).value;
    assert |payload| <= U32_MAX && BuildFrom(PasswordServerBefore(users, required), payload, Server, crypto).1.Ok?;
  }

  lemma CertSatisfiable(verifiers: seq<VerifyKey>, challenge: Bytes, required: bool, crypto: Crypto)
    ensures Satisfiable(CertServerAfter(verifiers, challenge, required), crypto) <==>
            SomebodyKnown(CertServerAfter(verifiers, challenge, required), crypto)
  {
    var b := CertServerAfter(verifiers, challenge, required);
    if p: Bytes :| |p| <= U32_MAX && BuildFrom(b, p, Server, crypto).1.Ok? {
      assert SomeKeyVerifies(verifiers, p[0], p[1..33], challenge, p[33..], crypto);
    }
    if certType: u8, hash: Bytes, sig: Bytes :|
      KnownCertBits(certType) && |hash| == 32 && |sig| == 64 &&
      SomeKeyVerifies(verifiers, certType, hash, challenge, sig, crypto)
    {
      var p := [certType] + hash + sig;
      assert p[1..33] == hash && p[33..] == sig;
      assert |p| <= U32_MAX && BuildFrom(b, p, Server, crypto).1.Ok?;
    }
  }

  /** The first entry for a builder is accepted in its initial state. */
  lemma {:induction false} FirstAccepted(es: seq<Entry>, bs: seq<Builder>, k: nat, crypto: Crypto)
    requires FirstFor(bs, k) && Mentions(es, Id(bs[k])) && Feed(es, bs, Server, crypto).exts.Ok? && Carried(es)
    ensures Satisfiable(bs[k], crypto)
    decreases |es|
  {
    FirstForFind(bs, k);
    MentionsRest(es, Id(bs[k]));
    assert es[0].id == Id(bs[k]) ==> |es[0].payload| <= U32_MAX;
    if es[0].id != Id(bs[k]) {
      var i := Find(bs, es[0].id);
      var bs' := if i == |bs| then bs else bs[i := BuildFrom(bs[i], es[0].payload, Server, crypto).0];
      assert forall j :: 0 <= j < |es[1..]| ==> es[1..][j] == es[j + 1];
      FirstAccepted(es[1..], bs', k, crypto);
    }
  }

  /** Each required id can be satisfied by itself; `bs` are the server's builders once its INFO is sent. */
  ghost predicate EachSatisfiable(bs: seq<Builder>, ids: seq<u8>, crypto: Crypto) {
    forall i :: 0 <= i < |ids| ==> Find(bs, ids[i]) < |bs| && Satisfiable(bs[Find(bs, ids[i])], crypto)
  }

  /** Entries with distinct ids, each of which is accepted. */
  predicate AcceptedAnswers(bs: seq<Builder>, es: seq<Entry>, crypto: Crypto) {
    UniqueEntries(es) && Carried(es) && forall j :: 0 <= j < |es| ==> Accepts(bs, es[j], Server, crypto)
  }

  predicate MentionsEach(es: seq<Entry>, ids: seq<u8>) {
    forall i :: 0 <= i < |ids| ==> Mentions(es, ids[i])
  }

  lemma EachPrefix(bs: seq<Builder>, ids: seq<u8>, n: nat, crypto: Crypto)
    requires EachSatisfiable(bs, ids, crypto) && n <= |ids|
    ensures EachSatisfiable(bs, ids[..n], crypto)
  {
    assert forall i :: 0 <= i < n ==> ids[..n][i] == ids[i];
  }

  /** One entry for each required id, with a payload that is accepted. */
  lemma {:induction false} Answers(bs: seq<Builder>, ids: seq<u8>, crypto: Crypto) returns (es: seq<Entry>)
    requires EachSatisfiable(bs, ids, crypto)
    ensures AcceptedAnswers(bs, es, crypto) && MentionsEach(es, ids)
    decreases |ids|
  {
    if ids == [] {
      es := [];
    } else {
      var n := |ids| - 1;
      EachPrefix(bs, ids, n, crypto);
      var before := Answers(bs, ids[..n], crypto);
      es := OneMore(bs, before, ids[n], crypto);
      MentionsSnoc(before, es, ids);
    }
  }

  lemma MentionsSnoc(before: seq<Entry>, es: seq<Entry>, ids: seq<u8>)
    requires ids != [] && MentionsEach(before, ids[..|ids| - 1]) && Mentions(es, ids[|ids| - 1])
    requires forall x :: Mentions(before, x) ==> Mentions(es, x)
    ensures MentionsEach(es, ids)
  {
    forall i | 0 <= i < |ids| ensures Mentions(es, ids[i]) {
      if i < |ids| - 1 { assert ids[..|ids| - 1][i] == ids[i]; }
    }
  }

  lemma OneMore(bs: seq<Builder>, before: seq<Entry>, id: u8, crypto: Crypto) returns (es: seq<Entry>)
    requires AcceptedAnswers(bs, before, crypto) && Find(bs, id) < |bs| && Satisfiable(bs[Find(bs, id)], crypto)
    ensures AcceptedAnswers(bs, es, crypto) && Mentions(es, id)
    ensures forall x :: Mentions(before, x) ==> Mentions(es, x)
  {
    es := before;
    if !Mentions(before, id) {
      var payload: Bytes :| |payload| <= U32_MAX && BuildFrom(bs[Find(bs, id)], payload, Server, crypto).1.Ok?;
      var e := Entry(id, payload);
      es := before + [e];
      assert Accepts(bs, e, Server, crypto);
      MentionsMore(before, e);
    }
  }

  lemma MentionsMore(es: seq<Entry>, e: Entry)
    ensures forall id :: Mentions(es, id) ==> Mentions(es + [e], id)
    ensures Mentions(es + [e], e.id)
  {
    forall id | Mentions(es, id) ensures Mentions(es + [e], id) {
      var j :| 0 <= j < |es| && es[j].id == id;
      assert (es + [e])[j].id == id;
    }
    assert (es + [e])[|es|] == e;
  }

  lemma KnownFind(bs: seq<Builder>, id: u8)
    ensures id in IdSet(bs) <==> Find(bs, id) < |bs|
  {
    if i :| 0 <= i < |bs| && Id(bs[i]) == id { assert Find(bs, id) <= i; }
  }

  /** A client with an accepted answer for each required id gets in. */
  lemma AnswersPass(sb: seq<Builder>, ids: seq<u8>, draw: Draw, crypto: Crypto)
    requires Offer(sb, Server, draw, crypto).1.Ok? && EachSatisfiable(Offer(sb, Server, draw, crypto).0, ids, crypto)
    ensures Passable(sb, ids, draw, crypto)
  {
    var bs := Offer(sb, Server, draw, crypto).0;
    var es := Answers(bs, ids, crypto);
    AllAcceptedIf(es, bs, Server, crypto);
    FeedExactly(es, bs, Server, crypto);
    ReadsInfo(es, bs, Server, crypto);
    InfoSupported(es, bs, crypto);
    var exts := Feed(es, bs, Server, crypto).exts.value;
    forall i | 0 <= i < |ids| ensures Contains(exts, ids[i]) {
      KnownFind(bs, ids[i]);
      FedContains(es, bs, ids[i], crypto);
    }
    MissingExactly(exts, ids);
    assert LetsIn(sb, 0, [InfoBytes(es)], draw, crypto, exts);
  }

  lemma FedContains(es: seq<Entry>, bs: seq<Builder>, id: u8, crypto: Crypto)
    requires Carried(es) && Feed(es, bs, Server, crypto).exts.Ok? && id in IdSet(bs) && Mentions(es, id)
    ensures Contains(Feed(es, bs, Server, crypto).exts.value, id)
  {
    FeedIds(es, bs, Server, crypto);
    KnownIdsSet(es, IdSet(bs));
    ContainsIds(Feed(es, bs, Server, crypto).exts.value, id);
  }

  /** A client that got in has satisfied what was required of it. */
  lemma PassedSatisfies(sb: seq<Builder>, ids: seq<u8>, bufferSize: u32, toServer: seq<Bytes>, draw: Draw,
                        crypto: Crypto)
    requires var o := ServerSide(Some(sb), bufferSize, toServer, draw, crypto).outcome;
      o.Done? && o.v2 && Missing(o.exts, ids) == []
    ensures EachSatisfiable(Offer(sb, Server, draw, crypto).0, ids, crypto)
  {
    var o := ServerSide(Some(sb), bufferSize, toServer, draw, crypto).outcome;
    var bs := Offer(sb, Server, draw, crypto).0;
    var b := toServer[0][7..];
    var es := SplitEntries(b).0;
    OfferIds(sb, Server, draw, crypto);
    DecodedSupported(b, bs, Server, crypto);
    DecodeIsFeed(b, bs, Server, crypto);
    SplitCarried(b);
    MissingExactly(o.exts, ids);
    forall i | 0 <= i < |ids| ensures Find(bs, ids[i]) < |bs| && Satisfiable(bs[Find(bs, ids[i])], crypto) {
      ServerIdsKnown(sb, ids[i], bufferSize, toServer, draw, crypto);
      KnownFind(bs, ids[i]);
      DecodedMentions(b, bs, Server, crypto, ids[i]);
      FirstAccepted(es, bs, Find(bs, ids[i]), crypto);
    }
  }

  /** Some client gets past the check exactly if nothing but UDP is required, which a version 1 client brings along, or
      if each required id can be satisfied by itself. */
  lemma PassableExactly(sb: seq<Builder>, ids: seq<u8>, draw: Draw, crypto: Crypto)
    requires Offer(sb, Server, draw, crypto).1.Ok?
    ensures Passable(sb, ids, draw, crypto) <==>
      || (forall i :: 0 <= i < |ids| ==> ids[i] == UDP_ID)
      || EachSatisfiable(Offer(sb, Server, draw, crypto).0, ids, crypto)
  {
    if Passable(sb, ids, draw, crypto) {
      var bufferSize: u32, toServer, exts :|
        LetsIn(sb, bufferSize, toServer, draw, crypto, exts) && Missing(exts, ids) == [];
      var o := ServerSide(Some(sb), bufferSize, toServer, draw, crypto).outcome;
      if o.v2 {
        PassedSatisfies(sb, ids, bufferSize, toServer, draw, crypto);
      } else {
        assert exts == [UdpExt];
        MissingExactly(exts, ids);
      }
    }
    if forall i :: 0 <= i < |ids| ==> ids[i] == UDP_ID {
      var p := Packet(1, Data([]));
      PlainPacketPasses(sb, 0, p, draw, crypto);
      assert UdpExt in [UdpExt] && ExtId(UdpExt) == UDP_ID;
      MissingExactly([UdpExt], ids);
      assert LetsIn(sb, 0, [Encode(p)], draw, crypto, [UdpExt]);
    }
    if EachSatisfiable(Offer(sb, Server, draw, crypto).0, ids, crypto) { AnswersPass(sb, ids, draw, crypto); }
  }
}
