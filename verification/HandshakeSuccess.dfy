/** Exactly when a version 2 handshake without middleware succeeds. */
module HandshakeSuccess {
  import opened Common
  import opened Packets
  import opened Extensions
  import opened Handshake

  predicate UniqueIds(bs: seq<Builder>) {
    forall i, j :: 0 <= i < j < |bs| ==> Id(bs[i]) != Id(bs[j])
  }

  predicate UniqueEntries(es: seq<Entry>) {
    forall i, j :: 0 <= i < j < |es| ==> es[i].id != es[j].id
  }

  // ---------- Feeding entries with distinct ids ----------

  /** The builder for an entry accepts it. */
  predicate Accepts(bs: seq<Builder>, e: Entry, role: Role, crypto: Crypto) {
    var i := Find(bs, e.id);
    i < |bs| ==> BuildFrom(bs[i], e.payload, role, crypto).1.Ok?
  }

  lemma {:induction false} FindAfterUpdate(bs: seq<Builder>, i: nat, b: Builder, id: u8)
    requires i < |bs| && Id(b) == Id(bs[i])
    ensures Find(bs[i := b], id) == Find(bs, id)
    decreases |bs|
  {
    var bs' := bs[i := b];
    if i == 0 {
      assert bs'[1..] == bs[1..];
    } else {
      assert bs'[1..] == bs[1..][i - 1 := b];
      FindAfterUpdate(bs[1..], i - 1, b, id);
    }
  }

  predicate AllAccepted(es: seq<Entry>, bs: seq<Builder>, role: Role, crypto: Crypto) {
    es == [] || (Accepts(bs, es[0], role, crypto) && AllAccepted(es[1..], bs, role, crypto))
  }

  /** The state of a builder that is given the first entry with its id. */
  function FedState(es: seq<Entry>, b: Builder, role: Role, crypto: Crypto): Builder {
    if es == [] then b
    else if es[0].id == Id(b) then BuildFrom(b, es[0].payload, role, crypto).0
    else FedState(es[1..], b, role, crypto)
  }

  predicate Mentions(es: seq<Entry>, id: u8) {
    exists j :: 0 <= j < |es| && es[j].id == id
  }

  lemma MentionsRest(es: seq<Entry>, id: u8)
    requires es != []
    ensures Mentions(es, id) <==> es[0].id == id || Mentions(es[1..], id)
  {
    if j :| 0 <= j < |es| && es[j].id == id { assert j > 0 ==> es[1..][j - 1].id == id; }
    if j :| 0 <= j < |es[1..]| && es[1..][j].id == id { assert es[j + 1].id == id; }
  }

  /** Builders whose ids are not mentioned do not matter. */
  lemma {:induction false} AcceptedFrame(es: seq<Entry>, bs: seq<Builder>, i: nat, b: Builder, role: Role,
                                         crypto: Crypto)
    requires i < |bs| && Id(b) == Id(bs[i]) && !Mentions(es, Id(b))
    ensures AllAccepted(es, bs[i := b], role, crypto) <==> AllAccepted(es, bs, role, crypto)
    decreases |es|
  {
    if es != [] {
      MentionsRest(es, Id(b));
      FindAfterUpdate(bs, i, b, es[0].id);
      AcceptedFrame(es[1..], bs, i, b, role, crypto);
    }
  }

  lemma FirstNotMentionedAgain(es: seq<Entry>)
    requires es != [] && UniqueEntries(es)
    ensures !Mentions(es[1..], es[0].id) && UniqueEntries(es[1..])
  {
    assert forall j :: 0 <= j < |es[1..]| ==> es[1..][j] == es[j + 1];
  }

  /** With distinct ids every builder sees at most one entry, in its initial state, and decoding succeeds
      exactly when each of them accepts its entry.  */
  lemma {:induction false} FeedExactly(es: seq<Entry>, bs: seq<Builder>, role: Role, crypto: Crypto)
    requires UniqueEntries(es)
    ensures Feed(es, bs, role, crypto).exts.Ok? <==> AllAccepted(es, bs, role, crypto)
    decreases |es|
  {
    if es != [] {
      FirstNotMentionedAgain(es);
      var i := Find(bs, es[0].id);
      if i == |bs| {
        FeedExactly(es[1..], bs, role, crypto);
      } else {
        var b := BuildFrom(bs[i], es[0].payload, role, crypto).0;
        FeedExactly(es[1..], bs[i := b], role, crypto);
        AcceptedFrame(es[1..], bs, i, b, role, crypto);
      }
    }
  }

  lemma {:induction false} FedUnmentioned(es: seq<Entry>, b: Builder, role: Role, crypto: Crypto)
    requires !Mentions(es, Id(b))
    ensures FedState(es, b, role, crypto) == b
    decreases |es|
  {
    if es != [] {
      MentionsRest(es, Id(b));
      FedUnmentioned(es[1..], b, role, crypto);
    }
  }

  lemma {:induction false} FeedBuilder(es: seq<Entry>, bs: seq<Builder>, k: nat, role: Role, crypto: Crypto)
    requires UniqueEntries(es) && FirstFor(bs, k) && Feed(es, bs, role, crypto).exts.Ok?
    ensures |Feed(es, bs, role, crypto).builders| == |bs|
    ensures Feed(es, bs, role, crypto).builders[k] == FedState(es, bs[k], role, crypto)
    decreases |es|
  {
    if es != [] {
      FirstNotMentionedAgain(es);
      FirstForFind(bs, k);
      var i := Find(bs, es[0].id);
      if i == |bs| {
        FeedBuilder(es[1..], bs, k, role, crypto);
      } else {
        var b := BuildFrom(bs[i], es[0].payload, role, crypto).0;
        FeedBuilder(es[1..], bs[i := b], k, role, crypto);
        if i == k { FedUnmentioned(es[1..], b, role, crypto); }
      }
    }
  }

  // ---------- Offering extensions ----------

  /** The builder has something to send. */
  predicate Offers(b: Builder, role: Role, random: Bytes, crypto: Crypto) {
    var r := BuildTo(b, role, random, crypto).1;
    r.Ok? && EncodeExt(r.value).Ok?
  }

  function Offered(b: Builder, role: Role, random: Bytes, crypto: Crypto): Entry
    requires Offers(b, role, random, crypto)
  {
    Entry(Id(b), EncodeExt(BuildTo(b, role, random, crypto).1.value).value)
  }

  lemma {:induction false} BuildAllExactly(bs: seq<Builder>, k: nat, role: Role, draw: Draw, crypto: Crypto)
    requires k <= |bs|
    ensures BuildAll(bs, k, role, draw, crypto).exts.Ok? <==>
      forall i :: k <= i < |bs| ==> BuildTo(bs[i], role, draw(i), crypto).1.Ok?
    decreases |bs| - k
  {
    if k < |bs| {
      var bs' := bs[k := BuildTo(bs[k], role, draw(k), crypto).0];
      BuildAllExactly(bs', k + 1, role, draw, crypto);
      assert forall i :: k < i < |bs| ==> bs'[i] == bs[i];
    }
  }

  lemma {:induction false} ToEntriesExactly(exts: seq<Ext>)
    ensures ToEntries(exts).Ok? <==> forall i :: 0 <= i < |exts| ==> EncodeExt(exts[i]).Ok?
    decreases |exts|
  {
    if exts != [] {
      ToEntriesExactly(exts[1..]);
      assert forall i :: 1 <= i < |exts| ==> exts[i] == exts[1..][i - 1];
      assert forall i :: 0 <= i < |exts[1..]| ==> exts[1..][i] == exts[i + 1];
    }
  }

  /** A side can send INFO exactly when each builder has something to send. */
  lemma OfferExactly(bs: seq<Builder>, role: Role, draw: Draw, crypto: Crypto)
    ensures Offer(bs, role, draw, crypto).1.Ok? <==> forall i :: 0 <= i < |bs| ==> Offers(bs[i], role, draw(i), crypto)
    ensures var (bs', es) := Offer(bs, role, draw, crypto);
      es.Ok? ==> |es.value| == |bs| == |bs'|
  {
    var built := BuildAll(bs, 0, role, draw, crypto);
    BuildAllExactly(bs, 0, role, draw, crypto);
    if built.exts.Ok? {
      ToEntriesExactly(built.exts.value);
      BuiltAreOffered(bs, role, draw, crypto);
    }
  }

  /** What the position `i` of an offer looks like. */
  predicate OfferedAt(bs: seq<Builder>, i: nat, role: Role, draw: Draw, crypto: Crypto) {
    var (bs', es) := Offer(bs, role, draw, crypto);
    && es.Ok? && i < |bs| == |bs'| == |es.value|
    && Offers(bs[i], role, draw(i), crypto) && es.value[i] == Offered(bs[i], role, draw(i), crypto)
    && bs'[i] == BuildTo(bs[i], role, draw(i), crypto).0
  }

  lemma OneOffered(bs: seq<Builder>, i: nat, role: Role, draw: Draw, crypto: Crypto)
    requires Offer(bs, role, draw, crypto).1.Ok? && i < |bs|
    ensures OfferedAt(bs, i, role, draw, crypto)
  {
    BuildAllPointwise(bs, 0, role, draw, crypto);
    var exts := BuildAll(bs, 0, role, draw, crypto).exts.value;
    assert Ok(exts[i - 0]) == BuildTo(bs[i], role, draw(i), crypto).1;
    ToEntriesAt(exts, i);
  }

  lemma BuiltAreOffered(bs: seq<Builder>, role: Role, draw: Draw, crypto: Crypto)
    requires BuildAll(bs, 0, role, draw, crypto).exts.Ok?
    ensures var exts := BuildAll(bs, 0, role, draw, crypto).exts.value;
      && |exts| == |bs| == |BuildAll(bs, 0, role, draw, crypto).builders|
      && forall i :: 0 <= i < |bs| ==> EncodeExt(exts[i]).Ok? == Offers(bs[i], role, draw(i), crypto)
  {
    BuildAllPointwise(bs, 0, role, draw, crypto);
    var exts := BuildAll(bs, 0, role, draw, crypto).exts.value;
    forall i | 0 <= i < |bs| ensures EncodeExt(exts[i]).Ok? == Offers(bs[i], role, draw(i), crypto) {
      assert Ok(exts[i - 0]) == BuildTo(bs[i], role, draw(i), crypto).1;
    }
  }

  lemma OfferedUnique(bs: seq<Builder>, role: Role, draw: Draw, crypto: Crypto)
    requires UniqueIds(bs) && Offer(bs, role, draw, crypto).1.Ok?
    ensures UniqueEntries(Offer(bs, role, draw, crypto).1.value)
  {
    OfferExactly(bs, role, draw, crypto);
    var es := Offer(bs, role, draw, crypto).1.value;
    forall i, j | 0 <= i < j < |es| ensures es[i].id != es[j].id {
      OneOffered(bs, i, role, draw, crypto);
      OneOffered(bs, j, role, draw, crypto);
    }
  }

  // ---------- The whole conversation ----------

  predicate ServerKind(b: Builder) {
    b.UdpBuilder? || b.MotdServer? || b.PasswordServerBefore? || b.CertServerBefore?
  }

  predicate ClientKind(b: Builder) {
    b.UdpBuilder? || b.MotdClient? || b.PasswordClientBefore? || b.CertClientBefore?
  }

  predicate IsServerList(bs: seq<Builder>) {
    UniqueIds(bs) && forall i :: 0 <= i < |bs| ==> ServerKind(bs[i])
  }

  predicate IsClientList(bs: seq<Builder>) {
    UniqueIds(bs) && forall i :: 0 <= i < |bs| ==> ClientKind(bs[i])
  }

  /** Challenges and signatures have 64 bytes, key hashes 32, and texts fit a 32-bit length. */
  ghost predicate Sized(sb: seq<Builder>, cb: seq<Builder>, draw: Draw, crypto: Crypto) {
    && (forall i :: |draw(i)| == 64)
    && (forall k, c :: crypto.sign(k, c).Some? ==> |crypto.sign(k, c).value| == 64)
    && (forall i :: 0 <= i < |sb| && sb[i].MotdServer? ==> |sb[i].motd| <= U32_MAX)
    && (forall i :: 0 <= i < |cb| && cb[i].CertClientBefore? && cb[i].signer.Some? ==> |cb[i].signer.value.hash| == 32)
    && (forall i :: 0 <= i < |cb| && cb[i].PasswordClientBefore? && cb[i].creds.Some? ==>
         1 + |cb[i].creds.value.0| + |cb[i].creds.value.1| <= U32_MAX)
  }

  /** What the server needs from one of the client's builders, and what the client needs from the server. */
  ghost predicate Acceptable(c: Builder, sb: seq<Builder>, draw: Draw, crypto: Crypto) {
    match c
    case PasswordClientBefore(creds) =>
      exists k :: 0 <= k < |sb| && sb[k].PasswordServerBefore? && creds.Some? && |creds.value.0| <= 255 &&
        creds.value.0 in sb[k].users && sb[k].users[creds.value.0] == creds.value.1
    case CertClientBefore(signer) =>
      exists k :: 0 <= k < |sb| && sb[k].CertServerBefore? && SignerAccepted(signer, sb[k].verifiers, draw(k), crypto)
    case _ => true
  }

  /** A server list always has an INFO packet to send. */
  lemma ServerOffers(sb: seq<Builder>, cb: seq<Builder>, draw: Draw, crypto: Crypto)
    requires IsServerList(sb) && Sized(sb, cb, draw, crypto)
    ensures Offer(sb, Server, draw, crypto).1.Ok?
    ensures UniqueEntries(Offer(sb, Server, draw, crypto).1.value) && Carried(Offer(sb, Server, draw, crypto).1.value)
  {
    forall i | 0 <= i < |sb| ensures Offers(sb[i], Server, draw(i), crypto) {}
    OfferExactly(sb, Server, draw, crypto);
    OfferedUnique(sb, Server, draw, crypto);
    var es := Offer(sb, Server, draw, crypto).1.value;
    forall i | 0 <= i < |es| ensures |es[i].payload| <= U32_MAX {
      OneOffered(sb, i, Server, draw, crypto);
    }
  }

  lemma {:induction false} AllAcceptedIf(es: seq<Entry>, bs: seq<Builder>, role: Role, crypto: Crypto)
    ensures AllAccepted(es, bs, role, crypto) <==> forall j :: 0 <= j < |es| ==> Accepts(bs, es[j], role, crypto)
    decreases |es|
  {
    if es != [] {
      AllAcceptedIf(es[1..], bs, role, crypto);
      assert forall j :: 0 <= j < |es[1..]| ==> es[1..][j] == es[j + 1];
      assert forall j :: 1 <= j < |es| ==> es[j] == es[1..][j - 1];
    }
  }

  /** A client list accepts whatever a server list offers. */
  lemma ClientAccepts(sb: seq<Builder>, cb: seq<Builder>, draw: Draw, crypto: Crypto)
    requires IsServerList(sb) && IsClientList(cb) && Sized(sb, cb, draw, crypto)
    ensures Offer(sb, Server, draw, crypto).1.Ok?
    ensures AllAccepted(Offer(sb, Server, draw, crypto).1.value, cb, Client, crypto)
  {
    ServerOffers(sb, cb, draw, crypto);
    OfferExactly(sb, Server, draw, crypto);
    var es := Offer(sb, Server, draw, crypto).1.value;
    forall j | 0 <= j < |es| ensures Accepts(cb, es[j], Client, crypto) {
      OneOffered(sb, j, Server, draw, crypto);
    }
    AllAcceptedIf(es, cb, Client, crypto);
  }

  /** The state of a client builder once the server's INFO is in. */
  lemma {:induction false} FedFrom(es: seq<Entry>, b: Builder, j: nat, role: Role, crypto: Crypto)
    requires UniqueEntries(es) && j < |es| && es[j].id == Id(b)
    ensures FedState(es, b, role, crypto) == BuildFrom(b, es[j].payload, role, crypto).0
    decreases |es|
  {
    if j > 0 {
      FirstNotMentionedAgain(es);
      assert es[0].id != es[j].id;
      assert es[1..][j - 1] == es[j];
      FedFrom(es[1..], b, j - 1, role, crypto);
    }
  }

  /** What a client builder becomes when it reads the offer of its counterpart. */
  lemma ReadsOffer(s: Builder, c: Builder, random: Bytes, crypto: Crypto)
    requires ServerKind(s) && ClientKind(c) && Id(s) == Id(c) && |random| == 64 && Offers(s, Server, random, crypto)
    ensures var c' := BuildFrom(c, Offered(s, Server, random, crypto).payload, Client, crypto).0;
      match c
      case PasswordClientBefore(creds) => c'.PasswordClientAfter? && c'.creds == creds
      case CertClientBefore(signer) =>
        c'.CertClientAfter? && c'.signer == signer && c'.certTypes == ED25519 && c'.challenge == random
      case _ => c' == c
  {
    if c.CertClientBefore? {
      CertChallenge(s, random, crypto);
      var payload := Offered(s, Server, random, crypto).payload;
      assert payload == [Flag(s.required), ED25519] + random;
      assert payload[2..] == random;
    }
  }

  /** The client's side of the bargain for one builder, by kind. */
  lemma ClientAnswers(sb: seq<Builder>, cb: seq<Builder>, i: nat, draw: Draw, random: Bytes, crypto: Crypto)
      returns (k: nat)
    requires IsServerList(sb) && IsClientList(cb) && Sized(sb, cb, draw, crypto) && i < |cb|
    requires Offer(sb, Server, draw, crypto).1.Ok?
    ensures k <= |sb| && (k < |sb| ==> Id(sb[k]) == Id(cb[i]))
    ensures k == |sb| ==> forall j :: 0 <= j < |sb| ==> Id(sb[j]) != Id(cb[i])
    ensures var c := FedState(Offer(sb, Server, draw, crypto).1.value, cb[i], Client, crypto);
      match cb[i]
      case PasswordClientBefore(creds) => if k < |sb| then c.PasswordClientAfter? && c.creds == creds else c == cb[i]
      case CertClientBefore(signer) =>
        if k < |sb| then c.CertClientAfter? && c.signer == signer && c.certTypes == ED25519 && c.challenge == draw(k)
        else c == cb[i]
      case _ => c == cb[i]
  {
    k := Find(sb, Id(cb[i]));
    ServerOffers(sb, cb, draw, crypto);
    OfferExactly(sb, Server, draw, crypto);
    var es := Offer(sb, Server, draw, crypto).1.value;
    if k < |sb| {
      OneOffered(sb, k, Server, draw, crypto);
      FedFrom(es, cb[i], k, Client, crypto);
      ReadsOffer(sb[k], cb[i], draw(k), crypto);
    } else {
      forall j | 0 <= j < |es| ensures es[j].id != Id(cb[i]) { OneOffered(sb, j, Server, draw, crypto); }
      FedUnmentioned(es, cb[i], Client, crypto);
    }
  }

  /** A client builder can answer, and the server's builders `bs` accept the answer. */
  predicate Bargain(c: Builder, bs: seq<Builder>, random: Bytes, crypto: Crypto) {
    Offers(c, Client, random, crypto) && Accepts(bs, Offered(c, Client, random, crypto), Server, crypto)
  }

  lemma PasswordBargain(s: Builder, bs: seq<Builder>, creds: Option<(Utf8, Utf8)>, required: bool, random: Bytes,
                        crypto: Crypto)
    requires s.PasswordServerBefore? && Find(bs, PASSWORD_ID) < |bs| && bs[Find(bs, PASSWORD_ID)] == s
    ensures Bargain(PasswordClientAfter(creds, required), bs, random, crypto) <==>
      creds.Some? && |creds.value.0| <= 255 && creds.value.0 in s.users && s.users[creds.value.0] == creds.value.1
  {
    var c := PasswordClientAfter(creds, required);
    if creds.None? {
      assert BuildTo(c, Client, random, crypto).1.Err?;
    } else {
      var (user, password) := creds.value;
      HonestPassword(s.users, s.required, user, password, crypto);
      assert BuildTo(c, Client, random, crypto).1 == Ok(PasswordCreds(user, password));
      if |user| <= 255 {
        AnswerJudged(c, bs, s, EncodeExt(PasswordCreds(user, password)).value, random, crypto);
      } else {
        assert !Offers(c, Client, random, crypto);
      }
    }
  }

  /** An answer is judged by the builder for its id alone. */
  lemma AnswerJudged(c: Builder, bs: seq<Builder>, s: Builder, payload: Bytes, random: Bytes, crypto: Crypto)
    requires BuildTo(c, Client, random, crypto).1.Ok?
    requires EncodeExt(BuildTo(c, Client, random, crypto).1.value) == Ok(payload)
    requires Find(bs, Id(c)) < |bs| && bs[Find(bs, Id(c))] == s
    ensures Bargain(c, bs, random, crypto) <==> BuildFrom(s, payload, Server, crypto).1.Ok?
  {
  }

  lemma CertAnswer(key: SigningKey, sig: Bytes, challenge: Bytes, required: bool, random: Bytes, crypto: Crypto)
    requires key.certType == ED25519 && crypto.sign(key.key, challenge) == Option.Some(sig)
    ensures BuildTo(CertClientAfter(Option.Some(key), ED25519, challenge, required), Client, random, crypto).1
      == Ok(CertResponse(key.certType, key.hash, sig))
  {
  }

  lemma CertPayload(s: Builder, challenge: Bytes, key: SigningKey, sig: Bytes, crypto: Crypto) returns (payload: Bytes)
    requires s.CertServerAfter? && s.challenge == challenge && key.certType == ED25519 && |key.hash| == 32
    requires |sig| == 64
    ensures EncodeExt(CertResponse(key.certType, key.hash, sig)) == Ok(payload)
    ensures BuildFrom(s, payload, Server, crypto).1.Ok? <==>
      SomeKeyVerifies(s.verifiers, ED25519, key.hash, challenge, sig, crypto)
  {
    payload := EncodeExt(CertResponse(key.certType, key.hash, sig)).value;
    HonestCert(s.verifiers, s.required, challenge, key, sig, crypto);
  }

  lemma SignedBargain(s: Builder, challenge: Bytes, bs: seq<Builder>, key: SigningKey, sig: Bytes,
                      required: bool, random: Bytes, crypto: Crypto)
    requires s.CertServerAfter? && s.challenge == challenge && Find(bs, CERT_ID) < |bs| && bs[Find(bs, CERT_ID)] == s
    requires key.certType == ED25519 && |key.hash| == 32 && |sig| == 64
    requires crypto.sign(key.key, challenge) == Option.Some(sig)
    ensures Bargain(CertClientAfter(Option.Some(key), ED25519, challenge, required), bs, random, crypto) <==>
      SomeKeyVerifies(s.verifiers, ED25519, key.hash, challenge, sig, crypto)
  {
    var c := CertClientAfter(Option.Some(key), ED25519, challenge, required);
    var payload := CertPayload(s, challenge, key, sig, crypto);
    CertAnswer(key, sig, challenge, required, random, crypto);
    AnswerJudged(c, bs, s, payload, random, crypto);
  }

  /** The client's key can sign the challenge, and a key the server lists verifies the signature. */
  ghost predicate SignerAccepted(signer: Option<SigningKey>, verifiers: seq<VerifyKey>, challenge: Bytes,
                                 crypto: Crypto) {
    && signer.Some? && signer.value.certType == ED25519 && crypto.sign(signer.value.key, challenge).Some?
    && SomeKeyVerifies(verifiers, ED25519, signer.value.hash, challenge,
                       crypto.sign(signer.value.key, challenge).value, crypto)
  }

  lemma CertBargain(s: Builder, challenge: Bytes, bs: seq<Builder>, signer: Option<SigningKey>,
                    required: bool, random: Bytes, crypto: Crypto)
    requires s.CertServerAfter? && s.challenge == challenge && Find(bs, CERT_ID) < |bs| && bs[Find(bs, CERT_ID)] == s
    requires signer.Some? ==> |signer.value.hash| == 32
    requires signer.Some? && crypto.sign(signer.value.key, challenge).Some? ==>
      |crypto.sign(signer.value.key, challenge).value| == 64
    ensures Bargain(CertClientAfter(signer, ED25519, challenge, required), bs, random, crypto) <==>
      SignerAccepted(signer, s.verifiers, challenge, crypto)
  {
    var c := CertClientAfter(signer, ED25519, challenge, required);
    if signer.Some? && signer.value.certType == ED25519 && crypto.sign(signer.value.key, challenge).Some? {
      var sig := crypto.sign(signer.value.key, challenge).value;
      SignedBargain(s, challenge, bs, signer.value, sig, required, random, crypto);
    } else {
      assert BuildTo(c, Client, random, crypto).1.Err?;
    }
  }

  /** The server's builders after it sent INFO, by kind. */
  lemma ServerBuilderAt(sb: seq<Builder>, k: nat, draw: Draw, crypto: Crypto)
    requires IsServerList(sb) && k < |sb| && Offer(sb, Server, draw, crypto).1.Ok?
    ensures var bs := Offer(sb, Server, draw, crypto).0;
      && |bs| == |sb| && Find(bs, Id(sb[k])) == k
      && bs[k] == if sb[k].CertServerBefore? then CertServerAfter(sb[k].verifiers, draw(k), sb[k].required) else sb[k]
  {
    OfferExactly(sb, Server, draw, crypto);
    var bs := Offer(sb, Server, draw, crypto).0;
    forall j | 0 <= j < |sb| ensures bs[j] == BuildTo(sb[j], Server, draw(j), crypto).0 {
      OneOffered(sb, j, Server, draw, crypto);
    }
    assert FirstFor(bs, k);
    FirstForFind(bs, k);
  }

  /** Both sides' conditions for one builder amount to `Acceptable`. */
  lemma AcceptableExactly(sb: seq<Builder>, cb: seq<Builder>, i: nat, draw: Draw, random: Bytes, crypto: Crypto)
    requires IsServerList(sb) && IsClientList(cb) && Sized(sb, cb, draw, crypto) && i < |cb|
    requires Offer(sb, Server, draw, crypto).1.Ok?
    ensures var c := FedState(Offer(sb, Server, draw, crypto).1.value, cb[i], Client, crypto);
      Bargain(c, Offer(sb, Server, draw, crypto).0, random, crypto) <==> Acceptable(cb[i], sb, draw, crypto)
  {
    var k := ClientAnswers(sb, cb, i, draw, random, crypto);
    var c := FedState(Offer(sb, Server, draw, crypto).1.value, cb[i], Client, crypto);
    var bs := Offer(sb, Server, draw, crypto).0;
    if k < |sb| {
      ServerBuilderAt(sb, k, draw, crypto);
      assert forall j :: 0 <= j < |sb| && Id(sb[j]) == Id(cb[i]) ==> j == k;
    }
    if cb[i].PasswordClientBefore? {
      if k < |sb| { PasswordBargain(sb[k], bs, cb[i].creds, c.required, random, crypto); }
    } else if cb[i].CertClientBefore? {
      if k < |sb| { CertBargain(bs[k], draw(k), bs, cb[i].signer, c.required, random, crypto); }
    } else {
      PlainBargain(sb, cb[i], draw, random, crypto);
    }
  }

  lemma PlainBargain(sb: seq<Builder>, c: Builder, draw: Draw, random: Bytes, crypto: Crypto)
    requires IsServerList(sb) && Offer(sb, Server, draw, crypto).1.Ok? && (c.UdpBuilder? || c.MotdClient?)
    ensures Bargain(c, Offer(sb, Server, draw, crypto).0, random, crypto)
  {
    var bs := Offer(sb, Server, draw, crypto).0;
    OfferExactly(sb, Server, draw, crypto);
    var j := Find(bs, Id(c));
    if j < |bs| {
      OneOffered(sb, j, Server, draw, crypto);
    }
  }

  /** Reading an honest INFO packet with distinct ids. */
  lemma InfoReadExactly(es: seq<Entry>, bs: seq<Builder>, role: Role, crypto: Crypto)
    requires Carried(es) && UniqueEntries(es)
    ensures var (bs', first) := DecodeFirst(InfoBytes(es), bs, role, crypto);
      && bs' == Feed(es, bs, role, crypto).builders
      && (first.Ok? <==> AllAccepted(es, bs, role, crypto))
      && (first.Ok? ==> first.value.Info?)
  {
    var b := InfoBytes(es);
    assert b[7..] == EncodeEntries(es) + [];
    EntriesRoundTrip(es, []);
    DecodeIsFeed(b[7..], bs, role, crypto);
    FeedExactly(es, bs, role, crypto);
  }

  lemma FedId(es: seq<Entry>, b: Builder, role: Role, crypto: Crypto)
    ensures Id(FedState(es, b, role, crypto)) == Id(b)
  {
  }

  /** The client's builders after it has read the server's INFO. */
  lemma ClientRead(sb: seq<Builder>, cb: seq<Builder>, draw: Draw, crypto: Crypto)
      returns (es: seq<Entry>, bs: seq<Builder>)
    requires IsServerList(sb) && IsClientList(cb) && Sized(sb, cb, draw, crypto)
    ensures Offer(sb, Server, draw, crypto).1 == Ok(es) && Carried(es)
    ensures DecodeFirst(InfoBytes(es), cb, Client, crypto).0 == bs
    ensures DecodeFirst(InfoBytes(es), cb, Client, crypto).1.Ok?
    ensures DecodeFirst(InfoBytes(es), cb, Client, crypto).1.value.Info?
    ensures |bs| == |cb| && UniqueIds(bs)
    ensures forall i :: 0 <= i < |cb| ==> bs[i] == FedState(es, cb[i], Client, crypto)
  {
    ServerOffers(sb, cb, draw, crypto);
    ClientAccepts(sb, cb, draw, crypto);
    es := Offer(sb, Server, draw, crypto).1.value;
    InfoReadExactly(es, cb, Client, crypto);
    FeedExactly(es, cb, Client, crypto);
    bs := DecodeFirst(InfoBytes(es), cb, Client, crypto).0;
    if cb == [] { FeedLength(es, cb, Client, crypto); }
    forall i | 0 <= i < |cb|
      ensures |bs| == |cb| && bs[i] == FedState(es, cb[i], Client, crypto) && Id(bs[i]) == Id(cb[i])
    {
      FeedBuilder(es, cb, i, Client, crypto);
      FedId(es, cb[i], Client, crypto);
    }
  }

  lemma {:induction false} FeedLength(es: seq<Entry>, bs: seq<Builder>, role: Role, crypto: Crypto)
    ensures |Feed(es, bs, role, crypto).builders| == |bs|
    decreases |es|
  {
    if es != [] {
      var i := Find(bs, es[0].id);
      if i == |bs| {
        FeedLength(es[1..], bs, role, crypto);
      } else {
        FeedLength(es[1..], bs[i := BuildFrom(bs[i], es[0].payload, role, crypto).0], role, crypto);
      }
    }
  }

  /** The answer of a builder `c`, which was `c0` before it read the server's offer, fits the length field. */
  lemma AnswerSize(c0: Builder, c: Builder, random: Bytes, crypto: Crypto)
    requires ClientKind(c0) && Offers(c, Client, random, crypto)
    requires c == c0 || (c.PasswordClientAfter? && c0 == PasswordClientBefore(c.creds)) ||
             (c.CertClientAfter? && c0 == CertClientBefore(c.signer))
    requires c.CertClientAfter? && c.signer.Some? ==> |c.signer.value.hash| == 32
    requires forall k, ch :: crypto.sign(k, ch).Some? ==> |crypto.sign(k, ch).value| == 64
    requires c.PasswordClientAfter? && c.creds.Some? ==> 1 + |c.creds.value.0| + |c.creds.value.1| <= U32_MAX
    ensures |Offered(c, Client, random, crypto).payload| <= U32_MAX
  {
  }

  /** The client's answer fits the wire format and mentions no id twice. */
  lemma AnswerFits(sb: seq<Builder>, cb: seq<Builder>, es: seq<Entry>, bs: seq<Builder>, draws: (Draw, Draw),
                   crypto: Crypto)
    requires IsServerList(sb) && IsClientList(cb) && Sized(sb, cb, draws.0, crypto)
    requires Offer(sb, Server, draws.0, crypto).1 == Ok(es) && |bs| == |cb| && UniqueIds(bs)
    requires forall i :: 0 <= i < |cb| ==> bs[i] == FedState(es, cb[i], Client, crypto)
    requires Offer(bs, Client, draws.1, crypto).1.Ok?
    ensures Carried(Offer(bs, Client, draws.1, crypto).1.value)
    ensures UniqueEntries(Offer(bs, Client, draws.1, crypto).1.value)
  {
    OfferExactly(bs, Client, draws.1, crypto);
    OfferedUnique(bs, Client, draws.1, crypto);
    var answer := Offer(bs, Client, draws.1, crypto).1.value;
    forall i | 0 <= i < |answer| ensures |answer[i].payload| <= U32_MAX {
      OneOffered(bs, i, Client, draws.1, crypto);
      var k := ClientAnswers(sb, cb, i, draws.0, draws.1(i), crypto);
      AnswerSize(cb[i], bs[i], draws.1(i), crypto);
    }
  }

  /** A version 2 conversation in which every message is delivered. */
  function Converse(sb: seq<Builder>, cb: seq<Builder>, bufferSize: u32, draws: (Draw, Draw), crypto: Crypto): (Side,
                    Side) {
    var opening := ServerSide(Some(sb), bufferSize, [], draws.0, crypto).sent;
    var answer := ClientSide(Some(cb), opening, draws.1, crypto).sent;
    var server := ServerSide(Some(sb), bufferSize, answer, draws.0, crypto);
    (server, ClientSide(Some(cb), server.sent, draws.1, crypto))
  }

  /** The server accepts an answer exactly if it accepts what each of the client's builders offers. */
  lemma AnswerAccepted(bs: seq<Builder>, sb: seq<Builder>, draw: Draw, crypto: Crypto)
    requires Offer(bs, Client, draw, crypto).1.Ok?
    requires Carried(Offer(bs, Client, draw, crypto).1.value) && UniqueEntries(Offer(bs, Client, draw, crypto).1.value)
    ensures DecodeFirst(InfoBytes(Offer(bs, Client, draw, crypto).1.value), sb, Server, crypto).1.Ok? <==>
      forall i :: 0 <= i < |bs| ==> Bargain(bs[i], sb, draw(i), crypto)
  {
    var answer := Offer(bs, Client, draw, crypto).1.value;
    OfferExactly(bs, Client, draw, crypto);
    InfoReadExactly(answer, sb, Server, crypto);
    AllAcceptedIf(answer, sb, Server, crypto);
    forall i | 0 <= i < |bs| ensures Bargain(bs[i], sb, draw(i), crypto) <==> Accepts(sb, answer[i], Server, crypto) {
      OneOffered(bs, i, Client, draw, crypto);
    }
  }

  /** How a conversation goes once the client has read the server's INFO; `bs` are its builders then. */
  lemma ConverseEnds(sb: seq<Builder>, cb: seq<Builder>, bufferSize: u32, draws: (Draw, Draw), crypto: Crypto,
                     es: seq<Entry>, bs: seq<Builder>)
    requires Offer(sb, Server, draws.0, crypto).1 == Ok(es) && DecodeFirst(InfoBytes(es), cb, Client, crypto).0 == bs
    requires var first := DecodeFirst(InfoBytes(es), cb, Client, crypto).1; first.Ok? && first.value.Info?
    requires var answered := Offer(bs, Client, draws.1, crypto).1;
      answered.Ok? ==> Carried(answered.value) && UniqueEntries(answered.value)
    ensures var (server, client) := Converse(sb, cb, bufferSize, draws, crypto);
      var answered := Offer(bs, Client, draws.1, crypto).1;
      var sb' := Offer(sb, Server, draws.0, crypto).0;
      var ok := answered.Ok? && DecodeFirst(InfoBytes(answered.value), sb', Server, crypto).1.Ok?;
      (client.outcome.Done? <==> ok) && (server.outcome.Done? <==> ok)
  {
    var answered := Offer(bs, Client, draws.1, crypto).1;
    if answered.Ok? {
      var sb' := Offer(sb, Server, draws.0, crypto).0;
      var first := DecodeFirst(InfoBytes(answered.value), sb', Server, crypto).1;
      InfoReadExactly(answered.value, sb', Server, crypto);
      ContinueDecodes(bufferSize);
      if first.Err? { FarewellIsNoContinue(first.error); }
    }
  }

  /** Without middleware, a conversation between any server list and any client list succeeds on both sides
      exactly when every authentication builder of the client finds its counterpart on the server and brings
      credentials, or a signature of the challenge, that the server accepts.  */
  lemma HandshakeSucceedsExactly(sb: seq<Builder>, cb: seq<Builder>, bufferSize: u32, draws: (Draw, Draw),
                                 crypto: Crypto)
    requires IsServerList(sb) && IsClientList(cb) && Sized(sb, cb, draws.0, crypto)
    ensures var (server, client) := Converse(sb, cb, bufferSize, draws, crypto);
      && (client.outcome.Done? <==> forall i :: 0 <= i < |cb| ==> Acceptable(cb[i], sb, draws.0, crypto))
      && (server.outcome.Done? <==> client.outcome.Done?)
  {
    var es, bs := ClientRead(sb, cb, draws.0, crypto);
    var sb' := Offer(sb, Server, draws.0, crypto).0;
    OfferExactly(bs, Client, draws.1, crypto);
    forall i | 0 <= i < |cb|
      ensures Bargain(bs[i], sb', draws.1(i), crypto) <==> Acceptable(cb[i], sb, draws.0, crypto)
    {
      AcceptableExactly(sb, cb, i, draws.0, draws.1(i), crypto);
    }
    if Offer(bs, Client, draws.1, crypto).1.Ok? {
      AnswerFits(sb, cb, es, bs, draws, crypto);
      AnswerAccepted(bs, sb', draws.1, crypto);
    }
    ConverseEnds(sb, cb, bufferSize, draws, crypto, es, bs);
  }
}
