/** Protocol extensions, their builders and how they are carried in INFO packets. */
module Extensions {
  import opened Common
  import opened Packets

  /** Keys are opaque; `Crypto` says what they verify and sign. */
  datatype VerifyKey = VerifyKey(certType: u8, hash: Bytes, key: nat)
  datatype SigningKey = SigningKey(certType: u8, hash: Bytes, key: nat)
  datatype Crypto = Crypto(verify: (nat, Bytes, Bytes) -> bool, sign: (nat, Bytes) -> Option<Bytes>)

  datatype Builder =
    | UdpBuilder
    | MotdServer(motd: Utf8)
    | MotdClient
    | PasswordServerBefore(users: map<Utf8, Utf8>, required: bool)
    | PasswordServerAfter(users: map<Utf8, Utf8>, required: bool)
    | PasswordClientBefore(creds: Option<(Utf8, Utf8)>)
    | PasswordClientAfter(creds: Option<(Utf8, Utf8)>, required: bool)
    | CertServerBefore(verifiers: seq<VerifyKey>, required: bool)
    | CertServerAfter(verifiers: seq<VerifyKey>, challenge: Bytes, required: bool)
    | CertClientBefore(signer: Option<SigningKey>)
    | CertClientAfter(signer: Option<SigningKey>, certTypes: u8, challenge: Bytes, required: bool)

  datatype Ext =
    | UdpExt
    | MotdExt(role: Role, motd: Utf8)
    | PasswordOffer(required: bool)               // sent by the server
    | PasswordVerified(user: Utf8, password: Utf8)  // built by the server from the client's bytes
    | PasswordReceived                            // built by the client from the server's bytes
    | PasswordCreds(user: Utf8, password: Utf8)   // sent by the client
    | CertOffer(certTypes: u8, challenge: Bytes, required: bool)
    | CertVerified
    | CertReceived
    | CertResponse(certType: u8, hash: Bytes, signature: Bytes)

  const UDP_ID: u8 := 0x01
  const PASSWORD_ID: u8 := 0x02
  const CERT_ID: u8 := 0x03
  const MOTD_ID: u8 := 0x04
  const ED25519: u8 := 0x01

  function Id(b: Builder): u8 {
    match b
    case UdpBuilder => UDP_ID
    case MotdServer(_) => MOTD_ID
    case MotdClient => MOTD_ID
    case PasswordServerBefore(_, _) => PASSWORD_ID
    case PasswordServerAfter(_, _) => PASSWORD_ID
    case PasswordClientBefore(_) => PASSWORD_ID
    case PasswordClientAfter(_, _) => PASSWORD_ID
    case _ => CERT_ID
  }

  function ExtId(e: Ext): u8 {
    match e
    case UdpExt => UDP_ID
    case MotdExt(_, _) => MOTD_ID
    case PasswordOffer(_) => PASSWORD_ID
    case PasswordVerified(_, _) => PASSWORD_ID
    case PasswordReceived => PASSWORD_ID
    case PasswordCreds(_, _) => PASSWORD_ID
    case _ => CERT_ID
  }

  function Flag(b: bool): u8 {
    if b then 1 else 0
  }

  /** `ProtocolExtension::encode`. */
  function EncodeExt(e: Ext): Result<Bytes> {
    match e
    case MotdExt(role, motd) => Ok(if role.Server? then motd else [])
    case PasswordOffer(required) => Ok([Flag(required)])
    case PasswordCreds(user, password) =>
      if |user| > U8_MAX then Err(Panic) else Ok([|user|] + user + password)
    case CertOffer(certTypes, challenge, required) => Ok([Flag(required), certTypes] + challenge)
    case CertResponse(certType, hash, signature) => Ok([certType] + hash + signature)
    case _ => Ok([])
  }

  /** `ProtocolExtensionBuilder::build_to_extension`; `random` stands for the bytes drawn by the call. */
  function BuildTo(b: Builder, role: Role, random: Bytes, crypto: Crypto): (r: (Builder, Result<Ext>))
    ensures Id(r.0) == Id(b) && (r.1.Ok? ==> ExtId(r.1.value) == Id(b))
  {
    match b
    case UdpBuilder => (b, Ok(UdpExt))
    case MotdServer(motd) => (b, Ok(MotdExt(role, motd)))
    case MotdClient => (b, Ok(MotdExt(role, [])))
    case PasswordServerBefore(_, required) => (b, Ok(PasswordOffer(required)))
    case PasswordClientAfter(creds, _) =>
      if creds.None? then (b, Err(PasswordNoCreds)) else (b, Ok(PasswordCreds(creds.value.0, creds.value.1)))
    case CertServerBefore(verifiers, required) =>
      (CertServerAfter(verifiers, random, required), Ok(CertOffer(ED25519, random, required)))
    case CertClientAfter(signer, certTypes, challenge, _) =>
      if signer.None? then (b, Err(CertNoKey))
      else if !(certTypes == ED25519 && signer.value.certType == ED25519) then (b, Err(CertTypeInvalid))
      else
        var signature := crypto.sign(signer.value.key, challenge);
        if signature.None? then (b, Err(ExtensionImplError))
        else (b, Ok(CertResponse(signer.value.certType, signer.value.hash, signature.value)))
    case _ => (b, Err(ExtensionImplNotSupported))
  }

  /** `SupportedCertificateTypes::from_bits` knows one flag. */
  predicate KnownCertBits(x: u8) {
    x == 0 || x == ED25519
  }

  predicate SomeKeyVerifies(verifiers: seq<VerifyKey>, certType: u8, hash: Bytes, challenge: Bytes, sig: Bytes,
                            crypto: Crypto) {
    exists i :: 0 <= i < |verifiers| && verifiers[i].certType == certType && verifiers[i].hash == hash &&
      crypto.verify(verifiers[i].key, challenge, sig)
  }

  /** `ProtocolExtensionBuilder::build_from_bytes`. */
  function BuildFrom(b: Builder, bytes: Bytes, role: Role, crypto: Crypto): (r: (Builder, Result<Ext>))
    ensures Id(r.0) == Id(b) && (r.1.Ok? ==> ExtId(r.1.value) == Id(b))
  {
    match b
    case UdpBuilder => (b, Ok(UdpExt))
    case MotdServer(_) => (b, BuildMotd(bytes, role))
    case MotdClient => (b, BuildMotd(bytes, role))
    case PasswordServerBefore(users, required) => BuildPassword(b, bytes)
    case PasswordClientBefore(creds) =>
      if bytes == [] then (b, Err(Panic)) else (PasswordClientAfter(creds, bytes[0] != 0), Ok(PasswordReceived))
    case CertServerAfter(verifiers, challenge, _) => (b, BuildCert(verifiers, challenge, bytes, crypto))
    case CertClientBefore(signer) =>
      if |bytes| < 2 then (b, Err(Panic))
      else if !KnownCertBits(bytes[1]) then (b, Err(CertTypeInvalid))
      else (CertClientAfter(signer, bytes[1], bytes[2..], bytes[0] != 0), Ok(CertReceived))
    case _ => (b, Err(ExtensionImplNotSupported))
  }

  function BuildMotd(bytes: Bytes, role: Role): (r: Result<Ext>)
    ensures r.Ok? ==> ExtId(r.value) == MOTD_ID
  {
    if role.Server? then Ok(MotdExt(role, []))
    else if ValidUtf8(bytes) then Ok(MotdExt(role, bytes)) else Err(ExtensionImplError)
  }

  /** Credentials are accepted once, and only if the user table has them. */
  function BuildPassword(b: Builder, bytes: Bytes): (r: (Builder, Result<Ext>))
    requires b.PasswordServerBefore?
    ensures Id(r.0) == PASSWORD_ID && (r.1.Ok? ==> ExtId(r.1.value) == PASSWORD_ID)
  {
    if bytes == [] || |bytes| - 1 < bytes[0] then (b, Err(Panic))
    else
      var end: int := bytes[0] as int + 1;
      var user, password := bytes[1..end], bytes[end..];
      if !ValidUtf8(user) || !ValidUtf8(password) then (b, Err(InvalidUtf8))
      else
        var after := PasswordServerAfter(b.users, b.required);
        if user in b.users && b.users[user] == password then (after, Ok(PasswordVerified(user, password)))
        else (after, Err(PasswordCredsInvalid))
  }

  function BuildCert(verifiers: seq<VerifyKey>, challenge: Bytes, bytes: Bytes, crypto: Crypto): (r: Result<Ext>)
    ensures r.Ok? ==> r.value == CertVerified
  {
    if bytes == [] then Err(Panic)
    else if !KnownCertBits(bytes[0]) then Err(CertSigInvalid)
    else if |bytes| < 33 then Err(Panic)
    else if |bytes| != 97 then Err(ExtensionImplError)
    else if SomeKeyVerifies(verifiers, bytes[0], bytes[1..33], challenge, bytes[33..], crypto) then Ok(CertVerified)
    else Err(CertSigInvalid)
  }

  // ---------- INFO entries ----------

  datatype Entry = Entry(id: u8, payload: Bytes)

  /** `AnyProtocolExtension::encode_into`; the length is cut to 32 bits. */
  function EncodeEntry(e: Entry): Bytes {
    [e.id] + U32Le(|e.payload| % 0x1_0000_0000) + e.payload
  }

  function EncodeEntries(es: seq<Entry>): Bytes {
    if es == [] then [] else EncodeEntry(es[0]) + EncodeEntries(es[1..])
  }

  /** The entries a payload consists of, and whether the last one is cut short. */
  function SplitEntries(b: Bytes): (seq<Entry>, bool)
    decreases |b|
  {
    if |b| < 5 then ([], false)
    else
      var len := GetU32Le(b[1..]);
      if |b| - 5 < len then ([], true)
      else
        var (rest, short) := SplitEntries(b[5 + len..]);
        ([Entry(b[0], b[5..5 + len])] + rest, short)
  }

  predicate Carried(es: seq<Entry>) {
    forall i :: 0 <= i < |es| ==> |es[i].payload| <= U32_MAX
  }

  lemma EntryAtFront(e: Entry, tail: Bytes)
    requires |e.payload| <= U32_MAX
    ensures var b, n := EncodeEntry(e) + tail, |e.payload|;
      && |b| >= 5 + n && b[0] == e.id && GetU32Le(b[1..]) == n
      && b[5..5 + n] == e.payload && b[5 + n..] == tail
  {
    var b := EncodeEntry(e) + tail;
    assert b[1..] == U32Le(|e.payload|) + (e.payload + tail);
    U32RoundTrip(|e.payload|, e.payload + tail);
  }

  /** Splitting undoes encoding; up to four stray bytes at the end are ignored. */
  lemma {:induction false} EntriesRoundTrip(es: seq<Entry>, stray: Bytes)
    requires Carried(es) && |stray| < 5
    ensures SplitEntries(EncodeEntries(es) + stray) == (es, false)
    decreases |es|
  {
    if es == [] {
      assert EncodeEntries(es) + stray == stray;
    } else {
      var tail := EncodeEntries(es[1..]) + stray;
      assert EncodeEntries(es) + stray == EncodeEntry(es[0]) + tail;
      EntryAtFront(es[0], tail);
      EntriesRoundTrip(es[1..], stray);
      assert es == [es[0]] + es[1..];
    }
  }

  // ---------- Building from INFO entries ----------

  /** Index of the first builder for `id`, or the length of the list. */
  function Find(bs: seq<Builder>, id: u8): (i: nat)
    ensures i <= |bs|
    ensures i < |bs| ==> Id(bs[i]) == id
    ensures forall j :: 0 <= j < i ==> Id(bs[j]) != id
  {
    if bs == [] then 0 else if Id(bs[0]) == id then 0 else 1 + Find(bs[1..], id)
  }

  datatype Built = Built(builders: seq<Builder>, exts: Result<seq<Ext>>)

  function Prepend(e: Ext, b: Built): Built {
    Built(b.builders, if b.exts.Ok? then Ok([e] + b.exts.value) else b.exts)
  }

  /** Gives each entry to the builder for its id, in order, until one fails; unknown ids are skipped. */
  function Feed(es: seq<Entry>, bs: seq<Builder>, role: Role, crypto: Crypto): Built
    decreases |es|
  {
    if es == [] then Built(bs, Ok([]))
    else
      var i := Find(bs, es[0].id);
      if i == |bs| then Feed(es[1..], bs, role, crypto)
      else
        var (b, r) := BuildFrom(bs[i], es[0].payload, role, crypto);
        if r.Err? then Built(bs[i := b], Err(r.error))
        else Prepend(r.value, Feed(es[1..], bs[i := b], role, crypto))
  }

  /** The extension list of `InfoPacket::decode`, read directly from the bytes. */
  function DecodeExts(b: Bytes, bs: seq<Builder>, role: Role, crypto: Crypto): Built
    decreases |b|
  {
    if |b| < 5 then Built(bs, Ok([]))
    else
      var len := GetU32Le(b[1..]);
      if |b| - 5 < len then Built(bs, Err(PacketTooSmall))
      else
        var i := Find(bs, b[0]);
        if i == |bs| then DecodeExts(b[5 + len..], bs, role, crypto)
        else
          var (nb, r) := BuildFrom(bs[i], b[5..5 + len], role, crypto);
          if r.Err? then Built(bs[i := nb], Err(r.error))
          else Prepend(r.value, DecodeExts(b[5 + len..], bs[i := nb], role, crypto))
  }

  /** One entry, unfolded; `len` is its length and `i` the position of its builder. */
  lemma DecodeOne(b: Bytes, bs: seq<Builder>, role: Role, crypto: Crypto, len: u32, i: nat)
    requires |b| >= 5 && len == GetU32Le(b[1..]) && len <= |b| - 5 && i == Find(bs, b[0])
    ensures i == |bs| ==> DecodeExts(b, bs, role, crypto) == DecodeExts(b[5 + len..], bs, role, crypto)
    ensures i < |bs| ==>
      var (nb, r) := BuildFrom(bs[i], b[5..5 + len], role, crypto);
      DecodeExts(b, bs, role, crypto) == if r.Err? then Built(bs[i := nb], Err(r.error))
                                         else Prepend(r.value, DecodeExts(b[5 + len..], bs[i := nb], role, crypto))
  {
  }

  /** The first entry goes to its builder. */
  lemma FeedFirst(es: seq<Entry>, bs: seq<Builder>, role: Role, crypto: Crypto, i: nat)
    requires es != [] && i == Find(bs, es[0].id)
    ensures i == |bs| ==> Feed(es, bs, role, crypto) == Feed(es[1..], bs, role, crypto)
    ensures i < |bs| ==>
      var (b, r) := BuildFrom(bs[i], es[0].payload, role, crypto);
      Feed(es, bs, role, crypto) == if r.Err? then Built(bs[i := b], Err(r.error))
                                    else Prepend(r.value, Feed(es[1..], bs[i := b], role, crypto))
  {
  }

  /** Decoding any bytes is feeding the entries they split into; a cut-off entry is an error unless an
      earlier builder failed first.  */
  lemma {:induction false} DecodeIsFeed(b: Bytes, bs: seq<Builder>, role: Role, crypto: Crypto)
    ensures var (es, short) := SplitEntries(b);
      var fed := Feed(es, bs, role, crypto);
      DecodeExts(b, bs, role, crypto) ==
        Built(fed.builders, if fed.exts.Ok? && short then Err(PacketTooSmall) else fed.exts)
    decreases |b|
  {
    if |b| >= 5 && |b| - 5 >= GetU32Le(b[1..]) {
      var len := GetU32Le(b[1..]);
      var i := Find(bs, b[0]);
      var (es, short) := SplitEntries(b);
      assert es[1..] == SplitEntries(b[5 + len..]).0 && es[0] == Entry(b[0], b[5..5 + len]);
      FeedFirst(es, bs, role, crypto, i);
      DecodeOne(b, bs, role, crypto, len, i);
      if i == |bs| {
        DecodeIsFeed(b[5 + len..], bs, role, crypto);
      } else {
        DecodeIsFeed(b[5 + len..], bs[i := BuildFrom(bs[i], b[5..5 + len], role, crypto).0], role, crypto);
      }
    }
  }

  // ---------- What comes out of an INFO packet ----------

  function IdSet(bs: seq<Builder>): set<u8> {
    set i | 0 <= i < |bs| :: Id(bs[i])
  }

  function ExtIds(es: seq<Ext>): seq<u8> {
    seq(|es|, i requires 0 <= i < |es| => ExtId(es[i]))
  }

  /** The ids of the entries somebody knows, in order. */
  function KnownIds(es: seq<Entry>, ids: set<u8>): seq<u8> {
    if es == [] then []
    else (if es[0].id in ids then [es[0].id] else []) + KnownIds(es[1..], ids)
  }

  lemma IdSetUpdate(bs: seq<Builder>, i: nat, b: Builder)
    requires i < |bs| && Id(b) == Id(bs[i])
    ensures IdSet(bs[i := b]) == IdSet(bs)
  {
    var bs' := bs[i := b];
    forall x | x in IdSet(bs) ensures x in IdSet(bs') {
      var j :| 0 <= j < |bs| && Id(bs[j]) == x;
      assert Id(bs'[j]) == x;
    }
    forall x | x in IdSet(bs') ensures x in IdSet(bs) {
      var j :| 0 <= j < |bs'| && Id(bs'[j]) == x;
      assert Id(bs[j]) == x;
    }
  }

  lemma KnownIdsFirst(es: seq<Entry>, bs: seq<Builder>, i: nat)
    requires es != [] && i == Find(bs, es[0].id)
    ensures KnownIds(es, IdSet(bs)) == (if i < |bs| then [es[0].id] else []) + KnownIds(es[1..], IdSet(bs))
  {
    if i < |bs| { assert Id(bs[i]) in IdSet(bs); }
  }

  lemma ExtIdsFirst(e: Ext, es: seq<Ext>)
    ensures ExtIds([e] + es) == [ExtId(e)] + ExtIds(es)
  {
  }

  lemma BuiltId(b: Builder, bytes: Bytes, role: Role, crypto: Crypto)
    ensures var (b', r) := BuildFrom(b, bytes, role, crypto); Id(b') == Id(b) && (r.Ok? ==> ExtId(r.value) == Id(b))
  {
  }

  /** A decoded extension list has exactly one extension for each entry with a known id, in order. */
  lemma {:induction false} FeedIds(es: seq<Entry>, bs: seq<Builder>, role: Role, crypto: Crypto)
    ensures IdSet(Feed(es, bs, role, crypto).builders) == IdSet(bs)
    ensures Feed(es, bs, role, crypto).exts.Ok? ==>
      ExtIds(Feed(es, bs, role, crypto).exts.value) == KnownIds(es, IdSet(bs))
    decreases |es|
  {
    if es != [] {
      var i := Find(bs, es[0].id);
      FeedFirst(es, bs, role, crypto, i);
      KnownIdsFirst(es, bs, i);
      if i == |bs| {
        FeedIds(es[1..], bs, role, crypto);
      } else {
        var (b, r) := BuildFrom(bs[i], es[0].payload, role, crypto);
        BuiltId(bs[i], es[0].payload, role, crypto);
        IdSetUpdate(bs, i, b);
        FeedIds(es[1..], bs[i := b], role, crypto);
        var fed := Feed(es[1..], bs[i := b], role, crypto);
        if r.Ok? && fed.exts.Ok? { ExtIdsFirst(r.value, fed.exts.value); }
      }
    }
  }

  // ---------- Authentication ----------

  function Count(es: seq<Entry>, id: u8): nat {
    if es == [] then 0 else (if es[0].id == id then 1 else 0) + Count(es[1..], id)
  }

  predicate FirstFor(bs: seq<Builder>, k: nat) {
    k < |bs| && forall j :: 0 <= j < k ==> Id(bs[j]) != Id(bs[k])
  }

  lemma FirstForFind(bs: seq<Builder>, k: nat)
    requires FirstFor(bs, k)
    ensures Find(bs, Id(bs[k])) == k
  {
  }

  /** Credentials were used up: another password entry fails the handshake. */
  lemma {:induction false} FeedUsedPassword(es: seq<Entry>, bs: seq<Builder>, k: nat, role: Role, crypto: Crypto)
    requires FirstFor(bs, k) && bs[k].PasswordServerAfter? && Feed(es, bs, role, crypto).exts.Ok?
    ensures Count(es, PASSWORD_ID) == 0
    decreases |es|
  {
    if es != [] {
      FirstForFind(bs, k);
      var i := Find(bs, es[0].id);
      if i == |bs| {
        FeedUsedPassword(es[1..], bs, k, role, crypto);
      } else {
        FeedUsedPassword(es[1..], bs[i := BuildFrom(bs[i], es[0].payload, role, crypto).0], k, role, crypto);
      }
    }
  }

  /** `e` records credentials that are in the table and were sent in `es`. */
  predicate Authentic(e: Ext, es: seq<Entry>, users: map<Utf8, Utf8>) {
    && e.PasswordVerified? && e.user in users && users[e.user] == e.password && |e.user| <= U8_MAX
    && exists j :: 0 <= j < |es| && es[j] == Entry(PASSWORD_ID, [|e.user|] + e.user + e.password)
  }

  lemma {:induction false} FeedPassword(es: seq<Entry>, bs: seq<Builder>, k: nat, role: Role, crypto: Crypto)
    requires FirstFor(bs, k) && bs[k].PasswordServerBefore? && Feed(es, bs, role, crypto).exts.Ok?
    ensures Count(es, PASSWORD_ID) <= 1
    ensures forall e :: e in Feed(es, bs, role, crypto).exts.value && ExtId(e) == PASSWORD_ID ==>
      Authentic(e, es, bs[k].users)
    decreases |es|
  {
    if es != [] {
      FirstForFind(bs, k);
      var i := Find(bs, es[0].id);
      var rest := es[1..];
      if i == |bs| {
        FeedPassword(rest, bs, k, role, crypto);
        AuthenticLater(es, bs[k].users);
      } else {
        var (b, r) := BuildFrom(bs[i], es[0].payload, role, crypto);
        var bs' := bs[i := b];
        if i == k {
          FeedUsedPassword(rest, bs', k, role, crypto);
          FeedIds(rest, bs', role, crypto);
          NoIdNoExt(rest, Feed(rest, bs', role, crypto).exts.value, IdSet(bs'), PASSWORD_ID);
          PasswordPayload(bs[k], es[0].payload);
          assert es[0] == Entry(PASSWORD_ID, es[0].payload);
        } else {
          FeedPassword(rest, bs', k, role, crypto);
          AuthenticLater(es, bs[k].users);
        }
      }
    }
  }

  lemma AuthenticLater(es: seq<Entry>, users: map<Utf8, Utf8>)
    requires es != []
    ensures forall e :: Authentic(e, es[1..], users) ==> Authentic(e, es, users)
  {
    forall e | Authentic(e, es[1..], users) ensures Authentic(e, es, users) {
      var j :| 0 <= j < |es[1..]| && es[1..][j] == Entry(PASSWORD_ID, [|e.user|] + e.user + e.password);
      assert es[j + 1] == es[1..][j];
    }
  }

  lemma PasswordPayload(b: Builder, bytes: Bytes)
    requires b.PasswordServerBefore? && BuildPassword(b, bytes).1.Ok?
    ensures var e := BuildPassword(b, bytes).1.value;
      && e.PasswordVerified? && e.user in b.users && b.users[e.user] == e.password && |e.user| <= U8_MAX
      && bytes == [|e.user|] + e.user + e.password
  {
  }

  lemma {:induction false} NoIdNoExt(es: seq<Entry>, exts: seq<Ext>, ids: set<u8>, id: u8)
    requires ExtIds(exts) == KnownIds(es, ids) && Count(es, id) == 0
    ensures forall e :: e in exts ==> ExtId(e) != id
  {
    KnownIdsCount(es, ids, id);
    forall e | e in exts ensures ExtId(e) != id {
      var j :| 0 <= j < |exts| && exts[j] == e;
      assert ExtIds(exts)[j] == ExtId(e);
    }
  }

  lemma {:induction false} KnownIdsCount(es: seq<Entry>, ids: set<u8>, id: u8)
    requires Count(es, id) == 0
    ensures id !in KnownIds(es, ids)
    decreases |es|
  {
    if es != [] {
      KnownIdsCount(es[1..], ids, id);
    }
  }

  predicate Contains(exts: seq<Ext>, id: u8) {
    exists e :: e in exts && ExtId(e) == id
  }

  /** For every byte string: if the server's result holds the password extension, then the bytes hold exactly
      one password entry, and it spells a user and password of the table.  */
  lemma PasswordSound(b: Bytes, bs: seq<Builder>, k: nat, crypto: Crypto)
    requires FirstFor(bs, k) && bs[k].PasswordServerBefore? && DecodeExts(b, bs, Server, crypto).exts.Ok?
    requires Contains(DecodeExts(b, bs, Server, crypto).exts.value, PASSWORD_ID)
    ensures Count(SplitEntries(b).0, PASSWORD_ID) == 1
    ensures forall e :: e in DecodeExts(b, bs, Server, crypto).exts.value && ExtId(e) == PASSWORD_ID ==>
      Authentic(e, SplitEntries(b).0, bs[k].users)
  {
    DecodeIsFeed(b, bs, Server, crypto);
    var es := SplitEntries(b).0;
    FeedPassword(es, bs, k, Server, crypto);
    FeedIds(es, bs, Server, crypto);
    if Count(es, PASSWORD_ID) == 0 {
      NoIdNoExt(es, Feed(es, bs, Server, crypto).exts.value, IdSet(bs), PASSWORD_ID);
    }
  }

  /** A listed key verifies a signature of `challenge` that one of the entries carries. */
  ghost predicate CertProof(es: seq<Entry>, verifiers: seq<VerifyKey>, challenge: Bytes, crypto: Crypto) {
    exists j :: 0 <= j < |es| && es[j].id == CERT_ID && |es[j].payload| == 97 &&
      SomeKeyVerifies(verifiers, es[j].payload[0], es[j].payload[1..33], challenge, es[j].payload[33..], crypto)
  }

  lemma {:induction false} FeedCert(es: seq<Entry>, bs: seq<Builder>, k: nat, role: Role, crypto: Crypto)
    requires FirstFor(bs, k) && bs[k].CertServerAfter? && Feed(es, bs, role, crypto).exts.Ok?
    requires Contains(Feed(es, bs, role, crypto).exts.value, CERT_ID)
    ensures CertProof(es, bs[k].verifiers, bs[k].challenge, crypto)
    decreases |es|
  {
    FirstForFind(bs, k);
    if es != [] && es[0].id == CERT_ID {
      assert es[0].id == CERT_ID && BuildCert(bs[k].verifiers, bs[k].challenge, es[0].payload, crypto).Ok?;
    } else if es != [] {
      var i := Find(bs, es[0].id);
      var bs' := if i == |bs| then bs else bs[i := BuildFrom(bs[i], es[0].payload, role, crypto).0];
      var e :| e in Feed(es, bs, role, crypto).exts.value && ExtId(e) == CERT_ID;
      assert e in Feed(es[1..], bs', role, crypto).exts.value;
      FeedCert(es[1..], bs', k, role, crypto);
      var rest := es[1..];
      var j :| 0 <= j < |rest| && rest[j].id == CERT_ID && |rest[j].payload| == 97 &&
        SomeKeyVerifies(bs[k].verifiers, rest[j].payload[0], rest[j].payload[1..33], bs[k].challenge,
                        rest[j].payload[33..], crypto);
      assert es[j + 1] == es[1..][j];
    }
  }

  /** Honest credentials with a user name of at most 255 bytes are accepted; longer names panic the client. */
  lemma HonestPassword(users: map<Utf8, Utf8>, required: bool, user: Utf8, password: Utf8, crypto: Crypto)
    ensures EncodeExt(PasswordCreds(user, password)).Ok? <==> |user| <= 255
    ensures |user| <= 255 ==>
      var payload := EncodeExt(PasswordCreds(user, password)).value;
      var built := BuildFrom(PasswordServerBefore(users, required), payload, Server, crypto).1;
      if user in users && users[user] == password then built == Ok(PasswordVerified(user, password))
      else built == Err(PasswordCredsInvalid)
  {
    if |user| <= 255 {
      var b := EncodeExt(PasswordCreds(user, password)).value;
      assert b[1..1 + |user|] == user && b[1 + |user|..] == password;
    }
  }

  /** A response to the server's own challenge is accepted exactly when a listed key verifies it. */
  lemma HonestCert(verifiers: seq<VerifyKey>, required: bool, challenge: Bytes, key: SigningKey, sig: Bytes,
                   crypto: Crypto)
    requires key.certType == ED25519 && |key.hash| == 32 && |sig| == 64
    ensures var payload := EncodeExt(CertResponse(key.certType, key.hash, sig)).value;
      var built := BuildFrom(CertServerAfter(verifiers, challenge, required), payload, Server, crypto).1;
      if SomeKeyVerifies(verifiers, ED25519, key.hash, challenge, sig, crypto) then built == Ok(CertVerified)
      else built == Err(CertSigInvalid)
  {
    var payload := EncodeExt(CertResponse(key.certType, key.hash, sig)).value;
    assert payload[1..33] == key.hash && payload[33..] == sig;
  }
}
