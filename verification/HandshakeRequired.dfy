/** The `required` flags of the builders, and the check that does enforce an extension. */
module HandshakeRequired {
  import opened Common
  import opened Packets
  import opened Extensions
  import opened Handshake
  import opened HandshakeSuccess
  import opened HandshakeVersions

  // ---------- The flags are ignored ----------

  /** The same builder with the given flag. */
  function Flagged(b: Builder, required: bool): (r: Builder)
    ensures Id(r) == Id(b)
  {
    match b
    case PasswordServerBefore(users, _) => PasswordServerBefore(users, required)
    case PasswordServerAfter(users, _) => PasswordServerAfter(users, required)
    case CertServerBefore(verifiers, _) => CertServerBefore(verifiers, required)
    case CertServerAfter(verifiers, challenge, _) => CertServerAfter(verifiers, challenge, required)
    case _ => b
  }

  function AllFlagged(bs: seq<Builder>, required: bool): (r: seq<Builder>)
    ensures |r| == |bs|
  {
    seq(|bs|, i requires 0 <= i < |bs| => Flagged(bs[i], required))
  }

  function FlaggedExt(e: Ext, required: bool): (r: Ext)
    ensures ExtId(r) == ExtId(e)
  {
    match e
    case PasswordOffer(_) => PasswordOffer(required)
    case CertOffer(certTypes, challenge, _) => CertOffer(certTypes, challenge, required)
    case _ => e
  }

  lemma FlaggedUpdate(bs: seq<Builder>, i: nat, b: Builder, required: bool)
    requires i < |bs|
    ensures AllFlagged(bs[i := b], required) == AllFlagged(bs, required)[i := Flagged(b, required)]
  {
  }

  lemma {:induction false} FlaggedFind(bs: seq<Builder>, id: u8, required: bool)
    ensures Find(AllFlagged(bs, required), id) == Find(bs, id)
    decreases |bs|
  {
    if bs != [] {
      assert AllFlagged(bs, required)[1..] == AllFlagged(bs[1..], required);
      FlaggedFind(bs[1..], id, required);
    }
  }

  lemma FlaggedIds(bs: seq<Builder>, required: bool)
    ensures IdSet(AllFlagged(bs, required)) == IdSet(bs)
  {
    var fs := AllFlagged(bs, required);
    forall i | 0 <= i < |bs| ensures Id(fs[i]) == Id(bs[i]) {}
    forall x | x in IdSet(bs) ensures x in IdSet(fs) {
      var i :| 0 <= i < |bs| && Id(bs[i]) == x;
      assert Id(fs[i]) == x;
    }
    forall x | x in IdSet(fs) ensures x in IdSet(bs) {
      var i :| 0 <= i < |fs| && Id(fs[i]) == x;
      assert Id(bs[i]) == x;
    }
  }

  /** Building from bytes gives the same extension or error. */
  lemma FlaggedBuildFrom(b: Builder, bytes: Bytes, required: bool, crypto: Crypto)
    ensures BuildFrom(Flagged(b, required), bytes, Server, crypto) ==
      (Flagged(BuildFrom(b, bytes, Server, crypto).0, required), BuildFrom(b, bytes, Server, crypto).1)
  {
  }

  /** Building an offer succeeds or fails alike. */
  lemma FlaggedBuildTo(b: Builder, random: Bytes, required: bool, crypto: Crypto)
    ensures var (b', r) := BuildTo(b, Server, random, crypto);
      BuildTo(Flagged(b, required), Server, random, crypto) ==
        (Flagged(b', required), if r.Ok? then Ok(FlaggedExt(r.value, required)) else r)
  {
  }

  lemma {:induction false} FlaggedDecode(b: Bytes, bs: seq<Builder>, required: bool, crypto: Crypto)
    ensures DecodeExts(b, AllFlagged(bs, required), Server, crypto) ==
      Built(AllFlagged(DecodeExts(b, bs, Server, crypto).builders, required), DecodeExts(b, bs, Server, crypto).exts)
    decreases |b|
  {
    if |b| >= 5 && |b| - 5 >= GetU32Le(b[1..]) {
      var len := GetU32Le(b[1..]);
      var i := Find(bs, b[0]);
      FlaggedFind(bs, b[0], required);
      DecodeOne(b, bs, Server, crypto, len, i);
      DecodeOne(b, AllFlagged(bs, required), Server, crypto, len, i);
      if i == |bs| {
        FlaggedDecode(b[5 + len..], bs, required, crypto);
      } else {
        var nb := BuildFrom(bs[i], b[5..5 + len], Server, crypto).0;
        assert AllFlagged(bs, required)[i] == Flagged(bs[i], required);
        FlaggedBuildFrom(bs[i], b[5..5 + len], required, crypto);
        FlaggedUpdate(bs, i, nb, required);
        FlaggedDecode(b[5 + len..], bs[i := nb], required, crypto);
      }
    }
  }

  function FlaggedExts(es: seq<Ext>, required: bool): seq<Ext> {
    if es == [] then [] else [FlaggedExt(es[0], required)] + FlaggedExts(es[1..], required)
  }

  lemma {:induction false} FlaggedBuildAll(bs: seq<Builder>, k: nat, required: bool, draw: Draw, crypto: Crypto)
    requires k <= |bs|
    ensures var built := BuildAll(bs, k, Server, draw, crypto);
      BuildAll(AllFlagged(bs, required), k, Server, draw, crypto) ==
        Built(AllFlagged(built.builders, required),
              if built.exts.Ok? then Ok(FlaggedExts(built.exts.value, required)) else built.exts)
    decreases |bs| - k
  {
    if k < |bs| {
      var (b, r) := BuildTo(bs[k], Server, draw(k), crypto);
      assert AllFlagged(bs, required)[k] == Flagged(bs[k], required);
      FlaggedBuildTo(bs[k], draw(k), required, crypto);
      FlaggedUpdate(bs, k, b, required);
      FlaggedBuildAll(bs[k := b], k + 1, required, draw, crypto);
    }
  }

  lemma {:induction false} FlaggedToEntries(es: seq<Ext>, required: bool)
    ensures ToEntries(FlaggedExts(es, required)).Ok? == ToEntries(es).Ok?
    ensures ToEntries(es).Err? ==> ToEntries(FlaggedExts(es, required)) == ToEntries(es)
    decreases |es|
  {
    if es != [] {
      assert FlaggedExts(es, required)[1..] == FlaggedExts(es[1..], required);
      FlaggedToEntries(es[1..], required);
    }
  }

  lemma FlaggedOffer(bs: seq<Builder>, required: bool, draw: Draw, crypto: Crypto)
    ensures var (bs', es) := Offer(bs, Server, draw, crypto);
      var (fs', fes) := Offer(AllFlagged(bs, required), Server, draw, crypto);
      fs' == AllFlagged(bs', required) && fes.Ok? == es.Ok? && (es.Err? ==> fes == es)
  {
    FlaggedBuildAll(bs, 0, required, draw, crypto);
    var built := BuildAll(bs, 0, Server, draw, crypto);
    if built.exts.Ok? { FlaggedToEntries(built.exts.value, required); }
  }

  lemma {:induction false} FlaggedSupported(exts: seq<Ext>, bs: seq<Builder>, required: bool)
    ensures Supported(exts, AllFlagged(bs, required)) == Supported(exts, bs)
    decreases |exts|
  {
    FlaggedIds(bs, required);
    if exts != [] { FlaggedSupported(exts[1..], bs, required); }
  }

  /** Whatever the client sends, the server's handshake ends in the same way if all its builders say that their
      extension is required and if none does. */
  lemma RequiredIsIgnored(sb: seq<Builder>, bufferSize: u32, toServer: seq<Bytes>, draw: Draw, crypto: Crypto,
                          required: bool)
    ensures ServerSide(Some(AllFlagged(sb, required)), bufferSize, toServer, draw, crypto).outcome ==
      ServerSide(Some(sb), bufferSize, toServer, draw, crypto).outcome
  {
    FlaggedOffer(sb, required, draw, crypto);
    var bs := Offer(sb, Server, draw, crypto).0;
    if toServer != [] && |toServer[0]| >= 7 {
      var b := toServer[0][7..];
      FlaggedDecode(b, bs, required, crypto);
      var built := DecodeExts(b, bs, Server, crypto);
      if built.exts.Ok? { FlaggedSupported(built.exts.value, built.builders, required); }
    }
  }

  // ---------- The check that enforces ----------

  function Missing(exts: seq<Ext>, ids: seq<u8>): seq<u8> {
    if ids == [] then []
    else Missing(exts, ids[..|ids| - 1]) + (if ids[|ids| - 1] in ExtIds(exts) then [] else [ids[|ids| - 1]])
  }

  /** The loop of `with_required_extensions`; the connection is closed unless nothing is missing. */
  method UnsupportedExtensions(exts: seq<Ext>, ids: seq<u8>) returns (missing: seq<u8>)
    ensures missing == Missing(exts, ids)
  {
    missing := [];
    for i := 0 to |ids|
      invariant missing == Missing(exts, ids[..i])
    {
      var found := false;
      for j := 0 to |exts|
        invariant found <==> ids[i] in ExtIds(exts)[..j]
      {
        assert ExtIds(exts)[..j + 1] == ExtIds(exts)[..j] + [ExtId(exts[j])];
        if ExtId(exts[j]) == ids[i] { found := true; }
      }
      assert ExtIds(exts)[..|exts|] == ExtIds(exts);
      assert ids[..i + 1][..i] == ids[..i];
      if !found { missing := missing + [ids[i]]; } else { assert missing + [] == missing; }
    }
    assert ids[..|ids|] == ids;
  }

  lemma {:induction false} MissingExactly(exts: seq<Ext>, ids: seq<u8>)
    ensures Missing(exts, ids) == [] <==> forall i :: 0 <= i < |ids| ==> Contains(exts, ids[i])
    decreases |ids|
  {
    if ids != [] {
      var n := |ids| - 1;
      var front := ids[..n];
      MissingExactly(exts, front);
      ContainsIds(exts, ids[n]);
      forall i | 0 <= i < n ensures front[i] == ids[i] {}
      assert ids == front + [ids[n]];
      assert Missing(exts, ids) == [] <==> Missing(exts, front) == [] && Contains(exts, ids[n]);
    }
  }

  lemma ContainsIds(exts: seq<Ext>, id: u8)
    ensures id in ExtIds(exts) <==> Contains(exts, id)
  {
    if id in ExtIds(exts) {
      var i :| 0 <= i < |ExtIds(exts)| && ExtIds(exts)[i] == id;
      assert exts[i] in exts;
    }
    if e :| e in exts && ExtId(e) == id {
      var i :| 0 <= i < |exts| && exts[i] == e;
      assert ExtIds(exts)[i] == id;
    }
  }

  /** With the check for the password extension every client that gets in has sent a user and password of the table. */
  lemma CheckedClientsAreAuthentic(sb: seq<Builder>, k: nat, ids: seq<u8>, bufferSize: u32, toServer: seq<Bytes>,
                                   draw: Draw, crypto: Crypto) returns (es: seq<Entry>)
    requires FirstFor(sb, k) && sb[k].PasswordServerBefore? && PASSWORD_ID in ids
    requires ServerSide(Some(sb), bufferSize, toServer, draw, crypto).outcome.Done?
    requires Missing(ServerSide(Some(sb), bufferSize, toServer, draw, crypto).outcome.exts, ids) == []
    ensures toServer != [] && |toServer[0]| >= 7 && es == SplitEntries(toServer[0][7..]).0
    ensures Count(es, PASSWORD_ID) == 1
    ensures exists e :: Authentic(e, es, sb[k].users)
  {
    var outcome := ServerSide(Some(sb), bufferSize, toServer, draw, crypto).outcome;
    MissingExactly(outcome.exts, ids);
    assert Id(sb[k]) in IdSet(sb);
    ServerReportsExactly(sb, PASSWORD_ID, bufferSize, toServer, draw, crypto);
    es := SplitEntries(toServer[0][7..]).0;
    ServerPasswordSound(sb, k, bufferSize, toServer, draw, crypto, es, outcome.exts);
    var e :| e in outcome.exts && ExtId(e) == PASSWORD_ID;
    assert Authentic(e, es, sb[k].users);
  }
}
