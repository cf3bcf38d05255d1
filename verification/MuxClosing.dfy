/** The life of streams on a client: ids, and which close reason a stream ends up with. */
module MuxClosing {
  import opened Common
  import opened Packets
  import opened MuxSpec

  // ---------- What an event log says ----------

  /** This event ends a client's actor. */
  predicate Ends(e: Event) {
    match e
    case EndFut(_, _) => true
    case Message(p) => p.body.Connect? || (p.body.Close? && p.streamId == 0)
    case ReadFailed => true
    case ReadEnded => true
    case _ => false
  }

  predicate Ended(log: seq<Event>) {
    exists i :: 0 <= i < |log| && Ends(log[i])
  }

  /** The streams created before the actor ended. */
  function Created(log: seq<Event>): (n: nat)
    ensures n <= U32_MAX
  {
    if log == [] then 0
    else
      var before := log[..|log| - 1];
      if log[|log| - 1].CreateStream? && !Ended(before) && Created(before) < U32_MAX then Created(before) + 1
      else Created(before)
  }

  /** The event asks to close the stream: locally, or by a packet from the peer. */
  function CloseOf(e: Event, id: u32): Option<CloseReason> {
    match e
    case LocalClose(i, reason, _) => if i == id then Some(reason) else None
    case Message(p) => if p.body.Close? && p.streamId == id then Some(p.body.reason) else None
    case _ => None
  }

  /** The event at position `i` asks to close the stream while it exists and the actor runs. */
  predicate CloseAt(log: seq<Event>, i: nat, id: u32) {
    i < |log| && CloseOf(log[i], id).Some? && !Ended(log[..i]) && id <= Created(log[..i])
  }

  predicate FirstCloseAt(log: seq<Event>, i: nat, id: u32) {
    CloseAt(log, i, id) && forall j :: 0 <= j < i ==> !CloseAt(log, j, id)
  }

  /** The reason of the first request to close the stream. */
  function FirstReason(log: seq<Event>, id: u32): Option<CloseReason> {
    if log == [] then None
    else
      var before := log[..|log| - 1];
      var earlier := FirstReason(before, id);
      if earlier.Some? then earlier
      else if CloseAt(log, |log| - 1, id) then CloseOf(log[|log| - 1], id)
      else None
  }

  lemma CloseAtPrefix(log: seq<Event>, i: nat, k: nat, id: u32)
    requires i < k <= |log|
    ensures CloseAt(log[..k], i, id) <==> CloseAt(log, i, id)
  {
    assert log[..k][..i] == log[..i];
  }

  lemma FirstAtPrefix(log: seq<Event>, i: nat, id: u32)
    requires i < |log| - 1 && FirstCloseAt(log, i, id)
    ensures FirstCloseAt(log[..|log| - 1], i, id) && log[..|log| - 1][i] == log[i]
  {
    var k := |log| - 1;
    CloseAtPrefix(log, i, k, id);
    forall j | 0 <= j < i ensures !CloseAt(log[..k], j, id) { CloseAtPrefix(log, j, k, id); }
  }

  /** `FirstReason` is what its name says. */
  lemma {:induction false} FirstReasonIsFirst(log: seq<Event>, id: u32)
    ensures FirstReason(log, id).None? <==> forall i :: 0 <= i < |log| ==> !CloseAt(log, i, id)
    ensures forall i: nat :: FirstCloseAt(log, i, id) ==> FirstReason(log, id) == CloseOf(log[i], id)
    decreases |log|
  {
    if log != [] {
      var k := |log| - 1;
      FirstReasonIsFirst(log[..k], id);
      forall i | 0 <= i < k ensures CloseAt(log[..k], i, id) <==> CloseAt(log, i, id) { CloseAtPrefix(log, i, k, id); }
      forall i: nat | FirstCloseAt(log, i, id) ensures FirstReason(log, id) == CloseOf(log[i], id) {
        if i < k {
          FirstAtPrefix(log, i, id);
        } else {
          assert FirstReason(log[..k], id).None?;
        }
      }
    }
  }

  // ---------- The actor ----------

  /** A client's state after a log, and the packets it has sent. */
  function Run(c: Config, log: seq<Event>): (r: (Mux, seq<Packet>))
    ensures Sound(r.0)
  {
    if log == [] then (Fresh, [])
    else
      var (m, sent) := Run(c, log[..|log| - 1]);
      var h := Handle(c, m, log[|log| - 1]);
      HandleSound(c, m, log[|log| - 1]);
      (h.mux, if h.sent.Some? then sent + [h.sent.value] else sent)
  }

  /** The stream with id `n + 1` is what the log says. */
  predicate StreamAsLogged(log: seq<Event>, m: Mux, n: nat) {
    n < |m.streams| && n < U32_MAX &&
    var s, first := m.streams[n], FirstReason(log, n + 1);
    && s.id == n + 1
    && (s.connected <==> !Ended(log) && first.None?)
    && s.reason == ReasonCode(if first.Some? then first.value else Unknown)
    && (n + 1 in m.table <==> s.connected)
    && (n + 1 in m.table ==> m.table[n + 1] == n)
  }

  ghost predicate AsLogged(log: seq<Event>, m: Mux) {
    && CountsAsLogged(log, m)
    && (forall id :: id in m.table ==> 1 <= id <= Created(log))
    && (forall n :: 0 <= n < Created(log) ==> StreamAsLogged(log, m, n))
    && (!m.running ==> m.table == map[] && forall n :: 0 <= n < |m.streams| ==> !m.streams[n].connected)
  }

  lemma EndedSnoc(log: seq<Event>, e: Event)
    ensures Ended(log + [e]) <==> Ended(log) || Ends(e)
  {
    var l := log + [e];
    if i :| 0 <= i < |log| && Ends(log[i]) { assert Ends(l[i]); }
    if Ends(e) { assert Ends(l[|log|]); }
    if i :| 0 <= i < |l| && Ends(l[i]) { assert i < |log| ==> l[i] == log[i]; }
  }

  lemma LogSnoc(log: seq<Event>, e: Event, id: u32)
    ensures Created(log + [e]) ==
      if e.CreateStream? && !Ended(log) && Created(log) < U32_MAX then Created(log) + 1 else Created(log)
    ensures FirstReason(log + [e], id) ==
      if FirstReason(log, id).Some? then FirstReason(log, id)
      else if CloseOf(e, id).Some? && !Ended(log) && id <= Created(log) then CloseOf(e, id) else None
  {
    var l := log + [e];
    assert l[..|l| - 1] == log && l[|l| - 1] == e;
    assert CloseAt(l, |l| - 1, id) <==> CloseOf(e, id).Some? && !Ended(log) && id <= Created(log);
  }

  /** A stream cannot be closed before it is created. */
  lemma {:induction false} NoReasonBeforeCreation(log: seq<Event>, id: u32)
    requires id > Created(log)
    ensures FirstReason(log, id).None?
    decreases |log|
  {
    if log != [] {
      var k := |log| - 1;
      assert log == log[..k] + [log[k]];
      LogSnoc(log[..k], log[k], id);
      NoReasonBeforeCreation(log[..k], id);
    }
  }

  /** The scalar part of `AsLogged`. */
  predicate CountsAsLogged(log: seq<Event>, m: Mux) {
    && (m.running <==> !Ended(log))
    && m.currentId == Created(log) <= |m.streams|
    && (m.running ==> |m.streams| == Created(log))
  }

  lemma OldStreamAsLogged(c: Config, log: seq<Event>, e: Event, m: Mux, n: nat)
    requires c.role.Client? && Sound(m) && CountsAsLogged(log, m) && StreamAsLogged(log, m, n) && n < Created(log)
    requires forall id :: id in m.table ==> m.table[id] == id - 1
    requires !m.running ==> m.table == map[]
    ensures StreamAsLogged(log + [e], Handle(c, m, e).mux, n)
  {
    HandleChangesLife(c, m, e, n);
    LifeAsLogged(log, e, m, Handle(c, m, e).mux, n);
  }

  /** What an event does to the life of a stream. */
  predicate LifeAfter(e: Event, m: Mux, m': Mux, n: nat) {
    n < |m.streams| && n < |m'.streams| && n < U32_MAX &&
    var s, s' := m.streams[n], m'.streams[n];
    && s'.id == s.id && (n + 1 in m'.table ==> n + 1 in m.table && m'.table[n + 1] == m.table[n + 1])
    && if m.running && Ends(e) then
         && !s'.connected && (s'.reason == s.reason || (s.connected && s'.reason == ReasonCode(Unknown)))
         && n + 1 !in m'.table
       else if m.running && CloseOf(e, n + 1).Some? && n + 1 in m.table then
         && !s'.connected && s'.reason == ReasonCode(CloseOf(e, n + 1).value)
         && n + 1 !in m'.table
       else
         s'.connected == s.connected && s'.reason == s.reason && (n + 1 in m.table ==> n + 1 in m'.table)
  }

  lemma LifeAsLogged(log: seq<Event>, e: Event, m: Mux, m': Mux, n: nat)
    requires CountsAsLogged(log, m) && StreamAsLogged(log, m, n) && n < Created(log) && LifeAfter(e, m, m', n)
    ensures StreamAsLogged(log + [e], m', n)
  {
    EndedSnoc(log, e);
    LogSnoc(log, e, n + 1);
  }

  lemma HandleChangesLife(c: Config, m: Mux, e: Event, n: nat)
    requires c.role.Client? && Sound(m) && m.currentId <= |m.streams| && n < m.currentId
    requires forall id :: id in m.table ==> m.table[id] == id - 1
    requires m.running ==> |m.streams| == m.currentId
    ensures LifeAfter(e, m, Handle(c, m, e).mux, n)
  {
    if m.running && e.Message? { PacketChangesLife(c, m, e.packet, n); }
  }

  lemma PacketChangesLife(c: Config, m: Mux, p: Packet, n: nat)
    requires c.role.Client? && Sound(m) && m.running && n < |m.streams| && n < U32_MAX
    requires forall id :: id in m.table ==> m.table[id] == id - 1
    ensures LifeAfter(Message(p), m, HandlePacket(c, m, p), n)
  {
    if p.body.Data? || p.body.Continue? { DataChangesNoLife(c, m, p, n); }
  }

  lemma DataChangesNoLife(c: Config, m: Mux, p: Packet, n: nat)
    requires c.role.Client? && Sound(m) && n < |m.streams| && (p.body.Data? || p.body.Continue?)
    ensures var m' := HandlePacket(c, m, p);
      && m'.table == m.table && |m'.streams| == |m.streams| && m'.running == m.running && m'.currentId == m.currentId
      && m'.streams[n] == m.streams[n].(queue := m'.streams[n].queue, credit := m'.streams[n].credit)
  {
  }

  lemma NewStreamAsLogged(c: Config, log: seq<Event>, e: Event, m: Mux, n: nat)
    requires c.role.Client? && Sound(m) && CountsAsLogged(log, m) && n + 1 == Created(log + [e]) > Created(log)
    requires forall id :: id in m.table ==> 1 <= id <= Created(log)
    ensures StreamAsLogged(log + [e], Handle(c, m, e).mux, n)
  {
    EndedSnoc(log, e);
    LogSnoc(log, e, n + 1);
    NoReasonBeforeCreation(log, n + 1);
  }

  lemma TableAsLogged(c: Config, log: seq<Event>, e: Event, m: Mux)
    requires c.role.Client? && Sound(m) && CountsAsLogged(log, m)
    requires forall id :: id in m.table ==> 1 <= id <= Created(log)
    requires !m.running ==> m.table == map[] && forall n :: 0 <= n < |m.streams| ==> !m.streams[n].connected
    ensures var m', l := Handle(c, m, e).mux, log + [e];
      && CountsAsLogged(l, m')
      && (forall id :: id in m'.table ==> 1 <= id <= Created(l))
      && (!m'.running ==> m'.table == map[] && forall n :: 0 <= n < |m'.streams| ==> !m'.streams[n].connected)
  {
    EndedSnoc(log, e);
    LogSnoc(log, e, 0);
  }

  lemma StepAsLogged(c: Config, log: seq<Event>, e: Event, m: Mux)
    requires c.role.Client? && Sound(m) && AsLogged(log, m)
    ensures AsLogged(log + [e], Handle(c, m, e).mux)
  {
    var m', l := Handle(c, m, e).mux, log + [e];
    TableAsLogged(c, log, e, m);
    LogSnoc(log, e, 0);
    forall id | id in m.table ensures m.table[id] == id - 1 { assert StreamAsLogged(log, m, id - 1); }
    forall n | 0 <= n < Created(l) ensures StreamAsLogged(l, m', n) {
      if n < Created(log) {
        OldStreamAsLogged(c, log, e, m, n);
      } else {
        NewStreamAsLogged(c, log, e, m, n);
      }
    }
  }

  lemma {:induction false} RunAsLogged(c: Config, log: seq<Event>)
    requires c.role.Client?
    ensures AsLogged(log, Run(c, log).0)
    decreases |log|
  {
    if log != [] {
      var k := |log| - 1;
      RunAsLogged(c, log[..k]);
      StepAsLogged(c, log[..k], log[k], Run(c, log[..k]).0);
      assert log[..k] + [log[k]] == log;
    }
  }

  // ---------- Packets sent ----------

  predicate IsClose(p: Packet) {
    p.body.Close? && p.streamId != 0
  }

  /** Two packets that must not both be sent, or not in this order. */
  predicate Clash(first: Packet, second: Packet) {
    || (IsClose(first) && IsClose(second) && first.streamId == second.streamId)
    || (first.body.Connect? && second.body.Connect? && first.streamId >= second.streamId)
  }

  predicate SentAsLogged(log: seq<Event>, sent: seq<Packet>) {
    && (forall i :: 0 <= i < |sent| && IsClose(sent[i]) ==> FirstReason(log, sent[i].streamId).Some?)
    && (forall i :: 0 <= i < |sent| && sent[i].body.Connect? ==> 1 <= sent[i].streamId <= Created(log))
    && (forall i, j :: 0 <= i < j < |sent| ==> !Clash(sent[i], sent[j]))
  }

  /** The packets an actor sends by itself. */
  predicate Sends(m: Mux, e: Event, p: Packet) {
    m.running &&
    ( || (e.CreateStream? && m.currentId < U32_MAX && p.body.Connect? && p.streamId == m.currentId + 1)
      || (e.LocalClose? && e.id in m.table && p.body.Close? && p.streamId == e.id)
      || (e.EndFut? && p.body.Close? && p.streamId == 0))
  }

  lemma SentBy(c: Config, m: Mux, e: Event)
    requires Sound(m)
    ensures Handle(c, m, e).sent.Some? ==> Sends(m, e, Handle(c, m, e).sent.value)
  {
  }

  lemma AddSent(log: seq<Event>, e: Event, m: Mux, sent: seq<Packet>, p: Packet)
    requires AsLogged(log, m) && SentAsLogged(log, sent) && Sends(m, e, p)
    ensures SentAsLogged(log + [e], sent + [p])
  {
    var l := log + [e];
    EndedSnoc(log, e);
    forall id ensures FirstReason(log, id).Some? ==> FirstReason(l, id).Some? { LogSnoc(log, e, id); }
    LogSnoc(log, e, if e.LocalClose? then e.id else 0);
    if e.LocalClose? { assert StreamAsLogged(log, m, e.id - 1); }
  }

  lemma StepSentAsLogged(c: Config, log: seq<Event>, e: Event, m: Mux, sent: seq<Packet>)
    requires c.role.Client? && Sound(m) && AsLogged(log, m) && SentAsLogged(log, sent)
    ensures var h := Handle(c, m, e);
      SentAsLogged(log + [e], if h.sent.Some? then sent + [h.sent.value] else sent)
  {
    SentBy(c, m, e);
    var h := Handle(c, m, e);
    if h.sent.Some? {
      AddSent(log, e, m, sent, h.sent.value);
    } else {
      LogSnoc(log, e, 0);
      forall id ensures FirstReason(log, id).Some? ==> FirstReason(log + [e], id).Some? { LogSnoc(log, e, id); }
    }
  }

  lemma {:induction false} RunSentAsLogged(c: Config, log: seq<Event>)
    requires c.role.Client?
    ensures SentAsLogged(log, Run(c, log).1)
    decreases |log|
  {
    if log != [] {
      var k := |log| - 1;
      RunSentAsLogged(c, log[..k]);
      RunAsLogged(c, log[..k]);
      StepSentAsLogged(c, log[..k], log[k], Run(c, log[..k]).0, Run(c, log[..k]).1);
      assert log[..k] + [log[k]] == log;
    }
  }

  /** For every log of a client: stream ids count up from 1 and are never reused; a stream is disconnected
      exactly when a request to close it was processed or the actor has ended; the reason it shows is that of
      the first such request, as far as it survives being stored as its code, or unknown; and later requests change
      nothing.  */
  lemma FirstCloseWins(c: Config, log: seq<Event>, id: u32)
    requires c.role.Client? && 1 <= id <= Created(log)
    ensures id <= |Run(c, log).0.streams|
    ensures var s := Run(c, log).0.streams[id - 1];
      && s.id == id
      && (VisibleReason(s).None? <==> !Ended(log) && forall i :: 0 <= i < |log| ==> !CloseAt(log, i, id))
      && (forall i: nat :: FirstCloseAt(log, i, id) ==>
            && VisibleReason(s) == Some(Stored(CloseOf(log[i], id).value))
            && (VisibleReason(s) == CloseOf(log[i], id) <==> !Aliased(CloseOf(log[i], id).value)))
      && (Ended(log) && (forall i :: 0 <= i < |log| ==> !CloseAt(log, i, id)) ==> VisibleReason(s) == Some(Unknown))
  {
    RunAsLogged(c, log);
    assert StreamAsLogged(log, Run(c, log).0, id - 1);
    FirstReasonIsFirst(log, id);
    forall r ensures Stored(r) == r <==> !Aliased(r) { StoredExactly(r); }
  }

  /** For every log of a client: no stream is left connected once the actor has ended, at most one Close packet
      is sent per stream, and Connect packets carry strictly increasing non-zero ids.  */
  lemma ClientTraffic(c: Config, log: seq<Event>)
    requires c.role.Client?
    ensures var (m, sent) := Run(c, log);
      && (Ended(log) ==> m.table == map[] && forall n :: 0 <= n < |m.streams| ==> !m.streams[n].connected)
      && (forall i, j :: 0 <= i < j < |sent| && IsClose(sent[i]) && IsClose(sent[j]) ==>
            sent[i].streamId != sent[j].streamId)
      && (forall i, j :: 0 <= i < j < |sent| && sent[i].body.Connect? && sent[j].body.Connect? ==>
            0 < sent[i].streamId < sent[j].streamId)
  {
    RunAsLogged(c, log);
    RunSentAsLogged(c, log);
    var sent := Run(c, log).1;
    forall i, j | 0 <= i < j < |sent| ensures !Clash(sent[i], sent[j]) {}
  }
}
