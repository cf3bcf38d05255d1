/** The life of streams on a server, whatever ids the client uses, and which events end an actor of either side. */
module MuxServing {
  import opened Common
  import opened Packets
  import opened MuxSpec
  import opened MuxClosing

  // ---------- The end of an actor ----------

  /** Nobody waits for new streams any more. */
  predicate Unheard(log: seq<Event>) {
    exists i :: 0 <= i < |log| && log[i].Unlisten?
  }

  /** The event ends the actor of a side, after the events before it. */
  predicate EndsSide(role: Role, before: seq<Event>, e: Event) {
    match e
    case EndFut(_, _) => true
    case ReadFailed => true
    case ReadEnded => true
    case Message(p) =>
      || (p.body.Close? && p.streamId == 0)
      || (p.body.Connect? && (role.Client? || Unheard(before)))
      || (p.body.Continue? && role.Server?)
    case _ => false
  }

  predicate Stopped(role: Role, log: seq<Event>) {
    exists i :: 0 <= i < |log| && EndsSide(role, log[..i], log[i])
  }

  lemma UnheardSnoc(log: seq<Event>, e: Event)
    ensures Unheard(log + [e]) <==> Unheard(log) || e.Unlisten?
  {
    var l := log + [e];
    if i :| 0 <= i < |log| && log[i].Unlisten? { assert l[i].Unlisten?; }
    if e.Unlisten? { assert l[|log|].Unlisten?; }
    if i :| 0 <= i < |l| && l[i].Unlisten? { assert i < |log| ==> l[i] == log[i]; }
  }

  lemma StoppedSnoc(role: Role, log: seq<Event>, e: Event)
    ensures Stopped(role, log + [e]) <==> Stopped(role, log) || EndsSide(role, log, e)
  {
    var l := log + [e];
    assert l[..|log|] == log && l[|log|] == e;
    forall i | 0 <= i < |log| ensures l[..i] == log[..i] && l[i] == log[i] {}
    if i :| 0 <= i < |log| && EndsSide(role, log[..i], log[i]) { assert EndsSide(role, l[..i], l[i]); }
    if EndsSide(role, log, e) { assert EndsSide(role, l[..|log|], l[|log|]); }
  }

  predicate RunsAsLogged(role: Role, log: seq<Event>, m: Mux) {
    (m.running <==> !Stopped(role, log)) && (m.running ==> (m.listening <==> !Unheard(log)))
  }

  lemma RunsNext(c: Config, log: seq<Event>, e: Event, m: Mux)
    requires Sound(m) && RunsAsLogged(c.role, log, m)
    ensures RunsAsLogged(c.role, log + [e], Handle(c, m, e).mux)
  {
    UnheardSnoc(log, e);
    StoppedSnoc(c.role, log, e);
  }

  /** For every log of either side: the actor runs exactly until it is told to end, the transport or the event channel
      is exhausted or fails, or a packet arrives that ends it: a Close for stream 0; on a client any Connect; on a
      server a Connect nobody waits for, or a Continue. */
  lemma {:induction false} RunsExactly(c: Config, log: seq<Event>)
    ensures RunsAsLogged(c.role, log, Run(c, log).0)
    decreases |log|
  {
    if log != [] {
      var k := |log| - 1;
      RunsExactly(c, log[..k]);
      RunsNext(c, log[..k], log[k], Run(c, log[..k]).0);
      assert log[..k] + [log[k]] == log;
    }
  }

  // ---------- Streams of a server ----------

  predicate IsServing(log: seq<Event>) {
    forall i :: 0 <= i < |log| ==> !log[i].CreateStream?
  }

  /** The positions of the Connect packets a running server has handled. */
  function Opened(log: seq<Event>): (at: seq<nat>)
    ensures forall k :: 0 <= k < |at| ==> at[k] < |log| && log[at[k]].Message? && log[at[k]].packet.body.Connect?
  {
    if log == [] then []
    else
      var n := |log| - 1;
      var e := log[n];
      if e.Message? && e.packet.body.Connect? && !Stopped(Server, log[..n]) then Opened(log[..n]) + [n]
      else Opened(log[..n])
  }

  /** The code of the reason with which an event of a running server closes the open stream with this id: its own reason
      for a request to close it, none in particular if another stream takes the id or the actor ends. */
  function FateOf(before: seq<Event>, e: Event, id: u32): Option<u8> {
    if EndsSide(Server, before, e) then Some(ReasonCode(Unknown))
    else
      match e
      case LocalClose(i, reason, _) => if i == id then Some(ReasonCode(reason)) else None
      case Message(p) =>
        if p.streamId != id then None
        else if p.body.Close? then Some(ReasonCode(p.body.reason))
        else if p.body.Connect? then Some(ReasonCode(Unknown)) else None
      case _ => None
  }

  /** What closed the stream that was opened at position `a`, if anything has. */
  function Fate(log: seq<Event>, a: nat, id: u32): Option<u8> {
    if |log| <= a + 1 then None
    else
      var before := log[..|log| - 1];
      var earlier := Fate(before, a, id);
      if earlier.Some? then earlier else FateOf(before, log[|log| - 1], id)
  }

  lemma FateSnoc(log: seq<Event>, e: Event, a: nat, id: u32)
    requires a < |log|
    ensures Fate(log + [e], a, id) == if Fate(log, a, id).Some? then Fate(log, a, id) else FateOf(log, e, id)
  {
    assert (log + [e])[..|log|] == log;
  }

  predicate ServedAt(log: seq<Event>, m: Mux, k: nat) {
    k < |m.streams| && k < |Opened(log)| &&
    var a, s := Opened(log)[k], m.streams[k];
    var id := log[a].packet.streamId;
    var fate := if EndsSide(Server, log[..a], log[a]) then Some(ReasonCode(Unknown)) else Fate(log, a, id);
    && s.id == id && (s.connected <==> fate.None?)
    && s.reason == (if fate.Some? then fate.value else ReasonCode(Unknown))
    && (s.connected ==> id in m.table && m.table[id] == k)
  }

  ghost predicate Served(log: seq<Event>, m: Mux) {
    && RunsAsLogged(Server, log, m) && |m.streams| == |Opened(log)|
    && (forall k :: 0 <= k < |m.streams| ==> ServedAt(log, m, k))
    && (forall id :: id in m.table ==>
          m.table[id] < |m.streams| && m.streams[m.table[id]].connected && m.streams[m.table[id]].id == id)
    && (!m.running ==> m.table == map[])
  }

  lemma OpenedSnoc(log: seq<Event>, e: Event)
    ensures Opened(log + [e]) ==
      Opened(log) + if e.Message? && e.packet.body.Connect? && !Stopped(Server, log) then [|log|] else []
  {
    assert (log + [e])[..|log|] == log && (log + [e])[|log|] == e;
  }

  /** What an event does to one stream: its fate, if it is open. */
  predicate Treated(before: seq<Event>, e: Event, m: Mux, after: Mux, k: nat)
    requires k < |m.streams|
  {
    var s := m.streams[k];
    var fate := if s.connected then FateOf(before, e, s.id) else None;
    && k < |after.streams| && after.streams[k].id == s.id
    && after.streams[k].connected == (s.connected && fate.None?)
    && after.streams[k].reason == (if fate.Some? then fate.value else s.reason)
    && (after.streams[k].connected ==> s.id in after.table && after.table[s.id] == k)
  }

  /** Open streams are in the table, and have no reason yet. */
  predicate InTable(m: Mux, k: nat)
    requires k < |m.streams|
  {
    m.streams[k].connected ==>
      && m.streams[k].id in m.table && m.table[m.streams[k].id] == k
      && m.streams[k].reason == ReasonCode(Unknown)
  }

  predicate TableOfOpen(m: Mux) {
    forall id :: id in m.table ==>
      m.table[id] < |m.streams| && m.streams[m.table[id]].connected && m.streams[m.table[id]].id == id
  }

  predicate BeforeEvent(c: Config, before: seq<Event>, m: Mux) {
    c.role.Server? && Sound(m) && TableOfOpen(m) && m.running && (m.listening <==> !Unheard(before))
  }

  lemma TreatsOnConnect(c: Config, before: seq<Event>, p: Packet, m: Mux, k: nat)
    requires BeforeEvent(c, before, m) && p.body.Connect? && k < |m.streams| && InTable(m, k)
    ensures Treated(before, Message(p), m, HandlePacket(c, m, p), k)
  {
  }

  lemma TreatsOnPacket(c: Config, before: seq<Event>, p: Packet, m: Mux, k: nat)
    requires BeforeEvent(c, before, m) && !p.body.Connect? && k < |m.streams| && InTable(m, k)
    ensures Treated(before, Message(p), m, HandlePacket(c, m, p), k)
  {
  }

  lemma TreatsEach(c: Config, before: seq<Event>, e: Event, m: Mux, k: nat)
    requires BeforeEvent(c, before, m) && !e.CreateStream? && k < |m.streams| && InTable(m, k)
    ensures Treated(before, e, m, Handle(c, m, e).mux, k)
  {
    if e.Message? {
      if e.packet.body.Connect? { TreatsOnConnect(c, before, e.packet, m, k); }
      else { TreatsOnPacket(c, before, e.packet, m, k); }
    }
  }

  /** What an event does to the table, and which stream it adds. */
  predicate TableKept(before: seq<Event>, e: Event, m: Mux, after: Mux) {
    && TableOfOpen(after) && (!after.running ==> after.table == map[])
    && (if e.Message? && e.packet.body.Connect? then
          && |after.streams| == |m.streams| + 1 && after.streams[|m.streams|].id == e.packet.streamId
          && after.streams[|m.streams|].reason == ReasonCode(Unknown)
          && (after.streams[|m.streams|].connected <==> !EndsSide(Server, before, e))
          && InTable(after, |m.streams|)
        else |after.streams| == |m.streams|)
  }

  lemma KeepsOnConnect(c: Config, before: seq<Event>, p: Packet, m: Mux)
    requires BeforeEvent(c, before, m) && p.body.Connect?
    ensures TableKept(before, Message(p), m, HandlePacket(c, m, p))
  {
  }

  lemma KeepsTable(c: Config, before: seq<Event>, e: Event, m: Mux)
    requires BeforeEvent(c, before, m) && !e.CreateStream?
    ensures TableKept(before, e, m, Handle(c, m, e).mux)
  {
    if e.Message? && e.packet.body.Connect? { KeepsOnConnect(c, before, e.packet, m); }
  }

  lemma ServedKept(log: seq<Event>, e: Event, m: Mux, after: Mux, k: nat)
    requires k < |m.streams| && ServedAt(log, m, k) && Treated(log, e, m, after, k)
    requires !Stopped(Server, log) || !m.streams[k].connected
    ensures ServedAt(log + [e], after, k)
  {
    OpenedSnoc(log, e);
    var a := Opened(log)[k];
    assert (log + [e])[..a] == log[..a] && (log + [e])[a] == log[a];
    FateSnoc(log, e, a, log[a].packet.streamId);
  }

  lemma ServedNew(log: seq<Event>, e: Event, m: Mux, after: Mux)
    requires |m.streams| == |Opened(log)| && !Stopped(Server, log)
    requires e.Message? && e.packet.body.Connect? && TableKept(log, e, m, after)
    ensures ServedAt(log + [e], after, |m.streams|)
  {
    OpenedSnoc(log, e);
    assert (log + [e])[..|log|] == log;
  }

  lemma ServedNext(c: Config, log: seq<Event>, e: Event, m: Mux)
    requires c.role.Server? && !e.CreateStream? && Sound(m) && Served(log, m)
    ensures Served(log + [e], Handle(c, m, e).mux)
  {
    var after := Handle(c, m, e).mux;
    RunsNext(c, log, e, m);
    OpenedSnoc(log, e);
    if m.running {
      KeepsTable(c, log, e, m);
      forall k | 0 <= k < |m.streams| ensures ServedAt(log + [e], after, k) {
        assert ServedAt(log, m, k);
        TreatsEach(c, log, e, m, k);
        ServedKept(log, e, m, after, k);
      }
      if e.Message? && e.packet.body.Connect? { ServedNew(log, e, m, after); }
    } else {
      forall k | 0 <= k < |m.streams| ensures ServedAt(log + [e], after, k) {
        assert ServedAt(log, m, k);
        ServedKept(log, e, m, m, k);
      }
    }
  }

  /** For every log of a server, whatever ids the client puts into its packets: the k-th stream is the one the k-th
      Connect packet asked for. It is open exactly until the first event after that closes it (a Close packet or a
      request of the server for its id, another Connect with its id, or the end of the actor), and then its halves see
      the reason of that event, and no reason if another stream took its id or the actor ended. */
  lemma {:induction false} ServedExactly(c: Config, log: seq<Event>)
    requires c.role.Server? && IsServing(log)
    ensures Served(log, Run(c, log).0)
    decreases |log|
  {
    if log != [] {
      var k := |log| - 1;
      ServedExactly(c, log[..k]);
      ServedNext(c, log[..k], log[k], Run(c, log[..k]).0);
      assert log[..k] + [log[k]] == log;
    }
  }
}
