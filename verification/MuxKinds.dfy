/** What kind each stream of an actor is, for every log of either side: bounds, tracking and credit. */
module MuxKinds {
  import opened Common
  import opened Packets
  import opened MuxSpec
  import opened MuxClosing

  /** Open streams are in the table, once, and everything in the table is open. */
  predicate Tidy(m: Mux) {
    && Sound(m) && (!m.running ==> m.table == map[])
    && (forall id :: id in m.table ==> m.streams[m.table[id]].connected && m.streams[m.table[id]].id == id)
    && (forall k :: 0 <= k < |m.streams| && m.streams[k].connected ==> Listed(m, k))
  }

  predicate Listed(m: Mux, k: nat)
    requires k < |m.streams|
  {
    m.streams[k].id in m.table && m.table[m.streams[k].id] == k
  }

  lemma AddTidy(c: Config, m: Mux, id: u32, t: StreamType)
    requires Tidy(m) && m.running
    ensures Tidy(AddStream(c, m, id, t)) && AddStream(c, m, id, t).running
  {
  }

  lemma FinishTidy(m: Mux)
    ensures Tidy(Finish(m))
  {
  }

  lemma CloseTidy(m: Mux, id: u32, reason: CloseReason)
    requires Tidy(m) && m.running
    ensures Tidy(CloseStream(m, id, reason))
  {
  }

  lemma PacketTidy(c: Config, m: Mux, p: Packet)
    requires Tidy(m) && m.running
    ensures Tidy(HandlePacket(c, m, p))
  {
    if p.body.Connect? {
      AddTidy(c, m, p.streamId, p.body.streamType);
      FinishTidy(AddStream(c, m, p.streamId, p.body.streamType));
    } else if p.body.Close? {
      FinishTidy(m);
      CloseTidy(m, p.streamId, p.body.reason);
    } else {
      FinishTidy(m);
    }
  }

  /** What a request with an id left adds, before the packet is sent. */
  function Created(c: Config, m: Mux, e: Event): Mux
    requires Sound(m) && e.CreateStream? && m.currentId < U32_MAX
  {
    AddStream(c, m, m.currentId + 1, e.streamType).(currentId := m.currentId + 1)
  }

  lemma CreatesOne(c: Config, m: Mux, e: Event)
    requires Sound(m) && m.running && e.CreateStream? && m.currentId < U32_MAX
    ensures var after := Handle(c, m, e).mux; after == Created(c, m, e).(connects := after.connects)
  {
  }

  lemma CreatedTidy(c: Config, m: Mux, e: Event)
    requires Tidy(m) && m.running && e.CreateStream? && m.currentId < U32_MAX
    ensures Tidy(Created(c, m, e))
  {
    AddTidy(c, m, m.currentId + 1, e.streamType);
    SameTidy(AddStream(c, m, m.currentId + 1, e.streamType), Created(c, m, e));
  }

  lemma CreateTidy(c: Config, m: Mux, e: Event)
    requires Tidy(m) && m.running && e.CreateStream?
    ensures Tidy(Handle(c, m, e).mux)
  {
    if m.currentId < U32_MAX {
      CreatedTidy(c, m, e);
      CreatesOne(c, m, e);
      SameTidy(Created(c, m, e), Handle(c, m, e).mux);
    }
  }

  lemma SameTidy(m: Mux, m': Mux)
    requires Tidy(m) && m'.table == m.table && m'.streams == m.streams && m'.running == m.running
    ensures Tidy(m')
  {
  }

  lemma TidyNext(c: Config, m: Mux, e: Event)
    requires Tidy(m)
    ensures Tidy(Handle(c, m, e).mux)
  {
    if m.running {
      FinishTidy(m);
      if e.Message? {
        PacketTidy(c, m, e.packet);
      } else if e.LocalClose? {
        CloseTidy(m, e.id, e.reason);
      } else if e.CreateStream? {
        CreateTidy(c, m, e);
      }
    }
  }

  // ---------- What an event does to a stream ----------

  /** The credit that an event gives to the open stream with this id. */
  function Grant(e: Event, id: u32): Option<u32> {
    if e.Message? && e.packet.body.Continue? && e.packet.streamId == id then Some(e.packet.body.bufferRemaining)
    else None
  }

  /** What stays as it is, and what a server takes off for a packet it puts on the queue. */
  predicate Stepped(c: Config, e: Event, s: Stream, after: Stream) {
    && after.id == s.id && after.capacity == s.capacity && after.tracks == s.tracks
    && (after.connected ==> s.connected)
    && (c.role.Server? ==>
          || (after.queue == s.queue && after.credit == s.credit)
          || (|after.queue| == |s.queue| + 1 && after.credit == SatSub(s.credit, 1)))
    && (c.role.Client? && (!s.tracks || Grant(e, s.id).None?) ==> after.credit == s.credit)
    && (c.role.Client? && s.tracks && after.connected && Grant(e, s.id).Some? ==>
          after.credit == Grant(e, s.id).value)
  }

  lemma ConnectSteps(c: Config, m: Mux, p: Packet, k: nat)
    requires Tidy(m) && m.running && k < |m.streams| && p.body.Connect?
    ensures k < |HandlePacket(c, m, p).streams|
    ensures Stepped(c, Message(p), m.streams[k], HandlePacket(c, m, p).streams[k])
  {
    var added := AddStream(c, m, p.streamId, p.body.streamType);
    assert added.streams[k] == m.streams[k] || added.streams[k] == m.streams[k].(connected := false);
  }

  lemma DataSteps(c: Config, m: Mux, p: Packet, k: nat)
    requires Tidy(m) && m.running && k < |m.streams| && p.body.Data?
    ensures k < |HandlePacket(c, m, p).streams|
    ensures Stepped(c, Message(p), m.streams[k], HandlePacket(c, m, p).streams[k])
  {
  }

  lemma OtherSteps(c: Config, m: Mux, p: Packet, k: nat)
    requires Tidy(m) && m.running && k < |m.streams| && !p.body.Connect? && !p.body.Data?
    ensures k < |HandlePacket(c, m, p).streams|
    ensures Stepped(c, Message(p), m.streams[k], HandlePacket(c, m, p).streams[k])
  {
  }

  lemma CreateSteps(c: Config, m: Mux, e: Event, k: nat)
    requires Tidy(m) && m.running && e.CreateStream? && m.currentId < U32_MAX && k < |m.streams|
    ensures k < |Handle(c, m, e).mux.streams| && Stepped(c, e, m.streams[k], Handle(c, m, e).mux.streams[k])
  {
    CreatesOne(c, m, e);
    var added := Created(c, m, e);
    assert added.streams[k] == m.streams[k] || added.streams[k] == m.streams[k].(connected := false);
  }

  lemma EventSteps(c: Config, m: Mux, e: Event, k: nat)
    requires Tidy(m) && k < |m.streams|
    ensures k < |Handle(c, m, e).mux.streams| && Stepped(c, e, m.streams[k], Handle(c, m, e).mux.streams[k])
  {
    if m.running && e.Message? {
      if e.packet.body.Connect? { ConnectSteps(c, m, e.packet, k); }
      else if e.packet.body.Data? { DataSteps(c, m, e.packet, k); }
      else { OtherSteps(c, m, e.packet, k); }
    } else if m.running && e.CreateStream? && m.currentId < U32_MAX {
      CreateSteps(c, m, e, k);
    }
  }

  // ---------- Where streams come from ----------

  /** The event asks for a stream. */
  predicate Asks(e: Event) {
    e.CreateStream? || (e.Message? && e.packet.body.Connect?)
  }

  function TypeOf(e: Event): StreamType
    requires Asks(e)
  {
    if e.CreateStream? then e.streamType else e.packet.body.streamType
  }

  function Limited(c: Config, e: Event): bool
    requires Asks(e)
  {
    StreamCode(TypeOf(e)) in c.flowTypes
  }

  /** A stream as it begins. */
  predicate Begins(c: Config, e: Event, s: Stream) {
    && Asks(e) && s.queue == [] && s.credit == c.bufferSize && s.tracks == (Limited(c, e) && c.role.Client?)
    && s.capacity == (if Limited(c, e) && c.role.Server? then Some(c.bufferSize) else None)
  }

  lemma PacketAdds(c: Config, m: Mux, p: Packet)
    requires Tidy(m) && m.running
    ensures var after := HandlePacket(c, m, p);
      && |after.streams| == |m.streams| + (if p.body.Connect? then 1 else 0)
      && (p.body.Connect? ==> Begins(c, Message(p), after.streams[|m.streams|]))
  {
  }

  lemma EventAdds(c: Config, m: Mux, e: Event)
    requires Tidy(m)
    ensures var after := Handle(c, m, e).mux;
      && |m.streams| <= |after.streams| <= |m.streams| + 1
      && (|after.streams| > |m.streams| ==> Begins(c, e, after.streams[|m.streams|]))
  {
    if m.running && e.CreateStream? && m.currentId < U32_MAX { CreatesOne(c, m, e); }
    if m.running && e.Message? { PacketAdds(c, m, e.packet); }
  }

  predicate Moves(c: Config, e: Event, m: Mux, after: Mux) {
    && |m.streams| <= |after.streams| <= |m.streams| + 1
    && (|after.streams| > |m.streams| ==> Begins(c, e, after.streams[|m.streams|]))
    && forall k :: 0 <= k < |m.streams| ==> Stepped(c, e, m.streams[k], after.streams[k])
  }

  lemma EventMoves(c: Config, m: Mux, e: Event)
    requires Tidy(m)
    ensures Moves(c, e, m, Handle(c, m, e).mux)
  {
    EventAdds(c, m, e);
    forall k | 0 <= k < |m.streams| ensures Stepped(c, e, m.streams[k], Handle(c, m, e).mux.streams[k]) {
      EventSteps(c, m, e, k);
    }
  }

  /** The credit a client has been given for a stream by the events since it was made. */
  function Granted(b: u32, log: seq<Event>, id: u32): u32 {
    if log == [] then b
    else
      var given := Grant(log[|log| - 1], id);
      if given.Some? then given.value else Granted(b, log[..|log| - 1], id)
  }

  /** The stream was made by the event at `a`, and all that has happened to its credit since is in the log. */
  predicate Kept(c: Config, log: seq<Event>, s: Stream, a: nat) {
    && a < |log| && Asks(log[a])
    && s.capacity == (if Limited(c, log[a]) && c.role.Server? then Some(c.bufferSize) else None)
    && s.tracks == (Limited(c, log[a]) && c.role.Client?)
    && (c.role.Server? ==> s.credit as int == if c.bufferSize as int > |s.queue| then c.bufferSize - |s.queue| else 0)
    && (c.role.Client? && !s.tracks ==> s.credit == c.bufferSize)
    && (c.role.Client? && s.tracks && s.connected ==> s.credit == Granted(c.bufferSize, log[a + 1..], s.id))
  }

  lemma GrantedSnoc(b: u32, log: seq<Event>, e: Event, a: nat, id: u32)
    requires a < |log|
    ensures Granted(b, (log + [e])[a + 1..], id) ==
      if Grant(e, id).Some? then Grant(e, id).value else Granted(b, log[a + 1..], id)
  {
    var rest := log[a + 1..];
    assert (log + [e])[a + 1..] == rest + [e] && (rest + [e])[..|rest|] == rest;
  }

  lemma KeptNext(c: Config, log: seq<Event>, e: Event, s: Stream, after: Stream, a: nat)
    requires Kept(c, log, s, a) && Stepped(c, e, s, after)
    ensures Kept(c, log + [e], after, a)
  {
    assert (log + [e])[a] == log[a];
    GrantedSnoc(c.bufferSize, log, e, a, s.id);
  }

  lemma KeptNew(c: Config, log: seq<Event>, e: Event, s: Stream)
    requires Begins(c, e, s)
    ensures Kept(c, log + [e], s, |log|)
  {
    assert (log + [e])[|log|] == e && (log + [e])[|log| + 1..] == [];
  }

  predicate Increasing(at: seq<nat>) {
    forall i, j :: 0 <= i < j < |at| ==> at[i] < at[j]
  }

  lemma IncreasingSnoc(at: seq<nat>, a: nat)
    requires Increasing(at) && (at != [] ==> at[|at| - 1] < a)
    ensures Increasing(at + [a])
  {
  }

  ghost predicate AllKept(c: Config, log: seq<Event>, m: Mux, at: seq<nat>) {
    && |at| == |m.streams| && Increasing(at) && (at != [] ==> at[|at| - 1] < |log|)
    && (forall k :: 0 <= k < |m.streams| ==> Kept(c, log, m.streams[k], at[k]))
  }

  lemma AllKeptNext(c: Config, log: seq<Event>, e: Event, m: Mux, after: Mux, at: seq<nat>) returns (later: seq<nat>)
    requires AllKept(c, log, m, at) && Moves(c, e, m, after)
    ensures AllKept(c, log + [e], after, later)
  {
    later := at;
    forall k | 0 <= k < |m.streams| ensures Kept(c, log + [e], after.streams[k], at[k]) {
      assert Kept(c, log, m.streams[k], at[k]) && Stepped(c, e, m.streams[k], after.streams[k]);
      KeptNext(c, log, e, m.streams[k], after.streams[k], at[k]);
    }
    if |after.streams| > |m.streams| {
      later := at + [|log|];
      IncreasingSnoc(at, |log|);
      KeptNew(c, log, e, after.streams[|m.streams|]);
    }
  }

  /** For every log of either side: each stream was made by an event of its own that asks for one. If its type is under
      flow control, then a server has bounded its queue to the buffer size and a client tracks its credit; no other
      stream is bounded or tracked. As long as the halves do nothing a server's credit is the buffer size less what is
      queued, and a client's the buffer size or what the last Continue packet for the stream says. */
  lemma {:induction false} KindsExactly(c: Config, log: seq<Event>) returns (at: seq<nat>)
    ensures Tidy(Run(c, log).0) && AllKept(c, log, Run(c, log).0, at)
    decreases |log|
  {
    at := [];
    if log != [] {
      var k := |log| - 1;
      at := KindsExactly(c, log[..k]);
      var m, after := Run(c, log[..k]).0, Run(c, log).0;
      assert after == Handle(c, m, log[k]).mux;
      TidyNext(c, m, log[k]);
      EventMoves(c, m, log[k]);
      at := AllKeptNext(c, log[..k], log[k], m, after, at);
      assert log[..k] + [log[k]] == log;
    }
  }
}
