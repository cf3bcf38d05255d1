/** The multiplexor actor as an object whose table and streams are updated in place. */
module MuxObjects {
  import opened Common
  import opened Packets
  import opened MuxSpec

  /** All packets a sequence of events makes the actor send, and its state afterwards. */
  function HandleAll(c: Config, m: Mux, events: seq<Event>): (Mux, seq<Packet>)
    requires Sound(m)
    decreases |events|
  {
    if events == [] then (m, [])
    else
      var h := Handle(c, m, events[0]);
      HandleSound(c, m, events[0]);
      var (m', sent) := HandleAll(c, h.mux, events[1..]);
      (m', (if h.sent.Some? then [h.sent.value] else []) + sent)
  }

  /** The open streams are exactly those in the table, each under its own id. */
  predicate Consistent(m: Mux) {
    && Sound(m)
    && (forall id :: id in m.table ==> m.streams[m.table[id]].id == id && m.streams[m.table[id]].connected)
    && (forall n :: 0 <= n < |m.streams| && m.streams[n].connected ==>
          m.streams[n].id in m.table && m.table[m.streams[n].id] == n)
  }

  /** On the way to `Finish`: some of the streams that were open are closed already. */
  predicate PartlyDrained(was: Mux, m: Mux) {
    && !m.running && m.currentId == was.currentId && m.listening == was.listening && |m.streams| == |was.streams|
    && m.connects == was.connects
    && forall n :: 0 <= n < |m.streams| ==>
         m.streams[n] == if m.streams[n].connected then was.streams[n] else Abandon(was.streams[n])
  }

  lemma DrainStep(was: Mux, m: Mux, id: u32)
    requires Consistent(m) && PartlyDrained(was, m) && id in m.table
    ensures PartlyDrained(was, MuxSpec.CloseStream(m, id, Unknown))
    ensures MuxSpec.CloseStream(m, id, Unknown).table.Keys == m.table.Keys - {id}
  {
  }

  lemma DrainedAll(was: Mux, m: Mux)
    requires Consistent(m) && PartlyDrained(was, m) && m.table == map[]
    ensures m == Finish(was)
  {
    assert forall n :: 0 <= n < |m.streams| ==> !m.streams[n].connected;
    assert m.streams == Finish(was).streams;
  }

  class MuxInner {
    const config: Config
    var table: map<u32, nat>
    var streams: seq<Stream>
    var currentId: u32
    var running: bool
    var listening: bool
    var connects: seq<Packet>

    ghost function View(): Mux
      reads this
    {
      Mux(table, streams, currentId, running, listening, connects)
    }

    ghost predicate Valid()
      reads this
    {
      Consistent(View())
    }

    constructor (config: Config)
      ensures Valid() && View() == Fresh && this.config == config
    {
      this.config := config;
      table, streams, currentId, running, listening, connects := map[], [], 0, true, true, [];
    }

    method AddStream(id: u32, streamType: StreamType)
      requires Valid()
      modifies this
      ensures Valid()
      ensures View() == MuxSpec.AddStream(config, old(View()), id, streamType)
    {
      var pos := |streams|;
      if id in table {
        streams := streams[table[id] := streams[table[id]].(connected := false)];
      }
      table := table[id := pos];
      streams := streams + [NewStream(config, id, streamType)];
    }

    /** None when the ids are used up. */
    method CreateStream(streamType: StreamType) returns (id: Option<u32>)
      requires Valid() && running
      modifies this
      ensures Valid()
      ensures id.None? <==> old(currentId) == U32_MAX
      ensures id.None? ==> View() == old(View())
      ensures id.Some? ==> id.value == old(currentId) + 1
      ensures id.Some? ==>
        View() == MuxSpec.AddStream(config, old(View()).(currentId := id.value), id.value, streamType)
    {
      if currentId == U32_MAX {
        return None;
      }
      currentId := currentId + 1;
      AddStream(currentId, streamType);
      id := Some(currentId);
    }

    method CloseStream(id: u32, reason: CloseReason) returns (found: bool)
      requires Valid()
      modifies this`table, this`streams
      ensures Valid()
      ensures found <==> id in old(table)
      ensures View() == MuxSpec.CloseStream(old(View()), id, reason)
    {
      found := id in table;
      if found {
        var pos := table[id];
        table := table - {id};
        streams := streams[pos := streams[pos].(connected := false, reason := ReasonCode(reason))];
      }
    }

    /** Looks the stream up, tries to put the data on its channel and, on the server, takes it off the credit. */
    method HandleData(id: u32, data: Bytes)
      requires Valid()
      modifies this`streams
      ensures Valid()
      ensures View() == Route(config, old(View()), id, data)
    {
      if id in table {
        var s := streams[table[id]];
        if s.capacity.None? || |s.queue| < s.capacity.value {
          s := s.(queue := s.queue + [data]);
          if config.role.Server? {
            s := s.(credit := SatSub(s.credit, 1));
          }
          streams := streams[table[id] := s];
        }
      }
    }

    /** The client's part: replaces the credit of a tracked stream. */
    method HandleContinue(id: u32, credit: u32)
      requires Valid()
      modifies this`streams
      ensures Valid()
      ensures View() == TakeCredit(old(View()), id, credit)
    {
      if id in table && streams[table[id]].tracks {
        streams := streams[table[id] := streams[table[id]].(credit := credit)];
      }
    }

    /** `into_future` once the loop is over: drains the table. */
    method Drain()
      requires Valid()
      modifies this
      ensures Valid()
      ensures View() == Finish(old(View()))
    {
      ghost var was := View();
      running := false;
      while table != map[]
        invariant Valid() && PartlyDrained(was, View())
        decreases |table.Keys|
      {
        var id :| id in table;
        DrainStep(was, View(), id);
        var _ := CloseStream(id, Unknown);
      }
      DrainedAll(was, View());
    }

    /** Handles a packet; true means that the actor ends. */
    method HandlePacket(p: Packet) returns (stop: bool)
      requires Valid() && running
      modifies this
      ensures Valid()
      ensures !stop ==> View() == MuxSpec.HandlePacket(config, old(View()), p)
      ensures stop ==> Finish(View()) == MuxSpec.HandlePacket(config, old(View()), p)
    {
      match p.body {
        case Connect(t, _, _) =>
          AddStream(p.streamId, t);
          stop := config.role.Client? || !listening;
          if !stop {
            connects := connects + [p];
          }
        case Data(data) =>
          HandleData(p.streamId, data);
          stop := false;
        case Continue(credit) =>
          stop := config.role.Server?;
          if !stop {
            HandleContinue(p.streamId, credit);
          }
        case Close(reason) =>
          if p.streamId == 0 {
            return true;
          }
          var _ := CloseStream(p.streamId, reason);
          stop := false;
      }
    }

    /** One round of the loop in `entry`. */
    method HandleEvent(e: Event) returns (sent: Option<Packet>)
      requires Valid() && running
      modifies this
      ensures Valid()
      ensures Handled(View(), sent) == Handle(config, old(View()), e)
    {
      sent := None;
      match e {
        case CreateStream(t, host, port, ok) =>
          var id := CreateStream(t);
          if id.Some? && ok {
            var p := Packet(id.value, Connect(t, host, port));
            connects := connects + [p];
            sent := Some(p);
          }
        case LocalClose(id, reason, ok) =>
          var found := CloseStream(id, reason);
          if found && ok {
            sent := Some(Packet(id, Close(reason)));
          }
        case EndFut(farewell, ok) =>
          if farewell.Some? && ok {
            sent := Some(Packet(0, Close(farewell.value)));
          }
          Drain();
        case Unlisten => listening := false;
        case Message(p) =>
          var stop := HandlePacket(p);
          if stop {
            Drain();
          }
        case ReadFailed => Drain();
        case ReadEnded => Drain();
      }
    }

    /** The actor's loop over the events it is given; it stops at the first one that ends it. */
    method Entry(events: seq<Event>) returns (sent: seq<Packet>)
      requires Valid() && running
      modifies this
      ensures Valid()
      ensures (View(), sent) == HandleAll(config, old(View()), events)
    {
      sent := [];
      var i := 0;
      ghost var goal := HandleAll(config, View(), events);
      assert events[0..] == events && [] + goal.1 == goal.1;
      while i < |events| && running
        invariant Valid() && 0 <= i <= |events|
        invariant goal.0 == HandleAll(config, View(), events[i..]).0
        invariant goal.1 == sent + HandleAll(config, View(), events[i..]).1
      {
        ghost var m, rest := View(), events[i..];
        assert rest[0] == events[i] && rest[1..] == events[i + 1..];
        var p := HandleEvent(events[i]);
        if p.Some? {
          ghost var later := HandleAll(config, View(), rest[1..]).1;
          assert sent + ([p.value] + later) == sent + [p.value] + later;
          sent := sent + [p.value];
        } else {
          assert [] + HandleAll(config, View(), rest[1..]).1 == HandleAll(config, View(), rest[1..]).1;
        }
        i := i + 1;
      }
      if i < |events| {
        StoppedStaysPut(config, View(), events[i..]);
      }
      assert sent + [] == sent;
    }
  }

  /** Nothing is handled after the end. */
  lemma {:induction false} StoppedStaysPut(c: Config, m: Mux, events: seq<Event>)
    requires Sound(m) && !m.running
    ensures HandleAll(c, m, events) == (m, [])
    decreases |events|
  {
    if events != [] {
      StoppedStaysPut(c, m, events[1..]);
      var rest := HandleAll(c, m, events[1..]);
      assert HandleAll(c, m, events) == (rest.0, [] + rest.1);
      assert [] + rest.1 == [];
    }
  }
}
