/** A client and a server multiplexor, connected by two FIFO transports. */
module MuxDelivery {
  import opened Common
  import opened Packets
  import opened MuxSpec
  import FlowSpec

  datatype Net = Net(client: Mux, server: Mux, toServer: seq<Packet>, toClient: seq<Packet>)

  /** `c` and `s` configure the two sides. */
  datatype Pair = Pair(c: Config, s: Config)

  const Start := Net(Fresh, Fresh, [], [])

  datatype Step =
    | ClientLocal(event: Event)          // stream creation, local close, shutdown
    | ServerLocal(event: Event)          // local close, shutdown
    | ClientReceives                     // the client actor handles the next packet
    | ServerReceives
    | ClientWrites(n: nat, data: Bytes)  // the writing half of a stream hands over a Data packet
    | ServerWrites(n: nat, data: Bytes)
    | ServerUpdates(n: nat, credit: u32) // the reading half of a server stream sends a Continue packet
    | ClientReads(n: nat)                // the reading half of a stream is polled
    | ServerReads(n: nat)

  function Push(ps: seq<Packet>, p: Option<Packet>): seq<Packet> {
    if p.Some? then ps + [p.value] else ps
  }

  /** A writing half hands a packet over; this may happen after the stream was closed, and even after the actor has
      ended, since `poll_flush` looks at neither. */
  function Write(m: Mux, n: nat, data: Bytes): Mux
    requires n < |m.streams|
  {
    var s := m.streams[n];
    var w := FlowSpec.MaybeWrite(FlowSpec.Writer(s.connected, Some(data), s.credit, false, false), s.tracks);
    m.(streams := m.streams[n := s.(wrote := s.wrote + [data], credit := w.credit)])
  }

  /** The reading half of a server stream adds to the credit and advertises the sum. */
  function Refill(m: Mux, n: nat, credit: u32): Mux
    requires n < |m.streams|
  {
    m.(streams := m.streams[n := m.streams[n].(credit := credit)])
  }

  /** A reading half is polled: it returns the next chunk while the stream is open, and nothing afterwards. */
  function Read(m: Mux, n: nat): Mux
    requires n < |m.streams|
  {
    var s := m.streams[n];
    var o := FlowSpec.PollNext(AsReader(s), false, 0, FlowSpec.LockPending);
    m.(streams := m.streams[n := s.(queue := o.reader.queue,
                                    taken := if o.result.Chunk? then s.taken + [o.result.data] else s.taken)])
  }

  /** A packet the transport does not take counts as one that stays in flight for ever. */
  predicate IsLocal(e: Event) {
    match e
    case CreateStream(_, _, _, ok) => ok
    case LocalClose(_, _, ok) => ok
    case EndFut(_, ok) => ok
    case Message(_) => false
    case _ => true
  }

  predicate BothSound(net: Net) {
    Sound(net.client) && Sound(net.server)
  }

  function Next(cfg: Pair, net: Net, step: Step): Option<Net>
    requires BothSound(net)
  {
    match step
    case ClientLocal(e) =>
      if !IsLocal(e) then None
      else
        var h := Handle(cfg.c, net.client, e);
        Some(net.(client := h.mux, toServer := Push(net.toServer, h.sent)))
    case ServerLocal(e) =>
      if !IsLocal(e) || e.CreateStream? then None
      else
        var h := Handle(cfg.s, net.server, e);
        Some(net.(server := h.mux, toClient := Push(net.toClient, h.sent)))
    case ClientReceives =>
      if net.toClient == [] then None
      else Some(net.(client := Handle(cfg.c, net.client, Message(net.toClient[0])).mux, toClient := net.toClient[1..]))
    case ServerReceives =>
      if net.toServer == [] then None
      else Some(net.(server := Handle(cfg.s, net.server, Message(net.toServer[0])).mux, toServer := net.toServer[1..]))
    case ClientWrites(n, data) =>
      if n >= |net.client.streams| then None
      else Some(net.(client := Write(net.client, n, data),
                     toServer := net.toServer + [Packet(net.client.streams[n].id, Data(data))]))
    case ServerWrites(n, data) =>
      if n >= |net.server.streams| then None
      else Some(net.(server := Write(net.server, n, data),
                     toClient := net.toClient + [Packet(net.server.streams[n].id, Data(data))]))
    case ServerUpdates(n, credit) =>
      if n >= |net.server.streams| then None
      else Some(net.(server := Refill(net.server, n, credit),
                     toClient := net.toClient + [Packet(net.server.streams[n].id, Continue(credit))]))
    case ClientReads(n) =>
      if n >= |net.client.streams| then None else Some(net.(client := Read(net.client, n)))
    case ServerReads(n) =>
      if n >= |net.server.streams| then None else Some(net.(server := Read(net.server, n)))
  }

  // ---------- Packets in flight ----------

  function DataOf(p: Packet, id: u32): seq<Bytes> {
    if p.streamId == id && p.body.Data? then [p.body.payload] else []
  }

  /** The data in flight for a stream. */
  function InFlight(ps: seq<Packet>, id: u32): seq<Bytes> {
    if ps == [] then [] else DataOf(ps[0], id) + InFlight(ps[1..], id)
  }

  lemma {:induction false} InFlightSnoc(ps: seq<Packet>, p: Packet, id: u32)
    ensures InFlight(ps + [p], id) == InFlight(ps, id) + DataOf(p, id)
    decreases |ps|
  {
    if ps == [] {
      assert [p][1..] == [] && ps + [p] == [p];
    } else {
      assert (ps + [p])[1..] == ps[1..] + [p];
      InFlightSnoc(ps[1..], p, id);
    }
  }

  /** The Connect packets in flight are those for the ids after `lo`, up to `hi`, in order, and no data overtakes
      the Connect packet of its stream.  */
  predicate Connects(ps: seq<Packet>, lo: nat, hi: nat) {
    if ps == [] then lo == hi
    else if ps[0].body.Connect? then ps[0].streamId == lo + 1 && Connects(ps[1..], lo + 1, hi)
    else (ps[0].body.Data? ==> ps[0].streamId <= lo) && Connects(ps[1..], lo, hi)
  }

  lemma {:induction false} ConnectsSnoc(ps: seq<Packet>, p: Packet, lo: nat, hi: nat)
    requires Connects(ps, lo, hi)
    ensures !p.body.Connect? && (p.body.Data? ==> p.streamId <= hi) ==> Connects(ps + [p], lo, hi)
    ensures p.body.Connect? && p.streamId == hi + 1 ==> Connects(ps + [p], lo, hi + 1)
    ensures lo <= hi
    decreases |ps|
  {
    if ps == [] {
      assert [p][1..] == [] && ps + [p] == [p];
    } else {
      assert (ps + [p])[1..] == ps[1..] + [p];
      ConnectsSnoc(ps[1..], p, if ps[0].body.Connect? then lo + 1 else lo, hi);
    }
  }

  // ---------- Subsequences ----------

  /** `a` arises from `b` by leaving elements out. */
  predicate Subsequence(a: seq<Bytes>, b: seq<Bytes>)
    decreases |b|
  {
    if b == [] then a == []
    else
      || Subsequence(a, b[..|b| - 1])
      || (a != [] && a[|a| - 1] == b[|b| - 1] && Subsequence(a[..|a| - 1], b[..|b| - 1]))
  }

  lemma SubsequenceSnoc(a: seq<Bytes>, b: seq<Bytes>, x: Bytes)
    requires Subsequence(a, b)
    ensures Subsequence(a + [x], b + [x]) && Subsequence(a, b + [x])
  {
    assert (b + [x])[..|b|] == b && (a + [x])[..|a|] == a;
  }

  lemma {:induction false} SubsequenceEmpty(b: seq<Bytes>)
    ensures Subsequence([], b)
    decreases |b|
  {
    if b != [] { SubsequenceEmpty(b[..|b| - 1]); }
  }

  /** Leaving out one more element. */
  lemma {:induction false} SubsequenceDrop(p: seq<Bytes>, x: Bytes, q: seq<Bytes>, b: seq<Bytes>)
    requires Subsequence(p + [x] + q, b)
    ensures Subsequence(p + q, b)
    decreases |b|
  {
    var a, a' := p + [x] + q, p + q;
    if b != [] {
      var b' := b[..|b| - 1];
      if Subsequence(a, b') {
        SubsequenceDrop(p, x, q, b');
      } else if q == [] {
        assert a[..|a| - 1] == a';
      } else {
        var q' := q[..|q| - 1];
        assert a[..|a| - 1] == p + [x] + q' && a'[..|a'| - 1] == p + q';
        SubsequenceDrop(p, x, q', b');
      }
    }
  }

  lemma {:induction false} SubsequencePrefix(p: seq<Bytes>, q: seq<Bytes>, b: seq<Bytes>)
    requires Subsequence(p + q, b)
    ensures Subsequence(p, b)
    decreases |q|
  {
    if q == [] {
      assert p + q == p;
    } else {
      assert p + q == p + [q[0]] + q[1..];
      SubsequenceDrop(p, q[0], q[1..], b);
      SubsequencePrefix(p, q[1..], b);
    }
  }

  /** The positions a subsequence was taken from: strictly increasing, one for each element. */
  lemma {:induction false} SubsequencePositions(a: seq<Bytes>, b: seq<Bytes>) returns (at: seq<nat>)
    requires Subsequence(a, b)
    ensures |at| == |a|
    ensures forall i :: 0 <= i < |a| ==> at[i] < |b| && a[i] == b[at[i]]
    ensures forall i, j :: 0 <= i < j < |a| ==> at[i] < at[j]
    decreases |b|
  {
    if b == [] {
      at := [];
    } else if Subsequence(a, b[..|b| - 1]) {
      at := SubsequencePositions(a, b[..|b| - 1]);
    } else {
      at := SubsequencePositions(a[..|a| - 1], b[..|b| - 1]);
      at := at + [|b| - 1];
    }
  }

  // ---------- What every step keeps ----------

  /** Streams are numbered from 1 without gaps, and exactly the open ones are in the table. */
  predicate Tidy(m: Mux) {
    && |m.streams| <= U32_MAX
    && (forall n :: 0 <= n < |m.streams| ==> m.streams[n].id == n + 1 && (m.streams[n].connected <==> n + 1 in m.table))
    && (forall id :: id in m.table ==> 1 <= id <= |m.streams| && m.table[id] == id - 1)
    && (!m.running ==> m.table == map[])
  }

  ghost predicate Wires(net: Net) {
    && |net.server.streams| <= |net.client.streams|
    && (net.client.running ==> net.client.currentId == |net.client.streams|)
    && (net.server.running ==> Connects(net.toServer, |net.server.streams|, |net.client.streams|))
    && (forall i :: 0 <= i < |net.toServer| ==>
          net.toServer[i].body.Data? ==> net.toServer[i].streamId <= |net.client.streams|)
    && (forall i :: 0 <= i < |net.toClient| ==>
          net.toClient[i].body.Data? ==> net.toClient[i].streamId <= |net.server.streams|)
    && (forall i :: 0 <= i < |net.toClient| ==> !net.toClient[i].body.Connect?)
  }

  /** A stream both sides know; `up` and `down` are its data in flight. */
  predicate LaneSeen(c: Stream, s: Stream, up: seq<Bytes>, down: seq<Bytes>) {
    && Subsequence(s.taken + s.queue + up, c.wrote)
    && c.taken <= s.wrote
    && (c.connected ==> c.taken + c.queue + down == s.wrote)
    && (s.connected && s.capacity.None? ==> s.taken + s.queue + up == c.wrote)
  }

  /** A stream the server, which runs or not, has not seen yet. */
  predicate LaneUnseen(c: Stream, running: bool, up: seq<Bytes>) {
    && Subsequence(up, c.wrote)
    && (running ==> up == c.wrote)
    && c.taken == [] && c.queue == []
  }

  /** The two directions of the stream with id `n + 1`. */
  predicate Lane(net: Net, n: nat) {
    n < |net.client.streams| && n < U32_MAX ==>
      var c, up, down := net.client.streams[n], InFlight(net.toServer, n + 1), InFlight(net.toClient, n + 1);
      c.capacity.None? &&
      if n < |net.server.streams| then LaneSeen(c, net.server.streams[n], up, down)
      else LaneUnseen(c, net.server.running, up)
  }

  lemma {:induction false} InFlightNone(ps: seq<Packet>, id: u32)
    requires forall i :: 0 <= i < |ps| ==> ps[i].body.Data? ==> ps[i].streamId < id
    ensures InFlight(ps, id) == []
    decreases |ps|
  {
    if ps != [] {
      assert forall i :: 0 <= i < |ps[1..]| ==> ps[1..][i] == ps[i + 1];
      InFlightNone(ps[1..], id);
    }
  }

  lemma TidyHandle(cfg: Config, m: Mux, e: Event)
    requires Tidy(m)
    requires e.CreateStream? ==> m.running ==> m.currentId == |m.streams|
    requires e.Message? && e.packet.body.Connect? && m.running ==>
      cfg.role.Server? && e.packet.streamId == |m.streams| + 1
    ensures Sound(m) && Tidy(Handle(cfg, m, e).mux)
  {
    assert Sound(m);
    if m.running {
      TidyFinish(m);
      if e.Message? { TidyPacket(cfg, m, e.packet); }
      if e.LocalClose? { TidyClose(m, e.id, e.reason); }
    }
  }

  lemma TidyFinish(m: Mux)
    requires Tidy(m)
    ensures Tidy(Finish(m))
  {
  }

  lemma TidyClose(m: Mux, id: u32, reason: CloseReason)
    requires Tidy(m) && Sound(m)
    ensures Tidy(CloseStream(m, id, reason))
  {
  }

  lemma TidyAdd(cfg: Config, m: Mux, id: u32, t: StreamType)
    requires Tidy(m) && Sound(m) && m.running && id == |m.streams| + 1
    ensures Tidy(AddStream(cfg, m, id, t))
  {
    assert id !in m.table;
  }

  lemma TidyPacket(cfg: Config, m: Mux, p: Packet)
    requires Tidy(m) && Sound(m) && m.running
    requires p.body.Connect? ==> cfg.role.Server? && p.streamId == |m.streams| + 1
    ensures Tidy(HandlePacket(cfg, m, p))
  {
    match p.body
    case Connect(t, _, _) =>
      TidyAdd(cfg, m, p.streamId, t);
      TidyFinish(AddStream(cfg, m, p.streamId, t));
    case Data(_) => assert Tidy(Route(cfg, m, p.streamId, p.body.payload));
    case Continue(_) => TidyFinish(m);
    case Close(reason) =>
      TidyFinish(m);
      TidyClose(m, p.streamId, reason);
  }

  lemma TidyNext(cfg: Pair, net: Net, step: Step)
    requires cfg.c.role.Client? && cfg.s.role.Server?
    requires Tidy(net.client) && Tidy(net.server) && Wires(net) && BothSound(net) && Next(cfg, net, step).Some?
    ensures Tidy(Next(cfg, net, step).value.client) && Tidy(Next(cfg, net, step).value.server)
  {
    match step
    case ClientLocal(e) => TidyHandle(cfg.c, net.client, e);
    case ServerLocal(e) => TidyHandle(cfg.s, net.server, e);
    case ClientReceives => TidyHandle(cfg.c, net.client, Message(net.toClient[0]));
    case ServerReceives => TidyHandle(cfg.s, net.server, Message(net.toServer[0]));
    case _ => TidyHalves(cfg, net, step);
  }

  /** Reads and writes change no table. */
  lemma TidyHalves(cfg: Pair, net: Net, step: Step)
    requires Tidy(net.client) && Tidy(net.server) && BothSound(net) && Next(cfg, net, step).Some?
    requires !step.ClientLocal? && !step.ServerLocal? && !step.ClientReceives? && !step.ServerReceives?
    ensures Tidy(Next(cfg, net, step).value.client) && Tidy(Next(cfg, net, step).value.server)
  {
    match step
    case ClientWrites(n, data) => TidyHalf(net.client, n, data, 0);
    case ServerWrites(n, data) => TidyHalf(net.server, n, data, 0);
    case ServerUpdates(n, credit) => TidyHalf(net.server, n, [], credit);
    case ClientReads(n) => TidyHalf(net.client, n, [], 0);
    case ServerReads(n) => TidyHalf(net.server, n, [], 0);
  }

  lemma TidyHalf(m: Mux, n: nat, data: Bytes, credit: u32)
    requires Tidy(m) && Sound(m) && n < |m.streams|
    ensures Tidy(Write(m, n, data)) && Tidy(Refill(m, n, credit)) && Tidy(Read(m, n))
  {
  }

  lemma {:induction false} ConnectsBound(ps: seq<Packet>, lo: nat, hi: nat)
    requires Connects(ps, lo, hi)
    ensures lo <= hi
    decreases |ps|
  {
    if ps != [] {
      ConnectsBound(ps[1..], if ps[0].body.Connect? then lo + 1 else lo, hi);
    }
  }

  predicate Ready(cfg: Pair, net: Net) {
    && cfg.c.role.Client? && cfg.s.role.Server?
    && Tidy(net.client) && Tidy(net.server) && BothSound(net)
  }

  /** An actor adds at most one stream per event. */
  lemma StreamsGrow(cfg: Config, m: Mux, e: Event)
    requires Sound(m)
    ensures var m' := Handle(cfg, m, e).mux;
      && (m'.running ==> m.running)
      && |m.streams| <= |m'.streams| <= |m.streams| + 1
      && (|m'.streams| == |m.streams| + 1 <==>
            (m.running && ((e.CreateStream? && m.currentId < U32_MAX) || (e.Message? && e.packet.body.Connect?))))
      && m'.currentId == if m.running && e.CreateStream? && m.currentId < U32_MAX then m.currentId + 1 else m.currentId
  {
  }

  lemma WiresReceived(cfg: Pair, net: Net, step: Step)
    requires Ready(cfg, net) && Wires(net) && Next(cfg, net, step).Some?
    requires (step.ClientReceives? || step.ServerReceives?)
    ensures Wires(Next(cfg, net, step).value)
  {
    if step.ClientReceives? {
      StreamsGrow(cfg.c, net.client, Message(net.toClient[0]));
    } else {
      StreamsGrow(cfg.s, net.server, Message(net.toServer[0]));
      if net.server.running {
        var lo := |net.server.streams|;
        ConnectsBound(net.toServer[1..], if net.toServer[0].body.Connect? then lo + 1 else lo, |net.client.streams|);
      }
    }
  }

  lemma WiresLocal(cfg: Pair, net: Net, step: Step)
    requires Ready(cfg, net) && Wires(net) && Next(cfg, net, step).Some? && (step.ClientLocal? || step.ServerLocal?)
    ensures Wires(Next(cfg, net, step).value)
  {
    if step.ClientLocal? {
      StreamsGrow(cfg.c, net.client, step.event);
      var sent := Handle(cfg.c, net.client, step.event).sent;
      if net.server.running && sent.Some? {
        ConnectsSnoc(net.toServer, sent.value, |net.server.streams|, |net.client.streams|);
      }
    } else {
      StreamsGrow(cfg.s, net.server, step.event);
    }
  }

  lemma WiresNext(cfg: Pair, net: Net, step: Step)
    requires Ready(cfg, net) && Wires(net) && Next(cfg, net, step).Some?
    ensures Wires(Next(cfg, net, step).value)
  {
    if step.ClientReceives? || step.ServerReceives? {
      WiresReceived(cfg, net, step);
    } else if step.ClientLocal? || step.ServerLocal? {
      WiresLocal(cfg, net, step);
    } else if step.ClientWrites? && net.server.running {
      ConnectsSnoc(net.toServer, Packet(net.client.streams[step.n].id, Data(step.data)),
                   |net.server.streams|, |net.client.streams|);
    }
  }

  /** What handling an event does to a stream that already exists. */
  predicate Evolves(m: Mux, e: Event, n: nat, s: Stream, s': Stream) {
    && s'.id == s.id && s'.capacity == s.capacity && s'.wrote == s.wrote && s'.taken == s.taken
    && (s'.connected ==> s.connected)
    && if e.Message? && e.packet.body.Data? && e.packet.streamId == n + 1 && s.connected
       then s'.queue == s.queue + [e.packet.body.payload] || (s'.queue == s.queue && s.capacity.Some?)
       else s'.queue == s.queue
  }

  lemma StreamEvolves(cfg: Config, m: Mux, e: Event, n: nat)
    requires Sound(m) && Tidy(m) && n < |m.streams|
    ensures n < |Handle(cfg, m, e).mux.streams|
    ensures Evolves(m, e, n, m.streams[n], Handle(cfg, m, e).mux.streams[n])
  {
    if m.running && e.Message? {
      StreamAfterPacket(cfg, m, e.packet, n);
    }
  }

  lemma StreamAfterPacket(cfg: Config, m: Mux, p: Packet, n: nat)
    requires Sound(m) && Tidy(m) && n < |m.streams|
    ensures n < |HandlePacket(cfg, m, p).streams|
    ensures Evolves(m, Message(p), n, m.streams[n], HandlePacket(cfg, m, p).streams[n])
  {
    match p.body
    case Data(_) => StreamAfterData(cfg, m, p, n);
    case Connect(_, _, _) => StreamAfterConnect(cfg, m, p, n);
    case Continue(_) => StreamAfterContinue(cfg, m, p, n);
    case Close(_) =>
  }

  lemma StreamAfterConnect(cfg: Config, m: Mux, p: Packet, n: nat)
    requires Sound(m) && Tidy(m) && n < |m.streams| && p.body.Connect?
    ensures n < |HandlePacket(cfg, m, p).streams|
    ensures Evolves(m, Message(p), n, m.streams[n], HandlePacket(cfg, m, p).streams[n])
  {
    var added := AddStream(cfg, m, p.streamId, p.body.streamType);
    assert added.streams[n] == m.streams[n].(connected := added.streams[n].connected);
  }

  lemma StreamAfterContinue(cfg: Config, m: Mux, p: Packet, n: nat)
    requires Sound(m) && Tidy(m) && n < |m.streams| && p.body.Continue?
    ensures n < |HandlePacket(cfg, m, p).streams|
    ensures Evolves(m, Message(p), n, m.streams[n], HandlePacket(cfg, m, p).streams[n])
  {
  }

  lemma StreamAfterData(cfg: Config, m: Mux, p: Packet, n: nat)
    requires Sound(m) && Tidy(m) && n < |m.streams| && p.body.Data?
    ensures n < |HandlePacket(cfg, m, p).streams|
    ensures Evolves(m, Message(p), n, m.streams[n], HandlePacket(cfg, m, p).streams[n])
  {
  }

  lemma InFlightPush(ps: seq<Packet>, p: Option<Packet>, id: u32)
    requires p.Some? ==> !p.value.body.Data?
    ensures InFlight(Push(ps, p), id) == InFlight(ps, id)
  {
    if p.Some? { InFlightSnoc(ps, p.value, id); }
  }

  /** What an actor itself sends is never data. */
  lemma HandleSendsNoData(cfg: Config, m: Mux, e: Event)
    requires Sound(m)
    ensures Handle(cfg, m, e).sent.Some? ==> !Handle(cfg, m, e).sent.value.body.Data?
  {
  }

  lemma LaneNewStream(cfg: Pair, net: Net, e: Event, n: nat)
    requires Ready(cfg, net) && Wires(net) && IsLocal(e) && |net.client.streams| == n < U32_MAX
    requires n < |Handle(cfg.c, net.client, e).mux.streams|
    ensures Lane(Next(cfg, net, ClientLocal(e)).value, n)
  {
    var sent := Handle(cfg.c, net.client, e).sent;
    StreamsGrow(cfg.c, net.client, e);
    HandleSendsNoData(cfg.c, net.client, e);
    InFlightPush(net.toServer, sent, n + 1);
    InFlightNone(net.toServer, n + 1);
  }

  lemma LaneClientLocal(cfg: Pair, net: Net, e: Event, n: nat)
    requires Ready(cfg, net) && Wires(net) && Lane(net, n) && IsLocal(e)
    ensures Lane(Next(cfg, net, ClientLocal(e)).value, n)
  {
    StreamsGrow(cfg.c, net.client, e);
    if n < |net.client.streams| && n < U32_MAX {
      LaneOldStream(cfg, net, e, n);
    } else if n == |net.client.streams| < |Handle(cfg.c, net.client, e).mux.streams| && n < U32_MAX {
      LaneNewStream(cfg, net, e, n);
    }
  }

  lemma LaneOldStream(cfg: Pair, net: Net, e: Event, n: nat)
    requires Ready(cfg, net) && Wires(net) && Lane(net, n) && IsLocal(e) && n < |net.client.streams| && n < U32_MAX
    ensures Lane(Next(cfg, net, ClientLocal(e)).value, n)
  {
    StreamEvolves(cfg.c, net.client, e, n);
    HandleSendsNoData(cfg.c, net.client, e);
    InFlightPush(net.toServer, Handle(cfg.c, net.client, e).sent, n + 1);
  }

  lemma LaneServerLocal(cfg: Pair, net: Net, e: Event, n: nat)
    requires Ready(cfg, net) && Wires(net) && Lane(net, n) && IsLocal(e) && !e.CreateStream?
    ensures Lane(Next(cfg, net, ServerLocal(e)).value, n)
  {
    StreamsGrow(cfg.s, net.server, e);
    HandleSendsNoData(cfg.s, net.server, e);
    if n < U32_MAX { InFlightPush(net.toClient, Handle(cfg.s, net.server, e).sent, n + 1); }
    if n < |net.server.streams| { StreamEvolves(cfg.s, net.server, e, n); }
  }

  lemma LaneClientReceives(cfg: Pair, net: Net, n: nat)
    requires Ready(cfg, net) && Wires(net) && Lane(net, n) && net.toClient != []
    ensures Lane(Next(cfg, net, ClientReceives).value, n)
  {
    var e := Message(net.toClient[0]);
    StreamsGrow(cfg.c, net.client, e);
    if n < |net.client.streams| && n < U32_MAX {
      StreamEvolves(cfg.c, net.client, e, n);
      var c, c' := net.client.streams[n], Handle(cfg.c, net.client, e).mux.streams[n];
      var rest := InFlight(net.toClient[1..], n + 1);
      var d := DataOf(net.toClient[0], n + 1);
      assert InFlight(net.toClient, n + 1) == d + rest;
      assert c'.connected ==> c'.queue == c.queue + d;
      assert c.taken + c.queue + (d + rest) == c.taken + (c.queue + d) + rest;
    }
  }

  lemma SeenServerReceives(c: Stream, s: Stream, s': Stream, p: Packet, rest: seq<Bytes>, down: seq<Bytes>, id: u32)
    requires LaneSeen(c, s, DataOf(p, id) + rest, down)
    requires s'.taken == s.taken && s'.wrote == s.wrote && s'.capacity == s.capacity && (s'.connected ==> s.connected)
    requires s'.queue == s.queue || s'.queue == s.queue + DataOf(p, id)
    requires s'.connected && s'.capacity.None? ==> s'.queue == s.queue + DataOf(p, id)
    ensures LaneSeen(c, s', rest, down)
  {
    assert s.taken + s.queue + (DataOf(p, id) + rest) == s.taken + (s.queue + DataOf(p, id)) + rest;
    LaneServerData(s, s', p, rest, c.wrote, id);
  }

  lemma LaneSeenReceives(cfg: Pair, net: Net, n: nat)
    requires Ready(cfg, net) && Wires(net) && Lane(net, n) && net.toServer != []
    requires n < |net.server.streams| && n < U32_MAX
    ensures Lane(Next(cfg, net, ServerReceives).value, n)
  {
    var p := net.toServer[0];
    var rest := InFlight(net.toServer[1..], n + 1);
    StreamsGrow(cfg.s, net.server, Message(p));
    StreamEvolves(cfg.s, net.server, Message(p), n);
    assert InFlight(net.toServer, n + 1) == DataOf(p, n + 1) + rest;
    var s, s' := net.server.streams[n], Handle(cfg.s, net.server, Message(p)).mux.streams[n];
    assert s.queue + [] == s.queue;
    SeenServerReceives(net.client.streams[n], s, s', p, rest, InFlight(net.toClient, n + 1), n + 1);
  }

  /** A packet leaves the wire before its stream is known: what remains is still in order. */
  lemma UnseenData(p: Packet, rest: seq<Bytes>, wrote: seq<Bytes>, id: u32)
    requires Subsequence(DataOf(p, id) + rest, wrote)
    ensures Subsequence(rest, wrote)
    ensures DataOf(p, id) == [] ==> DataOf(p, id) + rest == rest
  {
    if DataOf(p, id) != [] {
      assert [] + [p.body.payload] + rest == DataOf(p, id) + rest && [] + rest == rest;
      SubsequenceDrop([], p.body.payload, rest, wrote);
    } else {
      assert DataOf(p, id) + rest == rest;
    }
  }

  /** While the server runs, no data arrives ahead of the Connect packet of its stream. */
  lemma UnseenHasNoData(net: Net, n: nat)
    requires Wires(net) && net.toServer != [] && net.server.running && |net.server.streams| <= n < U32_MAX
    ensures DataOf(net.toServer[0], n + 1) == []
  {
  }

  /** What becomes of a stream the server has not seen: it appears, empty, or stays unseen. */
  lemma UnseenStays(cfg: Config, m: Mux, p: Packet, n: nat)
    requires Sound(m) && |m.streams| <= n
    ensures var m' := Handle(cfg, m, Message(p)).mux;
      && (m'.running ==> m.running)
      && (n < |m'.streams| ==>
            m.running && m'.streams[n].queue == [] && m'.streams[n].taken == [] && m'.streams[n].wrote == [])
  {
  }

  lemma LaneUnseenReceives(cfg: Pair, net: Net, n: nat)
    requires Ready(cfg, net) && Wires(net) && Lane(net, n) && net.toServer != []
    requires |net.server.streams| <= n < |net.client.streams| && n < U32_MAX
    ensures Lane(Next(cfg, net, ServerReceives).value, n)
  {
    var p := net.toServer[0];
    var c, rest := net.client.streams[n], InFlight(net.toServer[1..], n + 1);
    assert InFlight(net.toServer, n + 1) == DataOf(p, n + 1) + rest;
    UnseenData(p, rest, c.wrote, n + 1);
    if net.server.running { UnseenHasNoData(net, n); }
    assert LaneUnseen(c, net.server.running, rest);
    UnseenStays(cfg.s, net.server, p, n);
    UnseenOutcome(net, Handle(cfg.s, net.server, Message(p)).mux, n);
  }

  lemma UnseenOutcome(net: Net, m': Mux, n: nat)
    requires Wires(net) && net.toServer != [] && |net.server.streams| <= n < |net.client.streams| && n < U32_MAX
    requires net.client.streams[n].capacity.None?
    requires LaneUnseen(net.client.streams[n], net.server.running, InFlight(net.toServer[1..], n + 1))
    requires m'.running ==> net.server.running
    requires n < |m'.streams| ==>
      net.server.running && m'.streams[n].queue == [] && m'.streams[n].taken == [] && m'.streams[n].wrote == []
    ensures Lane(net.(server := m', toServer := net.toServer[1..]), n)
  {
    NothingToClient(net, n);
    if n < |m'.streams| {
      FreshlySeen(net.client.streams[n], m'.streams[n], InFlight(net.toServer[1..], n + 1));
    }
  }

  lemma NothingToClient(net: Net, n: nat)
    requires Wires(net) && |net.server.streams| <= n && n < U32_MAX
    ensures InFlight(net.toClient, n + 1) == []
  {
    InFlightNone(net.toClient, n + 1);
  }

  /** The server has just made its side of the stream. */
  lemma FreshlySeen(c: Stream, s: Stream, up: seq<Bytes>)
    requires LaneUnseen(c, true, up) && s.queue == [] && s.taken == [] && s.wrote == []
    ensures LaneSeen(c, s, up, [])
  {
    assert s.taken + s.queue + up == up;
  }

  lemma LaneServerReceives(cfg: Pair, net: Net, n: nat)
    requires Ready(cfg, net) && Wires(net) && Lane(net, n) && net.toServer != []
    ensures Lane(Next(cfg, net, ServerReceives).value, n)
  {
    if n < |net.server.streams| && n < U32_MAX {
      LaneSeenReceives(cfg, net, n);
    } else if n < |net.client.streams| && n < U32_MAX {
      LaneUnseenReceives(cfg, net, n);
    }
  }

  /** A packet leaves the wire: its data, if it is for this stream, is queued or dropped. */
  lemma LaneServerData(s: Stream, s': Stream, p: Packet, rest: seq<Bytes>, wrote: seq<Bytes>, id: u32)
    requires s'.taken == s.taken
    requires s'.queue == s.queue || s'.queue == s.queue + DataOf(p, id)
    requires Subsequence(s.taken + s.queue + (DataOf(p, id) + rest), wrote)
    ensures Subsequence(s'.taken + s'.queue + rest, wrote)
  {
    var d := DataOf(p, id);
    assert s.taken + s.queue + (d + rest) == s.taken + (s.queue + d) + rest;
    if s'.queue == s.queue && d != [] {
      assert s.taken + s.queue + (d + rest) == s.taken + s.queue + [d[0]] + rest;
      SubsequenceDrop(s.taken + s.queue, d[0], rest, wrote);
    } else if d == [] {
      assert d + rest == rest;
    }
  }

  /** The same stream, but for its credit and `more` written to it. */
  predicate WroteMore(c: Stream, c': Stream, more: seq<Bytes>) {
    c'.wrote == c.wrote + more && c'.taken == c.taken && c'.queue == c.queue && c'.connected == c.connected &&
    c'.capacity == c.capacity
  }

  lemma SeenClientWrites(c: Stream, c': Stream, s: Stream, up: seq<Bytes>, down: seq<Bytes>, data: Bytes)
    requires LaneSeen(c, s, up, down) && WroteMore(c, c', [data])
    ensures LaneSeen(c', s, up + [data], down)
  {
    assert s.taken + s.queue + (up + [data]) == s.taken + s.queue + up + [data];
    SubsequenceSnoc(s.taken + s.queue + up, c.wrote, data);
  }

  lemma SeenServerWrites(c: Stream, s: Stream, s': Stream, up: seq<Bytes>, down: seq<Bytes>, data: Bytes)
    requires LaneSeen(c, s, up, down) && WroteMore(s, s', [data])
    ensures LaneSeen(c, s', up, down + [data])
  {
    assert c.taken + c.queue + (down + [data]) == c.taken + c.queue + down + [data];
  }

  lemma LaneFrame(net: Net, net': Net, n: nat)
    requires Lane(net, n) && n < |net.client.streams| == |net'.client.streams| && n < U32_MAX
    requires net'.server == net.server && net'.toClient == net.toClient
    requires net'.client.streams[n] == net.client.streams[n]
    requires InFlight(net'.toServer, n + 1) == InFlight(net.toServer, n + 1)
    ensures Lane(net', n)
  {
  }

  /** The client wrote on this stream. */
  lemma LaneOwnWrite(net: Net, net': Net, data: Bytes, n: nat)
    requires Lane(net, n) && n < |net.client.streams| == |net'.client.streams| && n < U32_MAX
    requires net'.server == net.server && net'.toClient == net.toClient
    requires WroteMore(net.client.streams[n], net'.client.streams[n], [data])
    requires InFlight(net'.toServer, n + 1) == InFlight(net.toServer, n + 1) + [data]
    ensures Lane(net', n)
  {
    var c, up, down := net.client.streams[n], InFlight(net.toServer, n + 1), InFlight(net.toClient, n + 1);
    if n < |net.server.streams| {
      SeenClientWrites(c, net'.client.streams[n], net.server.streams[n], up, down, data);
    } else {
      SubsequenceSnoc(up, c.wrote, data);
    }
  }

  lemma LaneClientWrites(cfg: Pair, net: Net, k: nat, data: Bytes, n: nat)
    requires Ready(cfg, net) && Lane(net, n) && Next(cfg, net, ClientWrites(k, data)).Some?
    requires n < |net.client.streams| && n < U32_MAX
    ensures Lane(Next(cfg, net, ClientWrites(k, data)).value, n)
  {
    var net' := Next(cfg, net, ClientWrites(k, data)).value;
    ClientWriteNet(cfg, net, k, data, net', n);
    if k != n { LaneFrame(net, net', n); } else { LaneOwnWrite(net, net', data, n); }
  }

  /** What a write of the client changes, as far as stream `n` is concerned. */
  lemma ClientWriteNet(cfg: Pair, net: Net, k: nat, data: Bytes, net': Net, n: nat)
    requires Ready(cfg, net) && Next(cfg, net, ClientWrites(k, data)) == Some(net')
    requires n < |net.client.streams| && n < U32_MAX
    ensures net'.server == net.server && net'.toClient == net.toClient
    ensures |net'.client.streams| == |net.client.streams|
    ensures k != n ==> net'.client.streams[n] == net.client.streams[n]
    ensures k == n ==> WroteMore(net.client.streams[n], net'.client.streams[n], [data])
    ensures InFlight(net'.toServer, n + 1) == InFlight(net.toServer, n + 1) + if k == n then [data] else []
    ensures k != n ==> InFlight(net'.toServer, n + 1) == InFlight(net.toServer, n + 1)
  {
    var p := Packet(net.client.streams[k].id, Data(data));
    InFlightSnoc(net.toServer, p, n + 1);
    assert DataOf(p, n + 1) == if k == n then [data] else [];
  }

  lemma LaneServerWrites(cfg: Pair, net: Net, k: nat, data: Bytes, n: nat)
    requires Ready(cfg, net) && Lane(net, n) && Next(cfg, net, ServerWrites(k, data)).Some?
    requires n < |net.client.streams| && n < U32_MAX
    ensures Lane(Next(cfg, net, ServerWrites(k, data)).value, n)
  {
    var c, up, down := net.client.streams[n], InFlight(net.toServer, n + 1), InFlight(net.toClient, n + 1);
    InFlightSnoc(net.toClient, Packet(net.server.streams[k].id, Data(data)), n + 1);
    if k != n {
      assert down + [] == down;
    } else {
      var s, s' := net.server.streams[n], Next(cfg, net, ServerWrites(k, data)).value.server.streams[n];
      SeenServerWrites(c, s, s', up, down, data);
    }
  }

  lemma LaneWrites(cfg: Pair, net: Net, step: Step, n: nat)
    requires Ready(cfg, net) && Lane(net, n) && (step.ClientWrites? || step.ServerWrites?) && Next(cfg, net, step).Some?
    ensures Lane(Next(cfg, net, step).value, n)
  {
    if n < |net.client.streams| && n < U32_MAX {
      if step.ClientWrites? {
        LaneClientWrites(cfg, net, step.n, step.data, n);
      } else {
        LaneServerWrites(cfg, net, step.n, step.data, n);
      }
    }
  }

  lemma LaneClientReads(cfg: Pair, net: Net, n: nat)
    requires Ready(cfg, net) && Lane(net, n) && n < |net.client.streams| && n < U32_MAX
    ensures Lane(Next(cfg, net, ClientReads(n)).value, n)
  {
    var c := net.client.streams[n];
    if c.connected && c.queue != [] {
      var flying := InFlight(net.toClient, n + 1);
      assert c.taken + c.queue + flying == c.taken + [c.queue[0]] + (c.queue[1..] + flying);
      assert c.taken + [c.queue[0]] + c.queue[1..] + flying == c.taken + [c.queue[0]] + (c.queue[1..] + flying);
    }
  }

  lemma LaneServerReads(cfg: Pair, net: Net, n: nat)
    requires Ready(cfg, net) && Lane(net, n) && n < |net.server.streams| <= |net.client.streams| && n < U32_MAX
    ensures Lane(Next(cfg, net, ServerReads(n)).value, n)
  {
    var s := net.server.streams[n];
    if s.connected && s.queue != [] {
      assert s.taken + s.queue == s.taken + [s.queue[0]] + s.queue[1..];
    }
  }

  /** Reading on another stream. */
  lemma LaneReadsElsewhere(cfg: Pair, net: Net, step: Step, n: nat)
    requires Ready(cfg, net) && Lane(net, n) && (step.ClientReads? || step.ServerReads?) && step.n != n
    requires Next(cfg, net, step).Some?
    ensures Lane(Next(cfg, net, step).value, n)
  {
    var net' := Next(cfg, net, step).value;
    assert n < |net.client.streams| ==> net'.client.streams[n] == net.client.streams[n];
    assert n < |net.server.streams| ==> net'.server.streams[n] == net.server.streams[n];
  }

  lemma LaneUpdates(cfg: Pair, net: Net, step: Step, n: nat)
    requires Ready(cfg, net) && Lane(net, n) && step.ServerUpdates? && Next(cfg, net, step).Some?
    ensures Lane(Next(cfg, net, step).value, n)
  {
    if n < U32_MAX {
      var p := Packet(net.server.streams[step.n].id, Continue(step.credit));
      InFlightSnoc(net.toClient, p, n + 1);
      assert InFlight(net.toClient, n + 1) + [] == InFlight(net.toClient, n + 1);
    }
  }

  lemma LaneReads(cfg: Pair, net: Net, step: Step, n: nat)
    requires Ready(cfg, net) && Wires(net) && Lane(net, n) && Next(cfg, net, step).Some?
    requires step.ClientReads? || step.ServerReads? || step.ServerUpdates?
    ensures Lane(Next(cfg, net, step).value, n)
  {
    if n < |net.client.streams| && n < U32_MAX {
      if step.ServerUpdates? {
        LaneUpdates(cfg, net, step, n);
      } else if step.n != n {
        LaneReadsElsewhere(cfg, net, step, n);
      } else if step.ClientReads? {
        LaneClientReads(cfg, net, n);
      } else {
        LaneServerReads(cfg, net, n);
      }
    }
  }

  lemma LaneNext(cfg: Pair, net: Net, step: Step, n: nat)
    requires Ready(cfg, net) && Wires(net) && Lane(net, n) && Next(cfg, net, step).Some?
    ensures Lane(Next(cfg, net, step).value, n)
  {
    match step
    case ClientLocal(e) => LaneClientLocal(cfg, net, e, n);
    case ServerLocal(e) => LaneServerLocal(cfg, net, e, n);
    case ClientReceives => LaneClientReceives(cfg, net, n);
    case ServerReceives => LaneServerReceives(cfg, net, n);
    case ClientWrites(_, _) => LaneWrites(cfg, net, step, n);
    case ServerWrites(_, _) => LaneWrites(cfg, net, step, n);
    case _ => LaneReads(cfg, net, step, n);
  }

  // ---------- Whole runs ----------

  ghost predicate Invariant(cfg: Pair, net: Net) {
    Ready(cfg, net) && Wires(net) && forall n: nat :: Lane(net, n)
  }

  lemma InvariantNext(cfg: Pair, net: Net, step: Step)
    requires Invariant(cfg, net) && Next(cfg, net, step).Some?
    ensures Invariant(cfg, Next(cfg, net, step).value)
  {
    TidyNext(cfg, net, step);
    WiresNext(cfg, net, step);
    forall n: nat ensures Lane(Next(cfg, net, step).value, n) { LaneNext(cfg, net, step, n); }
  }

  function Exec(cfg: Pair, net: Net, steps: seq<Step>): Option<Net>
    decreases |steps|
  {
    if steps == [] then Some(net)
    else if !BothSound(net) then None
    else
      var next := Next(cfg, net, steps[0]);
      if next.None? then None else Exec(cfg, next.value, steps[1..])
  }

  lemma {:induction false} ExecInvariant(cfg: Pair, net: Net, steps: seq<Step>)
    requires Invariant(cfg, net) && Exec(cfg, net, steps).Some?
    ensures Invariant(cfg, Exec(cfg, net, steps).value)
    decreases |steps|
  {
    if steps != [] {
      InvariantNext(cfg, net, steps[0]);
      ExecInvariant(cfg, Next(cfg, net, steps[0]).value, steps[1..]);
    }
  }

  /** While a stream without a bounded queue is open, nothing is lost on the way to it. */
  predicate Complete(to: Stream, from: Stream, wire: seq<Packet>) {
    to.connected && to.capacity.None? ==> to.taken + to.queue + InFlight(wire, to.id) == from.wrote
  }

  /** In every run of a client and a server, with closes and shutdowns at any point: streams on both sides carry
      the ids 1, 2, 3, ... in the order of their creation, so that position `n` is the same stream on both sides;
      what the client has read on a stream is a prefix of what the server wrote on that stream; what the server
      has read is what the client wrote on it with some packets left out, in the same order and without
      duplicates; a stream the server has not seen has
      delivered nothing; and on an open stream without a bounded queue nothing at all is missing.  */
  lemma MultiplexedDelivery(cfg: Pair, steps: seq<Step>, net: Net, n: nat) returns (at: seq<nat>)
    requires cfg.c.role.Client? && cfg.s.role.Server?
    requires Exec(cfg, Start, steps) == Some(net) && n < |net.client.streams|
    ensures net.client.streams[n].id == n + 1
    ensures n >= |net.server.streams| ==> net.client.streams[n].taken == []
    ensures n < |net.server.streams| ==>
      && net.server.streams[n].id == n + 1
      && Complete(net.client.streams[n], net.server.streams[n], net.toClient)
      && Complete(net.server.streams[n], net.client.streams[n], net.toServer)
      && net.client.streams[n].taken <= net.server.streams[n].wrote
      && |at| == |net.server.streams[n].taken|
      && (forall i :: 0 <= i < |at| ==>
           && at[i] < |net.client.streams[n].wrote|
           && net.server.streams[n].taken[i] == net.client.streams[n].wrote[at[i]])
      && (forall i, j :: 0 <= i < j < |at| ==> at[i] < at[j])
  {
    RunInvariant(cfg, steps, net);
    assert Lane(net, n) && Tidy(net.client) && Tidy(net.server);
    at := [];
    if n < |net.server.streams| {
      at := ReadPositions(net.client.streams[n], net.server.streams[n],
                          InFlight(net.toServer, n + 1), InFlight(net.toClient, n + 1));
    }
  }

  lemma RunInvariant(cfg: Pair, steps: seq<Step>, net: Net)
    requires cfg.c.role.Client? && cfg.s.role.Server? && Exec(cfg, Start, steps) == Some(net)
    ensures Invariant(cfg, net)
  {
    assert Connects([], 0, 0);
    ExecInvariant(cfg, Start, steps);
  }

  /** Where what the server read stands in what the client wrote. */
  lemma ReadPositions(c: Stream, s: Stream, up: seq<Bytes>, down: seq<Bytes>) returns (at: seq<nat>)
    requires LaneSeen(c, s, up, down)
    ensures |at| == |s.taken|
    ensures forall i :: 0 <= i < |at| ==> at[i] < |c.wrote| && s.taken[i] == c.wrote[at[i]]
    ensures forall i, j :: 0 <= i < j < |at| ==> at[i] < at[j]
  {
    assert s.taken + s.queue + up == s.taken + (s.queue + up);
    SubsequencePrefix(s.taken, s.queue + up, c.wrote);
    at := SubsequencePositions(s.taken, c.wrote);
  }
}
