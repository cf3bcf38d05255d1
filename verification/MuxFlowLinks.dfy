/** One flow-controlled stream among many: what each step of the actors and of the halves does to it. */
module MuxFlowLinks {
  import opened Common
  import opened Packets
  import opened MuxSpec
  import opened MuxDelivery
  import opened MuxFlow
  import FlowSpec
  import FlowSystem

  // ---------- Continue packets in flight ----------

  lemma {:induction false} CreditsSnoc(ps: seq<Packet>, p: Packet, id: u32)
    ensures Credits(ps + [p], id) == Credits(ps, id) + CreditOf(p, id)
    decreases |ps|
  {
    if ps == [] {
      assert [p][1..] == [] && ps + [p] == [p];
    } else {
      assert (ps + [p])[1..] == ps[1..] + [p];
      CreditsSnoc(ps[1..], p, id);
    }
  }

  lemma {:induction false} CreditsNone(ps: seq<Packet>, id: u32)
    requires forall i :: 0 <= i < |ps| ==> ps[i].body.Continue? ==> ps[i].streamId < id
    ensures Credits(ps, id) == []
    decreases |ps|
  {
    if ps != [] {
      assert forall i :: 0 <= i < |ps[1..]| ==> ps[1..][i] == ps[i + 1];
      CreditsNone(ps[1..], id);
    }
  }

  lemma CreditsPush(ps: seq<Packet>, p: Option<Packet>, id: u32)
    requires p.Some? ==> !p.value.body.Continue?
    ensures Credits(Push(ps, p), id) == Credits(ps, id)
  {
    if p.Some? {
      CreditsSnoc(ps, p.value, id);
      assert Credits(ps, id) + [] == Credits(ps, id);
    }
  }

  // ---------- What handling an event does to a stream ----------

  /** The credit the event brings for the stream at position `n`. */
  function NewCredit(e: Event, n: nat, s: Stream): u32 {
    if e.Message? && e.packet.body.Continue? && e.packet.streamId == n + 1 && s.connected && s.tracks
    then e.packet.body.bufferRemaining else s.credit
  }

  /** What becomes of a client stream. */
  predicate ClientEvolves(e: Event, n: nat, s: Stream, s': Stream) {
    && s'.tracks == s.tracks && s'.wrote == s.wrote && (s'.connected ==> s.connected)
    && s'.credit == NewCredit(e, n, s)
    && (e.Message? && (e.packet.body.Continue? || e.packet.body.Data?) ==> s'.connected == s.connected)
  }

  lemma ClientStreamAfter(cfg: Config, m: Mux, e: Event, n: nat)
    requires cfg.role.Client? && Sound(m) && Tidy(m) && n < |m.streams|
    ensures n < |Handle(cfg, m, e).mux.streams| && ClientEvolves(e, n, m.streams[n], Handle(cfg, m, e).mux.streams[n])
  {
    if m.running && e.Message? { ClientStreamAfterPacket(cfg, m, e.packet, n); }
  }

  lemma ClientStreamAfterPacket(cfg: Config, m: Mux, p: Packet, n: nat)
    requires cfg.role.Client? && Sound(m) && Tidy(m) && n < |m.streams|
    ensures n < |HandlePacket(cfg, m, p).streams|
    ensures ClientEvolves(Message(p), n, m.streams[n], HandlePacket(cfg, m, p).streams[n])
  {
    if p.body.Connect? {
      var added := AddStream(cfg, m, p.streamId, p.body.streamType);
      assert added.streams[n] == m.streams[n].(connected := added.streams[n].connected);
    }
  }

  /** A server stream with one more packet of data. */
  function Delivered(s: Stream, data: Bytes): Stream {
    var r := FlowSpec.Deliver(AsReader(s), s.capacity, data).0;
    s.(queue := r.queue, credit := r.credit)
  }

  /** What becomes of a server stream that stays open. */
  predicate ServerEvolves(e: Event, n: nat, s: Stream, s': Stream) {
    s'.connected ==>
      && s.connected
      && (if e.Message? && e.packet.body.Data? && e.packet.streamId == n + 1
          then s' == Delivered(s, e.packet.body.payload) else s' == s)
  }

  lemma ServerStreamAfter(cfg: Config, m: Mux, e: Event, n: nat)
    requires cfg.role.Server? && Sound(m) && Tidy(m) && n < |m.streams|
    ensures n < |Handle(cfg, m, e).mux.streams| && ServerEvolves(e, n, m.streams[n], Handle(cfg, m, e).mux.streams[n])
  {
    if m.running && e.Message? { ServerStreamAfterPacket(cfg, m, e.packet, n); }
  }

  lemma ServerStreamAfterPacket(cfg: Config, m: Mux, p: Packet, n: nat)
    requires cfg.role.Server? && Sound(m) && Tidy(m) && n < |m.streams| && m.running
    ensures n < |HandlePacket(cfg, m, p).streams|
    ensures ServerEvolves(Message(p), n, m.streams[n], HandlePacket(cfg, m, p).streams[n])
  {
    match p.body
    case Connect(t, _, _) =>
      var added := AddStream(cfg, m, p.streamId, t);
      assert added.streams[n] == m.streams[n].(connected := added.streams[n].connected);
    case Data(data) => ServerStreamAfterData(cfg, m, p.streamId, data, n);
    case _ =>
  }

  lemma ServerStreamAfterData(cfg: Config, m: Mux, id: u32, data: Bytes, n: nat)
    requires cfg.role.Server? && Sound(m) && Tidy(m) && n < |m.streams|
    ensures n < |Route(cfg, m, id, data).streams|
    ensures Route(cfg, m, id, data).streams[n] == if id == n + 1 then Delivered(m.streams[n], data) else m.streams[n]
  {
  }

  // ---------- Steps of the actors and one stream ----------

  /** A close on the client side silences the updates. */
  lemma DeafOk(cfg: Pair, flow: Flow, was: bool, now: bool)
    requires FlowOk(cfg, flow, was) && (now ==> was) && (!was ==> flow.updates == [])
    ensures FlowOk(cfg, if now then flow else flow.(updates := []), now)
  {
    if was && !now { CloseKept(cfg, flow); }
    if !was { assert flow.(updates := []) == flow; }
  }

  lemma LinkedClientLocal(cfg: Pair, net: Net, e: Event, n: nat, flow: Flow)
    requires Ready(cfg, net) && Wires(net) && Linked(cfg, net, n, flow) && IsLocal(e)
    ensures var net' := Next(cfg, net, ClientLocal(e)).value; Linked(cfg, net', n, Deaf(net', n, flow))
  {
    var net' := Next(cfg, net, ClientLocal(e)).value;
    ClientStreamAfter(cfg.c, net.client, e, n);
    HandleSendsNoData(cfg.c, net.client, e);
    InFlightPush(net.toServer, Handle(cfg.c, net.client, e).sent, n + 1);
    DeafOk(cfg, flow, net.client.streams[n].connected, net'.client.streams[n].connected);
  }

  lemma HandleSendsNoContinue(cfg: Config, m: Mux, e: Event)
    requires Sound(m)
    ensures Handle(cfg, m, e).sent.Some? ==> !Handle(cfg, m, e).sent.value.body.Continue?
  {
  }

  lemma LinkedServerLocal(cfg: Pair, net: Net, e: Event, n: nat, flow: Flow)
    requires Ready(cfg, net) && Wires(net) && Linked(cfg, net, n, flow) && IsLocal(e) && !e.CreateStream?
    requires Alive(Next(cfg, net, ServerLocal(e)).value, n)
    ensures var net' := Next(cfg, net, ServerLocal(e)).value; Linked(cfg, net', n, Deaf(net', n, flow))
  {
    StreamsGrow(cfg.s, net.server, e);
    if n < |net.server.streams| { ServerStreamAfter(cfg.s, net.server, e, n); }
    HandleSendsNoContinue(cfg.s, net.server, e);
    CreditsPush(net.toClient, Handle(cfg.s, net.server, e).sent, n + 1);
  }

  /** The client takes over a credit. */
  lemma UpdateLinks(cfg: Pair, flow: Flow, credit: u32, rest: seq<u32>)
    requires cfg.s.bufferSize <= 10 && FlowOk(cfg, flow, true) && flow.updates == [credit] + rest
    ensures var next := FlowSystem.Next(Flushed(cfg), flow, FlowSystem.Update);
      && next.Some? && FlowOk(cfg, next.value, true) && next.value.updates == rest
      && next.value.writer.credit == credit && next.value.reader == flow.reader && next.value.data == flow.data
      && next.value.accepted == flow.accepted && next.value.returned == flow.returned
  {
    assert flow.updates[0] == credit && flow.updates[1..] == rest;
    UpdateKept(cfg, flow);
  }

  /** The client side of a stream changed, and its halves with it. */
  lemma LinkedClientSide(cfg: Pair, net: Net, net': Net, n: nat, flow: Flow, flow': Flow)
    requires Linked(cfg, net, n, flow) && n < |net'.client.streams|
    requires net'.server == net.server && net'.toServer == net.toServer
    requires flow'.reader == flow.reader && flow'.data == flow.data && flow'.accepted == flow.accepted
    requires flow'.returned == flow.returned
    requires var c, c' := net.client.streams[n], net'.client.streams[n];
      && c'.tracks && c'.wrote == c.wrote && c'.credit == flow'.writer.credit && FlowOk(cfg, flow', c'.connected)
      && flow'.updates == (if c'.connected then Credits(net'.toClient, n + 1) else [])
    ensures Linked(cfg, net', n, flow')
  {
  }

  lemma LinkedClientReceives(cfg: Pair, net: Net, n: nat, flow: Flow)
    requires cfg.s.bufferSize <= 10 && Ready(cfg, net) && Wires(net) && Linked(cfg, net, n, flow) && net.toClient != []
    ensures var net' := Next(cfg, net, ClientReceives).value;
      Linked(cfg, net', n, Deaf(net', n, FlowAfter(cfg, net, ClientReceives, n, flow)))
  {
    var p := net.toClient[0];
    var net' := Next(cfg, net, ClientReceives).value;
    ClientStreamAfter(cfg.c, net.client, Message(p), n);
    if p.body.Continue? && p.streamId == n + 1 && net.client.streams[n].connected {
      LinkedUpdate(cfg, net, net', n, flow);
    } else {
      LinkedQuiet(cfg, net, net', n, flow);
    }
  }

  lemma LinkedUpdate(cfg: Pair, net: Net, net': Net, n: nat, flow: Flow)
    requires cfg.s.bufferSize <= 10 && Linked(cfg, net, n, flow) && net.toClient != []
    requires net' == net.(client := net'.client, toClient := net.toClient[1..]) && n < |net'.client.streams|
    requires var p, c := net.toClient[0], net.client.streams[n];
      && p.body.Continue? && p.streamId == n + 1 && c.connected
      && net'.client.streams[n] == c.(credit := p.body.bufferRemaining)
    ensures Linked(cfg, net', n, Deaf(net', n, FlowAfter(cfg, net, ClientReceives, n, flow)))
  {
    var credit, rest := net.toClient[0].body.bufferRemaining, Credits(net.toClient[1..], n + 1);
    assert Credits(net.toClient, n + 1) == [credit] + rest;
    UpdateLinks(cfg, flow, credit, rest);
    LinkedClientSide(cfg, net, net', n, flow, FlowAfter(cfg, net, ClientReceives, n, flow));
  }

  lemma LinkedQuiet(cfg: Pair, net: Net, net': Net, n: nat, flow: Flow)
    requires Linked(cfg, net, n, flow) && net.toClient != []
    requires net' == net.(client := net'.client, toClient := net.toClient[1..]) && n < |net'.client.streams|
    requires var p, c, c' := net.toClient[0], net.client.streams[n], net'.client.streams[n];
      && !(p.body.Continue? && p.streamId == n + 1 && c.connected) && (c'.connected ==> c.connected)
      && c'.tracks == c.tracks && c'.wrote == c.wrote && c'.credit == c.credit
    ensures Linked(cfg, net', n, Deaf(net', n, FlowAfter(cfg, net, ClientReceives, n, flow)))
  {
    var p, rest := net.toClient[0], Credits(net.toClient[1..], n + 1);
    assert Credits(net.toClient, n + 1) == CreditOf(p, n + 1) + rest;
    assert CreditOf(p, n + 1) == [] ==> Credits(net.toClient, n + 1) == rest;
    assert FlowAfter(cfg, net, ClientReceives, n, flow) == flow;
    DeafOk(cfg, flow, net.client.streams[n].connected, net'.client.streams[n].connected);
    LinkedClientSide(cfg, net, net', n, flow, Deaf(net', n, flow));
  }

  /** Data for the stream reaches the server: the queue takes it. */
  lemma ArriveLinks(cfg: Pair, flow: Flow, s: Stream, data: Bytes, rest: seq<Bytes>, open: bool)
    requires FlowOk(cfg, flow, open) && (!open ==> flow.updates == []) && flow.data == [data] + rest
    requires s.connected && s.capacity == Some(cfg.s.bufferSize) && s.queue == flow.reader.queue
    requires s.credit == flow.reader.credit
    ensures var next := FlowSystem.Next(Flushed(cfg), flow, FlowSystem.Arrive);
      && next.Some? && FlowOk(cfg, next.value, open) && next.value.data == rest
      && next.value.accepted == flow.accepted + [data] && next.value.writer == flow.writer
      && next.value.updates == flow.updates && next.value.returned == flow.returned
      && next.value.reader.chunk == flow.reader.chunk
      && Delivered(s, data).queue == next.value.reader.queue && Delivered(s, data).credit == next.value.reader.credit
  {
    var next := FlowSystem.Next(Flushed(cfg), flow, FlowSystem.Arrive);
    assert flow.data[0] == data && flow.data[1..] == rest;
    FlowKept(cfg, flow, FlowSystem.Arrive, open);
    if !open { assert next.value.(updates := []) == next.value; }
    assert flow.reader.connected;
  }

  lemma LinkedServerData(cfg: Pair, net: Net, n: nat, flow: Flow)
    requires Ready(cfg, net) && Wires(net) && Linked(cfg, net, n, flow) && net.toServer != []
    requires n < |net.server.streams|
    requires net.toServer[0].body.Data? && net.toServer[0].streamId == n + 1
    requires Alive(Next(cfg, net, ServerReceives).value, n)
    ensures var net' := Next(cfg, net, ServerReceives).value;
      Linked(cfg, net', n, Deaf(net', n, FlowAfter(cfg, net, ServerReceives, n, flow)))
  {
    var p, c, s := net.toServer[0], net.client.streams[n], net.server.streams[n];
    var rest := InFlight(net.toServer[1..], n + 1);
    ServerStreamAfter(cfg.s, net.server, Message(p), n);
    assert InFlight(net.toServer, n + 1) == [p.body.payload] + rest;
    ArriveLinks(cfg, flow, s, p.body.payload, rest, c.connected);
    LinkedServerSide(cfg, net, Next(cfg, net, ServerReceives).value, n, flow,
                     FlowAfter(cfg, net, ServerReceives, n, flow), p.body.payload);
  }

  /** The server's side of a stream took a chunk, and its halves with it. */
  lemma LinkedServerSide(cfg: Pair, net: Net, net': Net, n: nat, flow: Flow, flow': Flow, data: Bytes)
    requires Linked(cfg, net, n, flow) && n < |net.server.streams| && n < |net'.server.streams| && Alive(net', n)
    requires net'.client == net.client && net'.toClient == net.toClient
    requires flow.data == [data] + flow'.data && flow'.accepted == flow.accepted + [data]
    requires flow'.writer == flow.writer && flow'.updates == flow.updates && flow'.returned == flow.returned
    requires flow'.reader.chunk == flow.reader.chunk && FlowOk(cfg, flow', net.client.streams[n].connected)
    requires flow'.data == InFlight(net'.toServer, n + 1)
    requires var s, s' := net.server.streams[n], net'.server.streams[n];
      && s'.capacity == s.capacity && s'.tracks == s.tracks && s'.taken == s.taken
      && s'.queue == flow'.reader.queue && s'.credit == flow'.reader.credit
    ensures Linked(cfg, net', n, Deaf(net', n, flow'))
  {
    assert flow.accepted + ([data] + flow'.data) == flow.accepted + [data] + flow'.data;
  }

  lemma LinkedServerOther(cfg: Pair, net: Net, n: nat, flow: Flow)
    requires Ready(cfg, net) && Wires(net) && Linked(cfg, net, n, flow) && net.toServer != []
    requires n < |net.server.streams|
    requires !(net.toServer[0].body.Data? && net.toServer[0].streamId == n + 1)
    requires Alive(Next(cfg, net, ServerReceives).value, n)
    ensures var net' := Next(cfg, net, ServerReceives).value;
      Linked(cfg, net', n, Deaf(net', n, FlowAfter(cfg, net, ServerReceives, n, flow)))
  {
    var p := net.toServer[0];
    ServerStreamAfter(cfg.s, net.server, Message(p), n);
    assert InFlight(net.toServer, n + 1) == InFlight(net.toServer[1..], n + 1);
  }

  /** The Connect packets in flight carry the kind of their stream, and both sides know a stream as the same kind. */
  predicate Kinds(cfg: Pair, net: Net) {
    && (forall i :: 0 <= i < |net.toServer| && net.toServer[i].body.Connect? ==> KindOf(cfg, net, net.toServer[i]))
    && (forall n :: 0 <= n < |net.server.streams| ==> SameKind(net, n))
    && (forall i :: 0 <= i < |net.toClient| && net.toClient[i].body.Continue? ==>
          net.toClient[i].streamId <= |net.server.streams|)
  }

  predicate SameKind(net: Net, n: nat)
    requires n < |net.server.streams|
  {
    n < |net.client.streams| && net.server.streams[n].capacity.Some? == net.client.streams[n].tracks
  }

  predicate KindOf(cfg: Pair, net: Net, p: Packet)
    requires p.body.Connect?
  {
    1 <= p.streamId <= |net.client.streams| &&
    net.client.streams[p.streamId - 1].tracks == (StreamCode(p.body.streamType) in cfg.s.flowTypes)
  }

  /** What a server that has not seen the stream makes of a packet. */
  lemma UnseenBecomes(cfg: Pair, m: Mux, p: Packet, n: nat)
    requires cfg.s.role.Server? && Sound(m) && |m.streams| <= n
    ensures var m' := Handle(cfg.s, m, Message(p)).mux;
      && |m'.streams| <= |m.streams| + 1
      && (n < |m'.streams| && m'.streams[n].connected ==>
            n == |m.streams| && p.body.Connect? && m'.streams[n] == NewStream(cfg.s, p.streamId, p.body.streamType))
      && (m'.running ==> m.running)
  {
  }

  lemma LinkedUnseenReceives(cfg: Pair, net: Net, n: nat, flow: Flow)
    requires Ready(cfg, net) && Wires(net) && Kinds(cfg, net) && Linked(cfg, net, n, flow) && net.toServer != []
    requires |net.server.streams| <= n && Alive(Next(cfg, net, ServerReceives).value, n)
    ensures var net' := Next(cfg, net, ServerReceives).value;
      Linked(cfg, net', n, Deaf(net', n, FlowAfter(cfg, net, ServerReceives, n, flow)))
  {
    var p := net.toServer[0];
    UnseenBecomes(cfg, net.server, p, n);
    UnseenHasNoData(net, n);
    assert InFlight(net.toServer, n + 1) == InFlight(net.toServer[1..], n + 1);
    if n < |Handle(cfg.s, net.server, Message(p)).mux.streams| {
      assert p.streamId == n + 1 && KindOf(cfg, net, p);
    }
  }

  /** As far as one direction of flow control is concerned, the stream is the same. */
  predicate SameStream(s: Stream, s': Stream) {
    s'.connected == s.connected && s'.tracks == s.tracks && s'.credit == s.credit && s'.capacity == s.capacity
  }

  /** Nothing changed that the halves of the stream at position `n` can see. */
  predicate SameView(net: Net, net': Net, n: nat) {
    && |net'.client.streams| == |net.client.streams| && |net'.server.streams| == |net.server.streams|
    && net'.server.running == net.server.running
    && (n < |net.client.streams| ==>
          SameStream(net.client.streams[n], net'.client.streams[n]) &&
          net'.client.streams[n].wrote == net.client.streams[n].wrote)
    && (n < |net.server.streams| ==>
          && SameStream(net.server.streams[n], net'.server.streams[n])
          && net'.server.streams[n].queue == net.server.streams[n].queue
          && net'.server.streams[n].taken == net.server.streams[n].taken)
  }

  lemma LinkedFrame(cfg: Pair, net: Net, net': Net, n: nat, flow: Flow)
    requires Linked(cfg, net, n, flow) && SameView(net, net', n)
    requires InFlight(net'.toServer, n + 1) == InFlight(net.toServer, n + 1)
    requires Credits(net'.toClient, n + 1) == Credits(net.toClient, n + 1)
    ensures Linked(cfg, net', n, flow) && Deaf(net', n, flow) == flow
  {
  }

  /** Halves of other streams, and the other direction of this one. */
  lemma OthersView(cfg: Pair, net: Net, step: Step, n: nat)
    requires BothSound(net) && Tidy(net.client) && Tidy(net.server) && Next(cfg, net, step).Some? && n < U32_MAX
    requires step.ClientWrites? || step.ServerWrites? || step.ServerUpdates? || step.ClientReads? || step.ServerReads?
    requires step.ClientWrites? || step.ServerUpdates? || step.ServerReads? ==> step.n != n
    requires n < |net.server.streams| ==> !net.server.streams[n].tracks
    ensures var net' := Next(cfg, net, step).value;
      && SameView(net, net', n)
      && InFlight(net'.toServer, n + 1) == InFlight(net.toServer, n + 1)
      && Credits(net'.toClient, n + 1) == Credits(net.toClient, n + 1)
  {
    if step.ClientWrites? {
      ClientWritesView(cfg, net, step, n);
    } else if step.ServerWrites? || step.ServerUpdates? {
      var body := if step.ServerWrites? then Data(step.data) else Continue(step.credit);
      var p := Packet(net.server.streams[step.n].id, body);
      ServerPushView(cfg, net, step, n, p);
    }
  }

  lemma ClientWritesView(cfg: Pair, net: Net, step: Step, n: nat)
    requires BothSound(net) && Tidy(net.client) && Next(cfg, net, step).Some? && n < U32_MAX
    requires step.ClientWrites? && step.n != n
    ensures var net' := Next(cfg, net, step).value;
      && SameView(net, net', n) && net'.toClient == net.toClient
      && InFlight(net'.toServer, n + 1) == InFlight(net.toServer, n + 1)
  {
    InFlightSnoc(net.toServer, Packet(net.client.streams[step.n].id, Data(step.data)), n + 1);
    assert InFlight(net.toServer, n + 1) + [] == InFlight(net.toServer, n + 1);
  }

  lemma ServerPushView(cfg: Pair, net: Net, step: Step, n: nat, p: Packet)
    requires BothSound(net) && Tidy(net.server) && Next(cfg, net, step).Some? && n < U32_MAX
    requires || (step.ServerWrites? && p.body == Data(step.data))
             || (step.ServerUpdates? && step.n != n && p.body == Continue(step.credit))
    requires p.streamId == net.server.streams[step.n].id
    requires n < |net.server.streams| ==> !net.server.streams[n].tracks
    ensures var net' := Next(cfg, net, step).value;
      && SameView(net, net', n) && net'.toServer == net.toServer
      && Credits(net'.toClient, n + 1) == Credits(net.toClient, n + 1)
  {
    CreditsSnoc(net.toClient, p, n + 1);
    assert CreditOf(p, n + 1) == [] && Credits(net.toClient, n + 1) + [] == Credits(net.toClient, n + 1);
  }

  lemma LinkedOthers(cfg: Pair, net: Net, step: Step, n: nat, flow: Flow)
    requires Ready(cfg, net) && Linked(cfg, net, n, flow) && Next(cfg, net, step).Some?
    requires step.ClientWrites? || step.ServerWrites? || step.ServerUpdates? || step.ClientReads? || step.ServerReads?
    requires step.ClientWrites? || step.ServerUpdates? || step.ServerReads? ==> step.n != n
    ensures var net' := Next(cfg, net, step).value; Linked(cfg, net', n, flow) && Deaf(net', n, flow) == flow
  {
    OthersView(cfg, net, step, n);
    LinkedFrame(cfg, net, Next(cfg, net, step).value, n, flow);
  }

  lemma BirthStream(cfg: Config, m: Mux, e: Event)
    requires Sound(m) && Tidy(m) && (m.running ==> m.currentId == |m.streams|) && IsLocal(e)
    requires |m.streams| < |Handle(cfg, m, e).mux.streams|
    ensures e.CreateStream? && |m.streams| < U32_MAX && |Handle(cfg, m, e).mux.streams| == |m.streams| + 1
    ensures Handle(cfg, m, e).mux.streams[|m.streams|] == NewStream(cfg, |m.streams| + 1, e.streamType)
  {
    StreamsGrow(cfg, m, e);
  }

  /** Nothing is on its way for a stream that does not exist yet. */
  lemma BirthWires(cfg: Pair, net: Net, e: Event)
    requires Ready(cfg, net) && Wires(net) && Kinds(cfg, net) && |net.client.streams| < U32_MAX
    ensures var n, sent := |net.client.streams|, Handle(cfg.c, net.client, e).sent;
      InFlight(Push(net.toServer, sent), n + 1) == [] && Credits(net.toClient, n + 1) == []
  {
    var n := |net.client.streams|;
    HandleSendsNoData(cfg.c, net.client, e);
    InFlightPush(net.toServer, Handle(cfg.c, net.client, e).sent, n + 1);
    InFlightNone(net.toServer, n + 1);
    CreditsNone(net.toClient, n + 1);
  }

  /** A new flow-controlled stream. */
  lemma BirthView(cfg: Pair, net: Net, e: Event)
    requires Agree(cfg) && Ready(cfg, net) && Wires(net) && Kinds(cfg, net) && IsLocal(e)
    requires |net.client.streams| < |Next(cfg, net, ClientLocal(e)).value.client.streams|
    ensures var net', n := Next(cfg, net, ClientLocal(e)).value, |net.client.streams|;
      && n < U32_MAX && e.CreateStream? && |net'.client.streams| == n + 1 && |net'.server.streams| <= n
      && net'.client.streams[n] == NewStream(cfg.c, n + 1, e.streamType)
      && InFlight(net'.toServer, n + 1) == [] && Credits(net'.toClient, n + 1) == []
  {
    BirthStream(cfg.c, net.client, e);
    BirthWires(cfg, net, e);
  }

  lemma LinkedNewborn(cfg: Pair, net: Net, n: nat, t: StreamType)
    requires Agree(cfg) && n < U32_MAX && |net.server.streams| <= n < |net.client.streams| && Alive(net, n)
    requires net.client.streams[n] == NewStream(cfg.c, n + 1, t) && net.client.streams[n].tracks
    requires InFlight(net.toServer, n + 1) == [] && Credits(net.toClient, n + 1) == []
    ensures Linked(cfg, net, n, Deaf(net, n, FlowSystem.Init(Flushed(cfg))))
  {
    InitOk(cfg);
  }

  // ---------- Steps of the halves and their own stream ----------

  lemma WroteIsStep(cfg: Pair, net: Net, n: nat, before: Flow, after: Flow)
    requires BothSound(net) && n < |net.client.streams|
    ensures |after.data| > |before.data| ==>
      Next(cfg, net, ClientWrites(n, after.data[|after.data| - 1])) == Some(Wrote(net, n, before, after))
  {
  }

  /** What a call of the writing half changes. */
  lemma WriterCall(cfg: Pair, flow: Flow, call: FlowSystem.Step)
    requires FlowSystem.ByWriter(call) && FlowSystem.Next(Flushed(cfg), flow, call).Some?
    ensures Writes(flow, FlowSystem.Next(Flushed(cfg), flow, call).value)
  {
  }

  /** One packet more on the wire and on the books. */
  lemma WroteView(net: Net, n: nat, flow: Flow, flow': Flow, x: Bytes)
    requires n < U32_MAX && n < |net.client.streams| && net.client.streams[n].id == n + 1
    requires net.client.streams[n].tracks
    requires flow'.data == flow.data + [x]
    ensures var net', c := Wrote(net, n, flow, flow'), net.client.streams[n];
      && |net'.client.streams| == |net.client.streams| && net'.server == net.server && net'.toClient == net.toClient
      && net'.client.streams[n] == c.(wrote := c.wrote + [x], credit := SatSub(c.credit, 1))
      && InFlight(net'.toServer, n + 1) == InFlight(net.toServer, n + 1) + [x]
  {
    InFlightSnoc(net.toServer, Packet(n + 1, Data(x)), n + 1);
  }

  lemma LinkedOwnWrite(cfg: Pair, net: Net, n: nat, flow: Flow, call: FlowSystem.Step)
    requires Ready(cfg, net) && Wires(net) && Linked(cfg, net, n, flow)
    requires FlowSystem.ByWriter(call) && FlowSystem.Next(Flushed(cfg), flow, call).Some?
    ensures var flow' := FlowSystem.Next(Flushed(cfg), flow, call).value;
      var net' := Wrote(net, n, flow, flow');
      Linked(cfg, net', n, Deaf(net', n, flow'))
  {
    var flow' := FlowSystem.Next(Flushed(cfg), flow, call).value;
    FlowKept(cfg, flow, call, net.client.streams[n].connected);
    WriterCall(cfg, flow, call);
    LinkedWrites(cfg, net, n, flow, flow');
  }

  /** What `WriterCall` says. */
  predicate Writes(flow: Flow, flow': Flow) {
    && flow'.reader == flow.reader && flow'.updates == flow.updates && flow'.accepted == flow.accepted
    && flow'.returned == flow.returned
    && (|| (flow'.data == flow.data && flow'.writer.credit == flow.writer.credit)
        || (|flow'.data| == |flow.data| + 1 && flow'.data == flow.data + [flow'.data[|flow.data|]] &&
            flow'.writer.credit == SatSub(flow.writer.credit, 1)))
  }

  lemma LinkedWrites(cfg: Pair, net: Net, n: nat, flow: Flow, flow': Flow)
    requires Linked(cfg, net, n, flow) && Writes(flow, flow') && net.client.streams[n].id == n + 1
    requires var open := net.client.streams[n].connected;
      FlowOk(cfg, if open then flow' else flow'.(updates := []), open)
    ensures var net' := Wrote(net, n, flow, flow'); Linked(cfg, net', n, Deaf(net', n, flow'))
  {
    if |flow'.data| > |flow.data| {
      var x := flow'.data[|flow.data|];
      WroteView(net, n, flow, flow', x);
      assert flow.accepted + (flow.data + [x]) == flow.accepted + flow.data + [x];
    }
    LinkedWritten(cfg, net, Wrote(net, n, flow, flow'), n, flow, flow');
  }

  lemma LinkedWritten(cfg: Pair, net: Net, net': Net, n: nat, flow: Flow, flow': Flow)
    requires n < U32_MAX && n < |net.client.streams| == |net'.client.streams| && Alive(net, n)
    requires var open := net.client.streams[n].connected;
      FlowOk(cfg, if open then flow' else flow'.(updates := []), open)
    requires net'.server == net.server && net'.toClient == net.toClient && ServerLinked(cfg, net, n, flow)
    requires flow'.reader == flow.reader && flow'.updates == flow.updates && flow'.accepted == flow.accepted
    requires flow'.returned == flow.returned
    requires var c := net'.client.streams[n];
      && c.connected == net.client.streams[n].connected && c.tracks && c.credit == flow'.writer.credit
      && c.wrote == flow'.accepted + flow'.data && flow'.data == InFlight(net'.toServer, n + 1)
      && flow.updates == (if c.connected then Credits(net.toClient, n + 1) else [])
    ensures Linked(cfg, net', n, Deaf(net', n, flow'))
  {
  }

  /** What a read changes. */
  predicate Reads(flow: Flow, flow': Flow) {
    && flow'.writer == flow.writer && flow'.data == flow.data && flow'.accepted == flow.accepted
    && (if |flow'.reader.queue| < |flow.reader.queue| then
          && flow'.reader.queue == flow.reader.queue[1..]
          && flow'.returned + FlowSystem.Opt(flow'.reader.chunk) ==
             flow.returned + FlowSystem.Opt(flow.reader.chunk) + [flow.reader.queue[0]]
        else
          && flow'.reader.queue == flow.reader.queue
          && flow'.returned + FlowSystem.Opt(flow'.reader.chunk) == flow.returned + FlowSystem.Opt(flow.reader.chunk))
    && (if |flow'.updates| > |flow.updates| then flow'.updates == flow.updates + [flow'.reader.credit]
        else flow'.updates == flow.updates && flow'.reader.credit == flow.reader.credit)
  }

  lemma ReaderCall(cfg: Pair, flow: Flow, call: FlowSystem.Step)
    requires call.Read? && Core(cfg, flow) && FlowSystem.Next(Flushed(cfg), flow, call).Some?
    ensures Reads(flow, FlowSystem.Next(Flushed(cfg), flow, call).value)
  {
    FlowSystem.HasEffect(Flushed(cfg), flow, call);
    ReaderMoves(cfg, flow, call);
  }

  lemma ReaderMoves(cfg: Pair, flow: Flow, call: FlowSystem.Step)
    requires call.Read? && FlowSystem.Next(Flushed(cfg), flow, call).Some?
    ensures var flow' := FlowSystem.Next(Flushed(cfg), flow, call).value;
      && flow'.accepted == flow.accepted && |flow'.reader.queue| <= |flow.reader.queue|
      && (if |flow'.reader.queue| < |flow.reader.queue| then
            && flow'.reader.queue == flow.reader.queue[1..]
            && flow'.returned + FlowSystem.Opt(flow'.reader.chunk) ==
               flow.returned + FlowSystem.Opt(flow.reader.chunk) + [flow.reader.queue[0]]
          else
            && flow'.reader.queue == flow.reader.queue
            && flow'.returned + FlowSystem.Opt(flow'.reader.chunk) ==
               flow.returned + FlowSystem.Opt(flow.reader.chunk))
  {
  }

  /** The server's stream after a read, and the wire to the client. */
  lemma ReadView(net: Net, n: nat, flow: Flow, flow': Flow)
    requires n < U32_MAX && n < |net.server.streams| && net.server.streams[n].id == n + 1 && Reads(flow, flow')
    requires net.server.streams[n].connected
    requires net.server.streams[n].queue == flow.reader.queue && net.server.streams[n].credit == flow.reader.credit
    requires net.server.streams[n].taken == flow.returned + FlowSystem.Opt(flow.reader.chunk)
    ensures var net', s := ReadFrom(net, n, flow, flow'), net.server.streams[n];
      && net'.client == net.client && net'.toServer == net.toServer
      && |net'.server.streams| == |net.server.streams| && net'.server.table == net.server.table
      && net'.server.running == net.server.running
      && net'.server.streams[n] == s.(queue := flow'.reader.queue, credit := flow'.reader.credit,
                                      taken := flow'.returned + FlowSystem.Opt(flow'.reader.chunk))
      && Credits(net'.toClient, n + 1) ==
         Credits(net.toClient, n + 1) + if |flow'.updates| > |flow.updates| then [flow'.reader.credit] else []
  {
    if |flow'.updates| > |flow.updates| {
      CreditsSnoc(net.toClient, Packet(n + 1, Continue(flow'.reader.credit)), n + 1);
    } else {
      assert Credits(net.toClient, n + 1) + [] == Credits(net.toClient, n + 1);
    }
  }

  lemma LinkedReads(cfg: Pair, net: Net, n: nat, flow: Flow, flow': Flow)
    requires Linked(cfg, net, n, flow) && n < |net.server.streams| && net.server.streams[n].id == n + 1
    requires Reads(flow, flow')
    requires var open := net.client.streams[n].connected;
      FlowOk(cfg, if open then flow' else flow'.(updates := []), open)
    ensures var net' := ReadFrom(net, n, flow, flow'); Linked(cfg, net', n, Deaf(net', n, flow'))
  {
    ReadView(net, n, flow, flow');
  }

  lemma LinkedOwnRead(cfg: Pair, net: Net, n: nat, flow: Flow, call: FlowSystem.Step)
    requires Ready(cfg, net) && Wires(net) && Linked(cfg, net, n, flow) && n < |net.server.streams|
    requires call.Read? && FlowSystem.Next(Flushed(cfg), flow, call).Some?
    ensures var flow' := FlowSystem.Next(Flushed(cfg), flow, call).value;
      var net' := ReadFrom(net, n, flow, flow');
      Linked(cfg, net', n, Deaf(net', n, flow'))
  {
    var flow' := FlowSystem.Next(Flushed(cfg), flow, call).value;
    FlowKept(cfg, flow, call, net.client.streams[n].connected);
    ReaderCall(cfg, flow, call);
    LinkedReads(cfg, net, n, flow, flow');
  }
}
