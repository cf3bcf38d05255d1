/** Every stream of a client and a server delivers everything, flow-controlled or not. */
module MuxFlowDelivery {
  import opened Common
  import opened Packets
  import opened MuxSpec
  import opened MuxDelivery
  import opened MuxFlow
  import opened MuxFlowLinks
  import FlowSystem

  // ---------- Kinds ----------

  lemma KindsClientLocal(cfg: Pair, net: Net, e: Event)
    requires Agree(cfg) && Ready(cfg, net) && Wires(net) && Kinds(cfg, net) && IsLocal(e)
    ensures Kinds(cfg, Next(cfg, net, ClientLocal(e)).value)
  {
    var net' := Next(cfg, net, ClientLocal(e)).value;
    var h := Handle(cfg.c, net.client, e);
    StreamsGrow(cfg.c, net.client, e);
    forall n | 0 <= n < |net.client.streams| ensures net'.client.streams[n].tracks == net.client.streams[n].tracks {
      ClientStreamAfter(cfg.c, net.client, e, n);
    }
    if |net.client.streams| < |h.mux.streams| { BirthStream(cfg.c, net.client, e); }
    forall n | 0 <= n < |net'.server.streams| ensures SameKind(net', n) { assert SameKind(net, n); }
    forall i | 0 <= i < |net'.toServer| && net'.toServer[i].body.Connect? ensures KindOf(cfg, net', net'.toServer[i]) {
      if i < |net.toServer| {
        assert KindOf(cfg, net, net.toServer[i]);
      } else {
        SentConnect(cfg.c, net.client, e);
      }
    }
  }

  lemma SentConnect(cfg: Config, m: Mux, e: Event)
    requires Sound(m) && Handle(cfg, m, e).sent.Some? && Handle(cfg, m, e).sent.value.body.Connect?
    ensures m.running && e.CreateStream? && m.currentId < U32_MAX
    ensures Handle(cfg, m, e).sent.value.streamId == m.currentId + 1
    ensures Handle(cfg, m, e).sent.value.body.streamType == e.streamType
    ensures |Handle(cfg, m, e).mux.streams| == |m.streams| + 1
  {
  }

  lemma KindsServerLocal(cfg: Pair, net: Net, e: Event)
    requires Ready(cfg, net) && Wires(net) && Kinds(cfg, net) && IsLocal(e) && !e.CreateStream?
    ensures Kinds(cfg, Next(cfg, net, ServerLocal(e)).value)
  {
    var net' := Next(cfg, net, ServerLocal(e)).value;
    StreamsGrow(cfg.s, net.server, e);
    HandleSendsNoContinue(cfg.s, net.server, e);
    forall n | 0 <= n < |net.server.streams| ensures SameKind(net', n) {
      StreamEvolves(cfg.s, net.server, e, n);
      assert SameKind(net, n);
    }
    forall i | 0 <= i < |net'.toServer| && net'.toServer[i].body.Connect? ensures KindOf(cfg, net', net'.toServer[i]) {
      assert KindOf(cfg, net, net.toServer[i]);
    }
  }

  lemma KindsClientReceives(cfg: Pair, net: Net)
    requires Ready(cfg, net) && Wires(net) && Kinds(cfg, net) && net.toClient != []
    ensures Kinds(cfg, Next(cfg, net, ClientReceives).value)
  {
    var net' := Next(cfg, net, ClientReceives).value;
    var e := Message(net.toClient[0]);
    StreamsGrow(cfg.c, net.client, e);
    forall n | 0 <= n < |net.client.streams| ensures net'.client.streams[n].tracks == net.client.streams[n].tracks {
      ClientStreamAfter(cfg.c, net.client, e, n);
    }
    forall n | 0 <= n < |net'.server.streams| ensures SameKind(net', n) { assert SameKind(net, n); }
    forall i | 0 <= i < |net'.toServer| && net'.toServer[i].body.Connect? ensures KindOf(cfg, net', net'.toServer[i]) {
      assert KindOf(cfg, net, net.toServer[i]);
    }
  }

  lemma NewServerKind(cfg: Config, m: Mux, p: Packet)
    requires cfg.role.Server? && Sound(m) && |Handle(cfg, m, Message(p)).mux.streams| > |m.streams|
    ensures m.running && p.body.Connect? && |Handle(cfg, m, Message(p)).mux.streams| == |m.streams| + 1
    ensures Handle(cfg, m, Message(p)).mux.streams[|m.streams|].capacity.Some? ==
            (StreamCode(p.body.streamType) in cfg.flowTypes)
  {
    StreamsGrow(cfg, m, Message(p));
  }

  lemma KindsServerReceives(cfg: Pair, net: Net)
    requires Ready(cfg, net) && Wires(net) && Kinds(cfg, net) && net.toServer != []
    ensures Kinds(cfg, Next(cfg, net, ServerReceives).value)
  {
    var net' := Next(cfg, net, ServerReceives).value;
    var p, k := net.toServer[0], |net.server.streams|;
    StreamsGrow(cfg.s, net.server, Message(p));
    forall n | 0 <= n < k ensures SameKind(net', n) {
      StreamEvolves(cfg.s, net.server, Message(p), n);
      assert SameKind(net, n);
    }
    if k < |net'.server.streams| {
      NewServerKind(cfg.s, net.server, p);
      assert KindOf(cfg, net, p) && p.streamId == k + 1;
    }
    forall i | 0 <= i < |net'.toServer| && net'.toServer[i].body.Connect? ensures KindOf(cfg, net', net'.toServer[i]) {
      assert KindOf(cfg, net, net.toServer[i + 1]);
    }
  }

  lemma KindOthers(cfg: Pair, net: Net, step: Step, n: nat)
    requires BothSound(net) && Next(cfg, net, step).Some? && n < |net.server.streams| && SameKind(net, n)
    requires step.ClientWrites? || step.ServerWrites? || step.ServerUpdates? || step.ClientReads? || step.ServerReads?
    ensures n < |Next(cfg, net, step).value.server.streams| && SameKind(Next(cfg, net, step).value, n)
  {
  }

  lemma KindsOthers(cfg: Pair, net: Net, step: Step)
    requires Ready(cfg, net) && Kinds(cfg, net) && Next(cfg, net, step).Some?
    requires step.ClientWrites? || step.ServerWrites? || step.ServerUpdates? || step.ClientReads? || step.ServerReads?
    ensures Kinds(cfg, Next(cfg, net, step).value)
  {
    var net' := Next(cfg, net, step).value;
    forall i | 0 <= i < |net'.toServer| && net'.toServer[i].body.Connect? ensures KindOf(cfg, net', net'.toServer[i]) {
      assert i < |net.toServer| && KindOf(cfg, net, net.toServer[i]);
    }
    assert |net'.server.streams| == |net.server.streams|;
    forall n | 0 <= n < |net'.server.streams| ensures SameKind(net', n) { KindOthers(cfg, net, step, n); }
  }

  lemma KindsNext(cfg: Pair, net: Net, step: Step)
    requires Agree(cfg) && Ready(cfg, net) && Wires(net) && Kinds(cfg, net) && Next(cfg, net, step).Some?
    ensures Kinds(cfg, Next(cfg, net, step).value)
  {
    match step
    case ClientLocal(e) => KindsClientLocal(cfg, net, e);
    case ServerLocal(e) => KindsServerLocal(cfg, net, e);
    case ClientReceives => KindsClientReceives(cfg, net);
    case ServerReceives => KindsServerReceives(cfg, net);
    case _ => KindsOthers(cfg, net, step);
  }

  // ---------- Whole runs ----------

  /** Exactly the flow-controlled streams that the server has not closed are managed. */
  predicate Managed(full: Full) {
    forall n :: 0 <= n < |full.net.client.streams| && full.net.client.streams[n].tracks && Alive(full.net, n) ==>
      n in full.flows
  }

  ghost predicate FullInv(cfg: Pair, full: Full) {
    && Invariant(cfg, full.net) && Kinds(cfg, full.net) && Managed(full)
    && forall n :: n in full.flows ==> Linked(cfg, full.net, n, full.flows[n])
  }

  /** One managed stream after a step of the actors. */
  lemma LinkedActors(cfg: Pair, net: Net, step: Step, n: nat, flow: Flow)
    requires cfg.s.bufferSize <= 10 && Ready(cfg, net) && Wires(net) && Kinds(cfg, net) && Linked(cfg, net, n, flow)
    requires Next(cfg, net, step).Some? && Alive(Next(cfg, net, step).value, n)
    requires step.ClientWrites? || step.ServerUpdates? || step.ServerReads? ==> step.n != n
    ensures var net' := Next(cfg, net, step).value;
      Linked(cfg, net', n, Deaf(net', n, FlowAfter(cfg, net, step, n, flow)))
  {
    match step
    case ClientLocal(e) => LinkedClientLocal(cfg, net, e, n, flow);
    case ServerLocal(e) => LinkedServerLocal(cfg, net, e, n, flow);
    case ClientReceives => LinkedClientReceives(cfg, net, n, flow);
    case ServerReceives =>
      if n >= |net.server.streams| {
        LinkedUnseenReceives(cfg, net, n, flow);
      } else if net.toServer[0].body.Data? && net.toServer[0].streamId == n + 1 {
        LinkedServerData(cfg, net, n, flow);
      } else {
        LinkedServerOther(cfg, net, n, flow);
      }
    case _ => LinkedOthers(cfg, net, step, n, flow);
  }

  /** A stream never comes back to life, and its kind never changes. */
  lemma NoRevival(cfg: Pair, net: Net, step: Step, n: nat)
    requires Ready(cfg, net) && Wires(net) && Next(cfg, net, step).Some? && n < |net.client.streams|
    ensures var net' := Next(cfg, net, step).value;
      && n < |net'.client.streams| && net'.client.streams[n].tracks == net.client.streams[n].tracks
      && (Alive(net', n) ==> Alive(net, n))
  {
    match step
    case ClientLocal(e) => ClientStreamAfter(cfg.c, net.client, e, n);
    case ClientReceives => ClientStreamAfter(cfg.c, net.client, Message(net.toClient[0]), n);
    case ServerLocal(e) => ServerRevival(cfg, net.server, e, n);
    case ServerReceives => ServerRevival(cfg, net.server, Message(net.toServer[0]), n);
    case _ =>
  }

  lemma ServerRevival(cfg: Pair, m: Mux, e: Event, n: nat)
    requires cfg.s.role.Server? && Sound(m) && Tidy(m)
    ensures var m' := Handle(cfg.s, m, e).mux;
      && |m.streams| <= |m'.streams| && (m'.running ==> m.running)
      && (n < |m.streams| && m'.streams[n].connected ==> m.streams[n].connected)
      && (|m.streams| <= n < |m'.streams| ==> m.running)
  {
    StreamsGrow(cfg.s, m, e);
    if n < |m.streams| { ServerStreamAfter(cfg.s, m, e, n); }
  }

  lemma BirthNeedsClient(cfg: Pair, net: Net, step: Step)
    requires Ready(cfg, net) && Wires(net) && Next(cfg, net, step).Some?
    requires |Next(cfg, net, step).value.client.streams| > |net.client.streams|
    ensures step.ClientLocal? && |Next(cfg, net, step).value.client.streams| == |net.client.streams| + 1
  {
    if step.ClientReceives? { StreamsGrow(cfg.c, net.client, Message(net.toClient[0])); }
    if step.ClientLocal? { StreamsGrow(cfg.c, net.client, step.event); }
  }

  lemma ActorsLinked(cfg: Pair, full: Full, step: Step, n: nat)
    requires Agree(cfg) && cfg.s.bufferSize <= 10 && FullInv(cfg, full) && Unmanaged(full, step)
    requires Next(cfg, full.net, step).Some?
    requires n in AfterActors(cfg, full, step, Next(cfg, full.net, step).value).flows
    ensures var full' := AfterActors(cfg, full, step, Next(cfg, full.net, step).value);
      Linked(cfg, full'.net, n, full'.flows[n])
  {
    var net, net' := full.net, Next(cfg, full.net, step).value;
    if n in full.flows {
      assert Linked(cfg, net, n, full.flows[n]);
      LinkedActors(cfg, net, step, n, full.flows[n]);
    } else {
      BornLinked(cfg, net, step, n);
    }
  }

  lemma BornLinked(cfg: Pair, net: Net, step: Step, n: nat)
    requires Agree(cfg) && Ready(cfg, net) && Wires(net) && Kinds(cfg, net) && Next(cfg, net, step).Some?
    requires var net' := Next(cfg, net, step).value;
      n == |net.client.streams| < |net'.client.streams| && net'.client.streams[n].tracks && Alive(net', n)
    ensures var net' := Next(cfg, net, step).value; Linked(cfg, net', n, Deaf(net', n, FlowSystem.Init(Flushed(cfg))))
  {
    BirthNeedsClient(cfg, net, step);
    BirthView(cfg, net, step.event);
    LinkedNewborn(cfg, Next(cfg, net, step).value, n, step.event.streamType);
  }

  lemma FullInvActors(cfg: Pair, full: Full, step: Step)
    requires Agree(cfg) && cfg.s.bufferSize <= 10 && FullInv(cfg, full)
    requires FullNext(cfg, full, Actors(step)).Some?
    ensures FullInv(cfg, FullNext(cfg, full, Actors(step)).value)
  {
    var net, net' := full.net, Next(cfg, full.net, step).value;
    var full' := AfterActors(cfg, full, step, net');
    InvariantNext(cfg, net, step);
    KindsNext(cfg, net, step);
    forall n | n in full'.flows ensures Linked(cfg, net', n, full'.flows[n]) { ActorsLinked(cfg, full, step, n); }
    ManagedActors(cfg, full, step);
  }

  lemma ManagedActors(cfg: Pair, full: Full, step: Step)
    requires Ready(cfg, full.net) && Wires(full.net) && Managed(full) && Next(cfg, full.net, step).Some?
    ensures Managed(AfterActors(cfg, full, step, Next(cfg, full.net, step).value))
  {
    var net' := Next(cfg, full.net, step).value;
    forall n | 0 <= n < |net'.client.streams| && net'.client.streams[n].tracks && Alive(net', n)
      ensures n in AfterActors(cfg, full, step, net').flows
    {
      if n < |full.net.client.streams| {
        NoRevival(cfg, full.net, step, n);
      } else {
        BirthNeedsClient(cfg, full.net, step);
      }
      KnownAfter(cfg, full, step, net', n);
    }
  }

  /** Which streams the actors leave managed. */
  lemma KnownAfter(cfg: Pair, full: Full, step: Step, net': Net, n: nat)
    requires n < |net'.client.streams| && net'.client.streams[n].tracks && Alive(net', n)
    requires n in full.flows || n == |full.net.client.streams|
    ensures n in AfterActors(cfg, full, step, net').flows
  {
  }

  // ---------- Halves ----------

  /** The invariant, but for the stream at position `n`. */
  ghost predicate RestInv(cfg: Pair, net: Net, flows: map<nat, Flow>, n: nat) {
    && Invariant(cfg, net) && Kinds(cfg, net) && Managed(Full(net, flows))
    && forall v :: v in flows && v != n ==> Linked(cfg, net, v, flows[v])
  }

  /** A half of one stream acts: the others are left alone. */
  predicate OwnStep(step: Step, n: nat) {
    (step.ClientWrites? || step.ServerUpdates? || step.ServerReads?) && step.n == n
  }

  lemma ManagedOwn(cfg: Pair, net: Net, flows: map<nat, Flow>, step: Step, n: nat)
    requires Ready(cfg, net) && Wires(net) && Managed(Full(net, flows)) && Next(cfg, net, step).Some?
    requires OwnStep(step, n)
    ensures Managed(Full(Next(cfg, net, step).value, flows))
  {
    var net' := Next(cfg, net, step).value;
    assert |net'.client.streams| == |net.client.streams|;
    forall v | 0 <= v < |net'.client.streams| && net'.client.streams[v].tracks && Alive(net', v) ensures v in flows {
      NoRevival(cfg, net, step, v);
    }
  }

  lemma RestNext(cfg: Pair, net: Net, flows: map<nat, Flow>, step: Step, n: nat)
    requires RestInv(cfg, net, flows, n) && Next(cfg, net, step).Some? && OwnStep(step, n)
    ensures RestInv(cfg, Next(cfg, net, step).value, flows, n)
  {
    var net' := Next(cfg, net, step).value;
    InvariantNext(cfg, net, step);
    KindsOthers(cfg, net, step);
    ManagedOwn(cfg, net, flows, step, n);
    forall v | v in flows && v != n ensures Linked(cfg, net', v, flows[v]) {
      LinkedOthers(cfg, net, step, v, flows[v]);
    }
  }

  lemma RestWrote(cfg: Pair, net: Net, flows: map<nat, Flow>, n: nat, before: Flow, after: Flow)
    requires RestInv(cfg, net, flows, n) && n < |net.client.streams|
    ensures RestInv(cfg, Wrote(net, n, before, after), flows, n)
  {
    if |after.data| > |before.data| {
      WroteIsStep(cfg, net, n, before, after);
      RestNext(cfg, net, flows, ClientWrites(n, after.data[|after.data| - 1]), n);
    }
  }

  /** The two parts of `ReadFrom` are steps of the network. */
  lemma PopIsStep(cfg: Pair, net: Net, n: nat)
    requires BothSound(net) && n < |net.server.streams|
    ensures Next(cfg, net, ServerReads(n)) == Some(net.(server := Read(net.server, n)))
  {
  }

  lemma RefillIsStep(cfg: Pair, net: Net, n: nat, credit: u32)
    requires BothSound(net) && n < |net.server.streams|
    ensures Next(cfg, net, ServerUpdates(n, credit)) ==
            Some(net.(server := Refill(net.server, n, credit),
                      toClient := net.toClient + [Packet(net.server.streams[n].id, Continue(credit))]))
  {
  }

  lemma RestPop(cfg: Pair, net: Net, flows: map<nat, Flow>, n: nat)
    requires RestInv(cfg, net, flows, n) && n < |net.server.streams|
    ensures RestInv(cfg, net.(server := Read(net.server, n)), flows, n)
  {
    PopIsStep(cfg, net, n);
    RestNext(cfg, net, flows, ServerReads(n), n);
  }

  lemma RestRefill(cfg: Pair, net: Net, flows: map<nat, Flow>, n: nat, credit: u32)
    requires RestInv(cfg, net, flows, n) && n < |net.server.streams|
    ensures var p := Packet(net.server.streams[n].id, Continue(credit));
      RestInv(cfg, net.(server := Refill(net.server, n, credit), toClient := net.toClient + [p]), flows, n)
  {
    RefillIsStep(cfg, net, n, credit);
    RestNext(cfg, net, flows, ServerUpdates(n, credit), n);
  }

  lemma RestRead(cfg: Pair, net: Net, flows: map<nat, Flow>, n: nat, before: Flow, after: Flow)
    requires RestInv(cfg, net, flows, n) && n < |net.server.streams|
    ensures RestInv(cfg, ReadFrom(net, n, before, after), flows, n)
  {
    var popped := |after.reader.queue| < |before.reader.queue|;
    var net1 := if popped then net.(server := Read(net.server, n)) else net;
    if popped { RestPop(cfg, net, flows, n); }
    if |after.updates| > |before.updates| {
      RestRefill(cfg, net1, flows, n, after.reader.credit);
    }
  }

  lemma FullInvHalves(cfg: Pair, full: Full, n: nat, call: FlowSystem.Step)
    requires FullInv(cfg, full) && FullNext(cfg, full, Halves(n, call)).Some?
    ensures FullInv(cfg, FullNext(cfg, full, Halves(n, call)).value)
  {
    var net, flow := full.net, full.flows[n];
    var flow' := FlowSystem.Next(Flushed(cfg), flow, call).value;
    assert RestInv(cfg, net, full.flows, n) && Linked(cfg, net, n, flow);
    var full' := FullNext(cfg, full, Halves(n, call)).value;
    if call.Read? {
      RestRead(cfg, net, full.flows, n, flow, flow');
      LinkedOwnRead(cfg, net, n, flow, call);
    } else {
      RestWrote(cfg, net, full.flows, n, flow, flow');
      LinkedOwnWrite(cfg, net, n, flow, call);
    }
    RestWhole(cfg, full'.net, full.flows, n, full'.flows[n]);
  }

  lemma RestWhole(cfg: Pair, net: Net, flows: map<nat, Flow>, n: nat, flow: Flow)
    requires RestInv(cfg, net, flows, n) && n in flows && Linked(cfg, net, n, flow)
    ensures FullInv(cfg, Full(net, flows[n := flow]))
  {
  }

  function FullExec(cfg: Pair, full: Full, steps: seq<FullStep>): Option<Full>
    decreases |steps|
  {
    if steps == [] then Some(full)
    else if !BothSound(full.net) then None
    else
      var next := FullNext(cfg, full, steps[0]);
      if next.None? then None else FullExec(cfg, next.value, steps[1..])
  }

  lemma {:induction false} FullExecInv(cfg: Pair, full: Full, steps: seq<FullStep>)
    requires Agree(cfg) && cfg.s.bufferSize <= 10 && FullInv(cfg, full) && FullExec(cfg, full, steps).Some?
    ensures FullInv(cfg, FullExec(cfg, full, steps).value)
    decreases |steps|
  {
    if steps != [] {
      if steps[0].Actors? {
        FullInvActors(cfg, full, steps[0].step);
      } else {
        FullInvHalves(cfg, full, steps[0].n, steps[0].call);
      }
      FullExecInv(cfg, FullNext(cfg, full, steps[0]).value, steps[1..]);
    }
  }

  lemma EmptyInv(cfg: Pair)
    requires Agree(cfg)
    ensures FullInv(cfg, Empty)
  {
    assert Connects([], 0, 0);
  }

  /** What a managed stream delivers. */
  lemma LinkedDelivers(cfg: Pair, net: Net, n: nat, flow: Flow)
    requires Linked(cfg, net, n, flow) && n < |net.server.streams|
    ensures var c, s := net.client.streams[n], net.server.streams[n];
      && s.taken + s.queue + InFlight(net.toServer, n + 1) == c.wrote
      && c.wrote + FlowSystem.Opt(flow.writer.chunk) == flow.written && flow.dropped == 0
  {
    assert flow.returned + FlowSystem.Opt(flow.reader.chunk) + flow.reader.queue == flow.accepted;
  }

  /** What a stream without flow control delivers. */
  lemma LaneDelivers(net: Net, n: nat)
    requires Lane(net, n) && n < |net.server.streams| && n < |net.client.streams| && n < U32_MAX
    requires net.server.streams[n].connected && net.server.streams[n].capacity.None?
    ensures var c, s := net.client.streams[n], net.server.streams[n];
      s.taken + s.queue + InFlight(net.toServer, n + 1) == c.wrote
  {
  }

  /** An open server stream is known to the client as the same kind, and is managed if it is flow-controlled. */
  lemma OpenStream(cfg: Pair, full: Full, n: nat)
    requires FullInv(cfg, full) && n < |full.net.server.streams| && full.net.server.streams[n].connected
    ensures n < |full.net.client.streams| && n < U32_MAX && full.net.server.streams[n].id == n + 1
    ensures if full.net.server.streams[n].capacity.Some? then n in full.flows && Linked(cfg, full.net, n, full.flows[n])
            else Lane(full.net, n)
  {
    assert SameKind(full.net, n);
  }

  /** Buffer sizes up to 10 and flushed items: in every run of a client and a server, with any number of streams that
      share the transports, and closes and shutdowns at any point, on every stream the server has open, whether it is
      flow-controlled or not, what the server has read, has queued and has on the wire is exactly what the client
      wrote; and the server's queue has never refused a packet of a flow-controlled stream that is still open. */
  lemma NothingIsLost(cfg: Pair, steps: seq<FullStep>, full: Full, n: nat)
    requires Agree(cfg) && cfg.s.bufferSize <= 10 && FullExec(cfg, Empty, steps) == Some(full)
    requires n < |full.net.server.streams| && full.net.server.streams[n].connected
    ensures n < |full.net.client.streams|
    ensures var c, s := full.net.client.streams[n], full.net.server.streams[n];
      && s.taken + s.queue + InFlight(full.net.toServer, s.id) == c.wrote
      && (s.capacity.Some? ==> n in full.flows && full.flows[n].dropped == 0 &&
                               c.wrote + FlowSystem.Opt(full.flows[n].writer.chunk) == full.flows[n].written)
  {
    EmptyInv(cfg);
    FullExecInv(cfg, Empty, steps);
    OpenStream(cfg, full, n);
    if full.net.server.streams[n].capacity.Some? {
      LinkedDelivers(cfg, full.net, n, full.flows[n]);
    } else {
      LaneDelivers(full.net, n);
    }
  }
}
