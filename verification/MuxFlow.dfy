/** A client and a server multiplexor whose flow-controlled streams are used by the halves of `FlowSystem`: all streams
    share the two FIFO transports, and the actors route, credit, open and close them. */
module MuxFlow {
  import opened Common
  import opened Packets
  import opened MuxSpec
  import opened MuxDelivery
  import FlowSystem

  type Flow = FlowSystem.Flow

  /** `flows` has the halves of every flow-controlled stream that the server has not closed, by position. */
  datatype Full = Full(net: Net, flows: map<nat, Flow>)

  const Empty := Full(Start, map[])

  datatype FullStep =
    | Actors(step: Step)                          // the actors, and halves of streams without flow control
    | Halves(n: nat, call: FlowSystem.Step)       // the halves of a flow-controlled stream

  /** Both sides agree on the buffer size and on the controlled stream types, and every written item is flushed. */
  predicate Agree(cfg: Pair) {
    && cfg.c.role.Client? && cfg.s.role.Server?
    && cfg.c.bufferSize == cfg.s.bufferSize && cfg.c.flowTypes == cfg.s.flowTypes
  }

  function Flushed(cfg: Pair): FlowSystem.Config {
    FlowSystem.Config(cfg.s.bufferSize, true)
  }

  /** The server has not closed the stream, or will still see it. */
  predicate Alive(net: Net, n: nat) {
    if n < |net.server.streams| then net.server.streams[n].connected else net.server.running
  }

  /** The Continue packets in flight for a stream. */
  function Credits(ps: seq<Packet>, id: u32): seq<u32> {
    if ps == [] then []
    else CreditOf(ps[0], id) + Credits(ps[1..], id)
  }

  function CreditOf(p: Packet, id: u32): seq<u32> {
    if p.streamId == id && p.body.Continue? then [p.body.bufferRemaining] else []
  }

  // ---------- Steps of the actors ----------

  /** The packet an actor is about to handle. */
  function Incoming(net: Net, step: Step): Option<Packet> {
    match step
    case ClientReceives => if net.toClient == [] then None else Some(net.toClient[0])
    case ServerReceives => if net.toServer == [] then None else Some(net.toServer[0])
    case _ => None
  }

  /** What a step of the actors means for the halves of the stream at position `n`. */
  function FlowAfter(cfg: Pair, net: Net, step: Step, n: nat, flow: Flow): Flow {
    var p := Incoming(net, step);
    var own := p.Some? && p.value.streamId == n + 1;
    if own && step.ServerReceives? && p.value.body.Data? && n < |net.server.streams| then
      var next := FlowSystem.Next(Flushed(cfg), flow, FlowSystem.Arrive);
      if next.Some? then next.value else flow
    else if own && step.ClientReceives? && p.value.body.Continue? &&
            n < |net.client.streams| && net.client.streams[n].connected then
      var next := FlowSystem.Next(Flushed(cfg), flow, FlowSystem.Update);
      if next.Some? then next.value else flow
    else flow
  }

  /** Once the client has closed the stream, Continue packets for it are ignored. */
  function Deaf(net: Net, n: nat, flow: Flow): Flow {
    if n < |net.client.streams| && net.client.streams[n].connected then flow else flow.(updates := [])
  }

  function AfterActors(cfg: Pair, full: Full, step: Step, net': Net): Full {
    var born := |full.net.client.streams|;
    var known := full.flows.Keys +
                 if born < |net'.client.streams| && net'.client.streams[born].tracks then {born} else {};
    Full(net', map n | n in known && Alive(net', n) ::
                 Deaf(net', n, if n in full.flows then FlowAfter(cfg, full.net, step, n, full.flows[n])
                               else FlowSystem.Init(Flushed(cfg))))
  }

  /** Halves of flow-controlled streams act through `Halves` only. */
  predicate Unmanaged(full: Full, step: Step) {
    match step
    case ClientWrites(n, _) => n !in full.flows
    case ServerReads(n) => n !in full.flows
    case ServerUpdates(n, _) => n !in full.flows
    case _ => true
  }

  // ---------- Steps of the halves ----------

  function Wrote(net: Net, n: nat, before: Flow, after: Flow): Net
    requires n < |net.client.streams|
  {
    if |after.data| <= |before.data| then net
    else net.(client := Write(net.client, n, after.data[|after.data| - 1]),
              toServer := net.toServer + [Packet(net.client.streams[n].id, Data(after.data[|after.data| - 1]))])
  }

  function ReadFrom(net: Net, n: nat, before: Flow, after: Flow): Net
    requires n < |net.server.streams|
  {
    var net1 := if |after.reader.queue| < |before.reader.queue| then net.(server := Read(net.server, n)) else net;
    if |after.updates| <= |before.updates| then net1
    else net1.(server := Refill(net1.server, n, after.reader.credit),
               toClient := net.toClient + [Packet(net.server.streams[n].id, Continue(after.reader.credit))])
  }

  function FullNext(cfg: Pair, full: Full, step: FullStep): Option<Full>
    requires BothSound(full.net)
  {
    match step
    case Actors(s) =>
      if !Unmanaged(full, s) then None
      else
        var net' := Next(cfg, full.net, s);
        if net'.None? then None else Some(AfterActors(cfg, full, s, net'.value))
    case Halves(n, call) =>
      if n !in full.flows || n >= |full.net.client.streams| || call.Arrive? || call.Update? then None
      else
        var flow := full.flows[n];
        var next := FlowSystem.Next(Flushed(cfg), flow, call);
        if next.None? || (call.Read? && n >= |full.net.server.streams|) then None
        else
          var net' := if call.Read? then ReadFrom(full.net, n, flow, next.value)
                      else Wrote(full.net, n, flow, next.value);
          Some(Full(net', full.flows[n := Deaf(net', n, next.value)]))
  }

  // ---------- The invariant ----------

  predicate Core(cfg: Pair, flow: Flow) {
    var fc := Flushed(cfg);
    && FlowSystem.ReaderInv(fc, flow) && FlowSystem.WriterInv(fc, flow) && FlowSystem.LedgerInv(fc, flow)
    && flow.dropped == 0
  }

  /** The server's credit covers what the client has sent and may send; nothing new will reach the client. */
  predicate Solvent(cfg: Pair, flow: Flow) {
    && flow.reader.credit >= flow.writer.credit + |flow.data|
    && FlowSystem.Ledger(flow) == cfg.s.bufferSize && FlowSystem.Backed(flow)
  }

  predicate FlowOk(cfg: Pair, flow: Flow, open: bool) {
    Core(cfg, flow) &&
    if open then FlowSystem.Window(Flushed(cfg), flow) && FlowSystem.ProgressInv(Flushed(cfg), flow)
    else Solvent(cfg, flow)
  }

  /** The halves, the tables and the wires agree about one stream. */
  predicate Linked(cfg: Pair, net: Net, n: nat, flow: Flow) {
    n < U32_MAX && n < |net.client.streams| && Alive(net, n) &&
    var c := net.client.streams[n];
    && FlowOk(cfg, flow, c.connected)
    && c.tracks && c.credit == flow.writer.credit && c.wrote == flow.accepted + flow.data
    && flow.data == InFlight(net.toServer, n + 1)
    && flow.updates == (if c.connected then Credits(net.toClient, n + 1) else [])
    && ServerLinked(cfg, net, n, flow)
  }

  predicate ServerLinked(cfg: Pair, net: Net, n: nat, flow: Flow) {
    if n < |net.server.streams| then
      var s := net.server.streams[n];
      && s.capacity == Some(cfg.s.bufferSize) && !s.tracks
      && s.queue == flow.reader.queue && s.credit == flow.reader.credit
      && s.taken == flow.returned + FlowSystem.Opt(flow.reader.chunk)
    else
      && flow.reader == FlowSystem.Init(Flushed(cfg)).reader && flow.returned == [] && flow.accepted == []
  }

  // ---------- One stream by itself ----------

  lemma CoreKept(cfg: Pair, flow: Flow, call: FlowSystem.Step)
    requires Core(cfg, flow) && FlowSystem.Next(Flushed(cfg), flow, call).Some?
    requires FlowSystem.Next(Flushed(cfg), flow, call).value.dropped == 0
    ensures Core(cfg, FlowSystem.Next(Flushed(cfg), flow, call).value)
  {
    FlowSystem.ReaderInvNext(Flushed(cfg), flow, call);
    FlowSystem.WriterInvNext(Flushed(cfg), flow, call);
    FlowSystem.LedgerInvNext(Flushed(cfg), flow, call);
  }

  lemma SolventKept(cfg: Pair, flow: Flow, call: FlowSystem.Step, flow': Flow)
    requires FlowSystem.Shape(flow, cfg.s.bufferSize, FlowSystem.T(Flushed(cfg))) && Solvent(cfg, flow)
    requires flow.updates == []
    requires FlowSystem.Effect(Flushed(cfg), flow, call, flow') && !call.Update? && FlowSystem.Backed(flow')
    ensures Solvent(cfg, flow'.(updates := [])) && flow'.dropped == flow.dropped
  {
  }

  lemma BackedKept(cfg: Pair, flow: Flow, call: FlowSystem.Step)
    requires Core(cfg, flow) && FlowSystem.Backed(flow) && !call.Update?
    requires FlowSystem.Next(Flushed(cfg), flow, call).Some?
    ensures FlowSystem.Backed(FlowSystem.Next(Flushed(cfg), flow, call).value)
  {
    FlowSystem.HasEffect(Flushed(cfg), flow, call);
    if FlowSystem.ByWriter(call) { FlowSystem.WriteHasEffect(Flushed(cfg), flow, call); }
  }

  /** Whatever the halves do and whatever arrives, the stream stays in order and drops nothing. */
  lemma FlowKept(cfg: Pair, flow: Flow, call: FlowSystem.Step, open: bool)
    requires FlowOk(cfg, flow, open) && (!open ==> flow.updates == []) && !call.Update?
    requires FlowSystem.Next(Flushed(cfg), flow, call).Some?
    ensures var flow' := FlowSystem.Next(Flushed(cfg), flow, call).value;
      FlowOk(cfg, if open then flow' else flow'.(updates := []), open)
  {
    var flow' := FlowSystem.Next(Flushed(cfg), flow, call).value;
    FlowSystem.HasEffect(Flushed(cfg), flow, call);
    BackedKept(cfg, flow, call);
    if open {
      FlowSystem.WindowKept(Flushed(cfg), flow, call, flow');
      FlowSystem.ProgressKept(Flushed(cfg), flow, call, flow');
    } else {
      SolventKept(cfg, flow, call, flow');
    }
    CoreKept(cfg, flow, call);
  }

  /** For windows up to 10 packets, taking over a credit keeps both sides in agreement. */
  lemma UpdateKept(cfg: Pair, flow: Flow)
    requires cfg.s.bufferSize <= 10 && FlowOk(cfg, flow, true)
    requires FlowSystem.Next(Flushed(cfg), flow, FlowSystem.Update).Some?
    ensures FlowOk(cfg, FlowSystem.Next(Flushed(cfg), flow, FlowSystem.Update).value, true)
  {
    FlowSystem.UpdateExcess(Flushed(cfg), flow);
    FlowSystem.ProgressInvNext(Flushed(cfg), flow, FlowSystem.Update);
    CoreKept(cfg, flow, FlowSystem.Update);
  }

  lemma CloseKept(cfg: Pair, flow: Flow)
    requires FlowOk(cfg, flow, true)
    ensures FlowOk(cfg, flow.(updates := []), false)
  {
  }

  lemma InitOk(cfg: Pair)
    ensures FlowOk(cfg, FlowSystem.Init(Flushed(cfg)), true)
  {
  }
}
