/** A stalled stream among many gets going again: reading and FIFO delivery are enough, whatever the others do. */
module MuxFlowProgress {
  import opened Common
  import opened Packets
  import opened MuxSpec
  import opened MuxDelivery
  import opened MuxFlow
  import opened MuxFlowLinks
  import opened MuxFlowDelivery
  import FlowSpec
  import FlowSystem

  /** Neither side has closed the stream. */
  predicate Open(net: Net, n: nat) {
    && n < |net.client.streams| && net.client.streams[n].connected
    && n < |net.server.streams| && net.server.streams[n].connected
  }

  function Threshold(cfg: Pair): nat {
    FlowSystem.T(Flushed(cfg))
  }

  /** The reads it takes until an update is sent. */
  function ReadsLeft(cfg: Pair, flow: Flow): int {
    if flow.reader.chunk.Some? then 1 else Threshold(cfg) + 1 - flow.reader.readCnt
  }

  predicate IsRead(step: FullStep, n: nat) {
    step == Halves(n, FlowSystem.Read(FlowSpec.Accepted))
  }

  predicate IsReceive(step: FullStep) {
    step == Actors(ClientReceives)
  }

  /** How often the server reads the stream, with the transport ready, and how often the client handles a packet. */
  function ReadsIn(steps: seq<FullStep>, n: nat): nat {
    if steps == [] then 0 else (if IsRead(steps[0], n) then 1 else 0) + ReadsIn(steps[1..], n)
  }

  function ReceivesIn(steps: seq<FullStep>): nat {
    if steps == [] then 0 else (if IsReceive(steps[0]) then 1 else 0) + ReceivesIn(steps[1..])
  }

  // ---------- Streams do not reopen ----------

  /** Streams are added, and never reopened. */
  predicate Later(net: Net, net': Net, n: nat) {
    && |net.client.streams| <= |net'.client.streams| && |net.server.streams| <= |net'.server.streams|
    && (n < |net.client.streams| && net'.client.streams[n].connected ==> net.client.streams[n].connected)
    && (n < |net.server.streams| && net'.server.streams[n].connected ==> net.server.streams[n].connected)
  }

  lemma LaterClient(cfg: Config, m: Mux, e: Event, n: nat)
    requires cfg.role.Client? && Sound(m) && Tidy(m)
    ensures var m' := Handle(cfg, m, e).mux;
      |m.streams| <= |m'.streams| && (n < |m.streams| && m'.streams[n].connected ==> m.streams[n].connected)
  {
    StreamsGrow(cfg, m, e);
    if n < |m.streams| { ClientStreamAfter(cfg, m, e, n); }
  }

  lemma LaterActors(cfg: Pair, net: Net, step: Step, n: nat)
    requires Ready(cfg, net) && Next(cfg, net, step).Some?
    ensures Later(net, Next(cfg, net, step).value, n)
  {
    match step
    case ClientLocal(e) => LaterClient(cfg.c, net.client, e, n);
    case ClientReceives => LaterClient(cfg.c, net.client, Message(net.toClient[0]), n);
    case ServerLocal(e) => ServerRevival(cfg, net.server, e, n);
    case ServerReceives => ServerRevival(cfg, net.server, Message(net.toServer[0]), n);
    case _ =>
  }

  lemma LaterHalves(net: Net, k: nat, before: Flow, after: Flow, n: nat)
    ensures k < |net.client.streams| ==> Later(net, Wrote(net, k, before, after), n)
    ensures k < |net.server.streams| ==> Later(net, ReadFrom(net, k, before, after), n)
  {
  }

  lemma LaterFull(cfg: Pair, full: Full, step: FullStep, n: nat)
    requires FullInv(cfg, full) && FullNext(cfg, full, step).Some?
    ensures Later(full.net, FullNext(cfg, full, step).value.net, n)
  {
    if step.Actors? {
      LaterActors(cfg, full.net, step.step, n);
    } else {
      var after := FlowSystem.Next(Flushed(cfg), full.flows[step.n], step.call).value;
      LaterHalves(full.net, step.n, full.flows[step.n], after, n);
    }
  }

  lemma FullInvNext(cfg: Pair, full: Full, step: FullStep)
    requires Agree(cfg) && cfg.s.bufferSize <= 10 && FullInv(cfg, full) && FullNext(cfg, full, step).Some?
    ensures FullInv(cfg, FullNext(cfg, full, step).value)
  {
    if step.Actors? { FullInvActors(cfg, full, step.step); } else { FullInvHalves(cfg, full, step.n, step.call); }
  }

  lemma {:induction false} OpenThroughout(cfg: Pair, full: Full, steps: seq<FullStep>, n: nat)
    requires Agree(cfg) && cfg.s.bufferSize <= 10 && FullInv(cfg, full) && FullExec(cfg, full, steps).Some?
    requires n < |full.net.client.streams| && n < |full.net.server.streams|
    requires Open(FullExec(cfg, full, steps).value.net, n)
    ensures Open(full.net, n)
    decreases |steps|
  {
    if steps != [] {
      FullInvNext(cfg, full, steps[0]);
      LaterFull(cfg, full, steps[0], n);
      OpenThroughout(cfg, FullNext(cfg, full, steps[0]).value, steps[1..], n);
    }
  }

  // ---------- Until the update is sent ----------

  /** The client has no credit, and nothing is under way that could bring it any. */
  predicate Thirsty(cfg: Pair, full: Full, n: nat) {
    n in full.flows && Open(full.net, n) && Linked(cfg, full.net, n, full.flows[n]) && FlowSystem.Stalled(full.flows[n])
  }

  /** The server has just sent an update for the stream. */
  predicate UpdateSent(full: Full, n: nat) {
    n < U32_MAX && full.net.toClient != [] &&
    var p := full.net.toClient[|full.net.toClient| - 1];
    p.streamId == n + 1 && p.body.Continue? && p.body.bufferRemaining > 0
  }

  /** A read of a stalled stream sends an update, or leaves one read less to do. */
  lemma ReadWhileStalled(cfg: Pair, flow: Flow, reply: FlowSpec.Reply)
    requires cfg.s.bufferSize >= 1 && FlowOk(cfg, flow, true) && FlowSystem.Stalled(flow)
    requires FlowSystem.Next(Flushed(cfg), flow, FlowSystem.Read(reply)).Some?
    ensures var flow' := FlowSystem.Next(Flushed(cfg), flow, FlowSystem.Read(reply)).value;
      if flow'.updates == [] then
        && FlowSystem.Stalled(flow') && ReadsLeft(cfg, flow') <= ReadsLeft(cfg, flow)
        && (reply.Accepted? ==> ReadsLeft(cfg, flow') < ReadsLeft(cfg, flow))
      else flow'.updates == [flow'.reader.credit] && flow'.reader.credit > 0
  {
    FlowSystem.HasEffect(Flushed(cfg), flow, FlowSystem.Read(reply));
  }

  /** A call of the writing half of a stalled stream changes nothing but its waker. */
  lemma WriteWhileStalled(cfg: Pair, flow: Flow, call: FlowSystem.Step)
    requires FlowOk(cfg, flow, true) && FlowSystem.Stalled(flow)
    requires FlowSystem.ByWriter(call) && FlowSystem.Next(Flushed(cfg), flow, call).Some?
    ensures var flow' := FlowSystem.Next(Flushed(cfg), flow, call).value;
      FlowSystem.Stalled(flow') && flow'.reader == flow.reader
  {
  }

  /** There is always something left to read, and at least one read to do. */
  lemma ReadsLeftPositive(cfg: Pair, flow: Flow)
    requires FlowOk(cfg, flow, true)
    ensures 1 <= ReadsLeft(cfg, flow) <= Threshold(cfg) + 1
  {
  }

  /** What a call of its own halves leaves of a stream. */
  predicate OwnCall(cfg: Pair, full: Full, n: nat, call: FlowSystem.Step, full': Full) {
    n in full.flows && n in full'.flows && n < |full.net.client.streams| &&
    var next := FlowSystem.Next(Flushed(cfg), full.flows[n], call);
    && next.Some? && (call.Read? || FlowSystem.ByWriter(call)) && (call.Read? ==> n < |full.net.server.streams|)
    && full'.net == (if call.Read? then ReadFrom(full.net, n, full.flows[n], next.value)
                     else Wrote(full.net, n, full.flows[n], next.value))
    && full'.flows[n] == Deaf(full'.net, n, next.value)
  }

  lemma ItsOwnCall(cfg: Pair, full: Full, n: nat, call: FlowSystem.Step)
    requires BothSound(full.net) && FullNext(cfg, full, Halves(n, call)).Some?
    ensures OwnCall(cfg, full, n, call, FullNext(cfg, full, Halves(n, call)).value)
  {
  }

  lemma ThirstyRead(cfg: Pair, full: Full, n: nat, call: FlowSystem.Step, full': Full)
    requires cfg.s.bufferSize >= 1 && Thirsty(cfg, full, n) && full.net.server.streams[n].id == n + 1
    requires call.Read? && OwnCall(cfg, full, n, call, full')
    ensures UpdateSent(full', n) ||
            (&& FlowSystem.Stalled(full'.flows[n]) && ReadsLeft(cfg, full'.flows[n]) <= ReadsLeft(cfg, full.flows[n])
             && (call.reply.Accepted? ==> ReadsLeft(cfg, full'.flows[n]) < ReadsLeft(cfg, full.flows[n])))
  {
    ReadWhileStalled(cfg, full.flows[n], call.reply);
  }

  lemma ThirstyWrite(cfg: Pair, full: Full, n: nat, call: FlowSystem.Step, full': Full)
    requires Thirsty(cfg, full, n) && !call.Read? && OwnCall(cfg, full, n, call, full')
    ensures FlowSystem.Stalled(full'.flows[n]) && ReadsLeft(cfg, full'.flows[n]) <= ReadsLeft(cfg, full.flows[n])
  {
    WriteWhileStalled(cfg, full.flows[n], call);
  }

  lemma ThirstyOwn(cfg: Pair, full: Full, n: nat, call: FlowSystem.Step)
    requires cfg.s.bufferSize >= 1 && Thirsty(cfg, full, n) && FullInv(cfg, full)
    requires FullNext(cfg, full, Halves(n, call)).Some?
    ensures var full' := FullNext(cfg, full, Halves(n, call)).value;
      n in full'.flows &&
      (UpdateSent(full', n) ||
        (&& FlowSystem.Stalled(full'.flows[n]) && ReadsLeft(cfg, full'.flows[n]) <= ReadsLeft(cfg, full.flows[n])
         && (IsRead(Halves(n, call), n) ==> ReadsLeft(cfg, full'.flows[n]) < ReadsLeft(cfg, full.flows[n]))))
  {
    var full' := FullNext(cfg, full, Halves(n, call)).value;
    ItsOwnCall(cfg, full, n, call);
    if call.Read? {
      ThirstyRead(cfg, full, n, call, full');
    } else {
      ThirstyWrite(cfg, full, n, call, full');
    }
  }

  /** With nothing under way, the actors leave the halves alone. */
  lemma QuietAfter(cfg: Pair, net: Net, step: Step, n: nat, flow: Flow)
    requires flow.data == [] && flow.updates == []
    ensures FlowAfter(cfg, net, step, n, flow) == flow
  {
  }

  lemma AfterActorsAt(cfg: Pair, full: Full, step: Step, net': Net, n: nat)
    requires n in full.flows && Alive(net', n)
    ensures var full' := AfterActors(cfg, full, step, net');
      n in full'.flows && full'.flows[n] == Deaf(net', n, FlowAfter(cfg, full.net, step, n, full.flows[n]))
  {
  }

  lemma HalvesElsewhere(cfg: Pair, full: Full, step: FullStep, n: nat)
    requires BothSound(full.net) && step.Halves? && step.n != n && n in full.flows && FullNext(cfg, full, step).Some?
    ensures var full' := FullNext(cfg, full, step).value; n in full'.flows && full'.flows[n] == full.flows[n]
  {
  }

  lemma ThirstyOthers(cfg: Pair, full: Full, step: FullStep, n: nat)
    requires BothSound(full.net) && n in full.flows && FlowSystem.Stalled(full.flows[n])
    requires FullNext(cfg, full, step).Some?
    requires step.Actors? || step.n != n
    requires Open(FullNext(cfg, full, step).value.net, n)
    ensures var full' := FullNext(cfg, full, step).value; n in full'.flows && full'.flows[n] == full.flows[n]
  {
    if step.Actors? {
      var net' := Next(cfg, full.net, step.step).value;
      QuietAfter(cfg, full.net, step.step, n, full.flows[n]);
      AfterActorsAt(cfg, full, step.step, net', n);
    } else {
      HalvesElsewhere(cfg, full, step, n);
    }
  }

  /** After `i` of the steps the system is in `mid`, from where the rest leads to the same end. */
  predicate Splits(cfg: Pair, full: Full, steps: seq<FullStep>, i: nat, mid: Full) {
    && i <= |steps| && FullExec(cfg, full, steps[..i]) == Some(mid)
    && FullExec(cfg, mid, steps[i..]) == FullExec(cfg, full, steps)
  }

  lemma SplitsOne(cfg: Pair, full: Full, steps: seq<FullStep>, full1: Full)
    requires steps != [] && BothSound(full.net) && FullNext(cfg, full, steps[0]) == Some(full1)
    ensures Splits(cfg, full, steps, 1, full1)
  {
    assert steps[..1][1..] == [];
  }

  lemma SplitsMore(cfg: Pair, full: Full, steps: seq<FullStep>, full1: Full, i: nat, mid: Full)
    requires steps != [] && BothSound(full.net) && FullNext(cfg, full, steps[0]) == Some(full1)
    requires Splits(cfg, full1, steps[1..], i, mid)
    ensures Splits(cfg, full, steps, i + 1, mid)
  {
    assert steps[..i + 1][1..] == steps[1..][..i] && steps[i + 1..] == steps[1..][i..];
  }

  /** However the others interleave: once the server has read the stream as often as it takes, an update is sent. */
  lemma {:induction false} ReadsSendUpdate(cfg: Pair, full: Full, steps: seq<FullStep>, n: nat)
      returns (i: nat, mid: Full)
    requires Agree(cfg) && 1 <= cfg.s.bufferSize <= 10 && FullInv(cfg, full) && Thirsty(cfg, full, n)
    requires FullExec(cfg, full, steps).Some? && Open(FullExec(cfg, full, steps).value.net, n)
    requires ReadsIn(steps, n) >= ReadsLeft(cfg, full.flows[n])
    ensures Splits(cfg, full, steps, i, mid) && UpdateSent(mid, n) && FullInv(cfg, mid)
    decreases |steps|
  {
    ReadsLeftPositive(cfg, full.flows[n]);
    var full1 := ThirstyStep(cfg, full, steps, n);
    SplitsOne(cfg, full, steps, full1);
    i, mid := 1, full1;
    if !UpdateSent(full1, n) {
      i, mid := ReadsSendUpdate(cfg, full1, steps[1..], n);
      SplitsMore(cfg, full, steps, full1, i, mid);
      i := i + 1;
    }
  }

  /** The first step of a run from a stalled stream. */
  lemma ThirstyStep(cfg: Pair, full: Full, steps: seq<FullStep>, n: nat) returns (full1: Full)
    requires Agree(cfg) && 1 <= cfg.s.bufferSize <= 10 && FullInv(cfg, full) && Thirsty(cfg, full, n) && steps != []
    requires FullExec(cfg, full, steps).Some? && Open(FullExec(cfg, full, steps).value.net, n)
    ensures FullNext(cfg, full, steps[0]) == Some(full1) && FullInv(cfg, full1)
    ensures FullExec(cfg, full1, steps[1..]) == FullExec(cfg, full, steps)
    ensures UpdateSent(full1, n) ||
            (Thirsty(cfg, full1, n) && ReadsLeft(cfg, full1.flows[n]) - ReadsIn(steps[1..], n) <=
                                       ReadsLeft(cfg, full.flows[n]) - ReadsIn(steps, n))
  {
    full1 := FullNext(cfg, full, steps[0]).value;
    FullInvNext(cfg, full, steps[0]);
    LaterFull(cfg, full, steps[0], n);
    OpenThroughout(cfg, full1, steps[1..], n);
    ThirstyOn(cfg, full, steps[0], n, full1);
  }

  /** One step of anybody. */
  lemma ThirstyOn(cfg: Pair, full: Full, step: FullStep, n: nat, full1: Full)
    requires cfg.s.bufferSize >= 1 && FullInv(cfg, full) && Thirsty(cfg, full, n)
    requires FullNext(cfg, full, step) == Some(full1) && FullInv(cfg, full1) && Open(full1.net, n)
    ensures UpdateSent(full1, n) ||
            (Thirsty(cfg, full1, n) && ReadsLeft(cfg, full1.flows[n]) <=
                                       ReadsLeft(cfg, full.flows[n]) - if IsRead(step, n) then 1 else 0)
  {
    if step.Halves? && step.n == n {
      ThirstyOwn(cfg, full, n, step.call);
    } else {
      ThirstyOthers(cfg, full, step, n);
    }
    if !UpdateSent(full1, n) { assert Linked(cfg, full1.net, n, full1.flows[n]); }
  }

  // ---------- Until the update is delivered ----------

  /** The packet at position `j` on the way to the client is this update. */
  predicate Coming(net: Net, n: nat, j: nat, credit: u32) {
    n < U32_MAX && j < |net.toClient| && net.toClient[j].streamId == n + 1 && net.toClient[j].body == Continue(credit)
  }

  /** The client's writer has the credit and is awake. */
  predicate Refreshed(full: Full, n: nat, credit: u32) {
    && n < |full.net.client.streams| && full.net.client.streams[n].credit == credit
    && (n in full.flows ==> full.flows[n].writer.credit == credit && !full.flows[n].writer.parked)
  }

  lemma AdoptedFlow(cfg: Pair, net: Net, n: nat, flow: Flow, credit: u32)
    requires Linked(cfg, net, n, flow) && Open(net, n) && Coming(net, n, 0, credit)
    ensures var flow' := FlowAfter(cfg, net, ClientReceives, n, flow);
      flow'.writer.credit == credit && !flow'.writer.parked
  {
    assert Credits(net.toClient, n + 1) == [credit] + Credits(net.toClient[1..], n + 1);
    assert flow.updates[0] == credit;
  }

  lemma AdoptedNet(cfg: Pair, net: Net, n: nat, credit: u32)
    requires Ready(cfg, net) && Open(net, n) && net.client.streams[n].tracks && Coming(net, n, 0, credit)
    ensures var net' := Next(cfg, net, ClientReceives).value;
      n < |net'.client.streams| && net'.client.streams[n].credit == credit && Alive(net', n) == Alive(net, n)
  {
    ClientStreamAfter(cfg.c, net.client, Message(net.toClient[0]), n);
  }

  /** The client handles the update. */
  lemma Adopted(cfg: Pair, full: Full, n: nat, credit: u32)
    requires Ready(cfg, full.net) && n in full.flows && Linked(cfg, full.net, n, full.flows[n])
    requires Open(full.net, n) && Coming(full.net, n, 0, credit)
    requires FullNext(cfg, full, Actors(ClientReceives)).Some?
    ensures Refreshed(FullNext(cfg, full, Actors(ClientReceives)).value, n, credit)
  {
    AdoptedNet(cfg, full.net, n, credit);
    AdoptedFlow(cfg, full.net, n, full.flows[n], credit);
  }

  /** FIFO: a packet on the way moves up with every packet that is handled, and stays where it is otherwise. */
  lemma MovesUp(cfg: Pair, full: Full, step: FullStep, n: nat, j: nat, credit: u32)
    requires BothSound(full.net) && Coming(full.net, n, j, credit) && FullNext(cfg, full, step).Some?
    ensures var net' := FullNext(cfg, full, step).value.net;
      if IsReceive(step) then j > 0 ==> Coming(net', n, j - 1, credit) else Coming(net', n, j, credit)
  {
  }

  /** However the others interleave: once the client has handled as many packets as are ahead of an update and the
      update itself, there was a moment when the writer had the credit it carries and was awake. */
  lemma {:induction false} UpdateArrives(cfg: Pair, full: Full, steps: seq<FullStep>, n: nat, j: nat, credit: u32)
      returns (i: nat, mid: Full)
    requires Agree(cfg) && cfg.s.bufferSize <= 10 && FullInv(cfg, full) && Coming(full.net, n, j, credit)
    requires n < |full.net.client.streams| && n < |full.net.server.streams|
    requires FullExec(cfg, full, steps).Some? && Open(FullExec(cfg, full, steps).value.net, n)
    requires full.net.client.streams[n].tracks && ReceivesIn(steps) > j
    ensures Splits(cfg, full, steps, i, mid) && Refreshed(mid, n, credit)
    decreases |steps|
  {
    OpenThroughout(cfg, full, steps, n);
    var full1 := FullNext(cfg, full, steps[0]).value;
    SplitsOne(cfg, full, steps, full1);
    i, mid := 1, full1;
    if IsReceive(steps[0]) && j == 0 {
      Adopted(cfg, full, n, credit);
    } else {
      MovesUp(cfg, full, steps[0], n, j, credit);
      KeepsKind(cfg, full, steps[0], n);
      FullInvNext(cfg, full, steps[0]);
      LaterFull(cfg, full, steps[0], n);
      i, mid := UpdateArrives(cfg, full1, steps[1..], n, if IsReceive(steps[0]) then j - 1 else j, credit);
      SplitsMore(cfg, full, steps, full1, i, mid);
      i := i + 1;
    }
  }

  lemma HalvesKeepKind(net: Net, k: nat, before: Flow, after: Flow, n: nat)
    requires n < |net.client.streams|
    ensures k < |net.client.streams| ==>
      var net' := Wrote(net, k, before, after);
      n < |net'.client.streams| && net'.client.streams[n].tracks == net.client.streams[n].tracks
    ensures k < |net.server.streams| ==> ReadFrom(net, k, before, after).client == net.client
  {
  }

  lemma KeepsKind(cfg: Pair, full: Full, step: FullStep, n: nat)
    requires Ready(cfg, full.net) && Wires(full.net) && FullNext(cfg, full, step).Some? && n < |full.net.client.streams|
    ensures var net' := FullNext(cfg, full, step).value.net;
      n < |net'.client.streams| && net'.client.streams[n].tracks == full.net.client.streams[n].tracks
  {
    if step.Actors? {
      NoRevival(cfg, full.net, step.step, n);
    } else {
      var after := FlowSystem.Next(Flushed(cfg), full.flows[step.n], step.call).value;
      HalvesKeepKind(full.net, step.n, full.flows[step.n], after, n);
    }
  }

  // ---------- The whole way ----------

  /** Buffer sizes from 1 to 10 and flushed items: a client stream without credit, with nothing under way that could
      bring it any, on any number of streams that share the transports.  In every run that follows and in which nobody
      closes the stream, whatever the others do: once the server has read the stream at most `target + 1` times with its
      transport ready, an update is sent, and once the client has handled the packets that are on the way at that
      moment, there was a moment when the writer had credit and was awake. */
  lemma StallEnds(cfg: Pair, before: seq<FullStep>, full: Full, steps: seq<FullStep>, n: nat)
      returns (i: nat, mid: Full, credit: u32)
    requires Agree(cfg) && 1 <= cfg.s.bufferSize <= 10 && FullExec(cfg, Empty, before) == Some(full)
    requires n in full.flows && Open(full.net, n) && FlowSystem.Stalled(full.flows[n])
    requires FullExec(cfg, full, steps).Some? && Open(FullExec(cfg, full, steps).value.net, n)
    requires ReadsIn(steps, n) >= Threshold(cfg) + 1
    ensures Splits(cfg, full, steps, i, mid) && UpdateSent(mid, n) && credit > 0
    ensures ReceivesIn(steps[i..]) >= |mid.net.toClient| ==>
      exists k, last :: Splits(cfg, mid, steps[i..], k, last) && Refreshed(last, n, credit)
  {
    EmptyInv(cfg);
    FullExecInv(cfg, Empty, before);
    ReadsLeftPositive(cfg, full.flows[n]);
    i, mid := ReadsSendUpdate(cfg, full, steps, n);
    var j := |mid.net.toClient| - 1;
    credit := mid.net.toClient[j].body.bufferRemaining;
    if ReceivesIn(steps[i..]) >= |mid.net.toClient| {
      StillKnown(cfg, full, steps[..i], n);
      var k, last := UpdateArrives(cfg, mid, steps[i..], n, j, credit);
    }
  }

  /** The stream keeps its place and its kind. */
  lemma {:induction false} StillKnown(cfg: Pair, full: Full, steps: seq<FullStep>, n: nat)
    requires Agree(cfg) && cfg.s.bufferSize <= 10 && FullInv(cfg, full) && FullExec(cfg, full, steps).Some?
    requires n < |full.net.client.streams| && n < |full.net.server.streams| && full.net.client.streams[n].tracks
    ensures var net' := FullExec(cfg, full, steps).value.net;
      n < |net'.client.streams| && n < |net'.server.streams| && net'.client.streams[n].tracks
    decreases |steps|
  {
    if steps != [] {
      KeepsKind(cfg, full, steps[0], n);
      FullInvNext(cfg, full, steps[0]);
      LaterFull(cfg, full, steps[0], n);
      StillKnown(cfg, FullNext(cfg, full, steps[0]).value, steps[1..], n);
    }
  }
}
