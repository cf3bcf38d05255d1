/** What one side asks for and how it closes streams, as the other side sees it, in two-party runs. */
module MuxPeer {
  import opened Common
  import opened Packets
  import opened MuxSpec
  import opened MuxDelivery

  // ---------- Requests ----------

  datatype Request = Request(streamType: StreamType, host: Utf8, port: u16)

  /** The streams a run asks the client to create, in order. */
  function Requests(steps: seq<Step>): seq<Request> {
    if steps == [] then []
    else RequestIn(steps[0]) + Requests(steps[1..])
  }

  function RequestIn(step: Step): seq<Request> {
    if step.ClientLocal? then RequestOf(step.event) else []
  }

  function RequestOf(e: Event): seq<Request> {
    if e.CreateStream? then [Request(e.streamType, e.host, e.port)] else []
  }

  function ConnectOf(p: Packet): seq<Packet> {
    if p.body.Connect? then [p] else []
  }

  function ConnectsIn(ps: seq<Packet>): seq<Packet> {
    if ps == [] then [] else ConnectOf(ps[0]) + ConnectsIn(ps[1..])
  }

  lemma {:induction false} ConnectsInSnoc(ps: seq<Packet>, p: Packet)
    ensures ConnectsIn(ps + [p]) == ConnectsIn(ps) + ConnectOf(p)
    decreases |ps|
  {
    if ps == [] {
      assert ps + [p] == [p] && [p][1..] == [];
    } else {
      assert (ps + [p])[1..] == ps[1..] + [p];
      ConnectsInSnoc(ps[1..], p);
    }
  }

  /** The Connect packet of request number `k`, counted from 0. */
  predicate Carries(p: Packet, k: nat, r: Request) {
    p.streamId == k + 1 && p.body == Connect(r.streamType, r.host, r.port)
  }

  /** What the server passed on is what the client sent, as far as it has arrived. */
  predicate PassedOn(net: Net) {
    && net.server.connects <= net.client.connects
    && (net.server.running ==> net.client.connects == net.server.connects + ConnectsIn(net.toServer))
  }

  /** What an event adds to the Connect packets of a side, and to those on the wire. */
  lemma LocalConnects(c: Config, m: Mux, e: Event)
    requires Sound(m) && IsLocal(e)
    ensures var h := Handle(c, m, e);
      if h.sent.Some? && h.sent.value.body.Connect? then h.mux.connects == m.connects + [h.sent.value]
      else h.mux.connects == m.connects
    ensures !e.CreateStream? ==> Handle(c, m, e).mux.connects == m.connects
  {
  }

  lemma ReceivedConnects(c: Config, m: Mux, p: Packet)
    requires Sound(m)
    ensures var m' := Handle(c, m, Message(p)).mux;
      && (c.role.Client? ==> m'.connects == m.connects)
      && (m'.running ==> m.running)
      && (m'.running && c.role.Server? ==>
            m'.connects == m.connects + ConnectOf(p))
      && (!m'.running ==> m'.connects == m.connects)
  {
  }

  lemma PassedOnNext(cfg: Pair, net: Net, step: Step)
    requires cfg.c.role.Client? && cfg.s.role.Server? && BothSound(net)
    requires PassedOn(net) && Next(cfg, net, step).Some?
    ensures PassedOn(Next(cfg, net, step).value)
  {
    match step
    case ClientLocal(e) =>
      LocalConnects(cfg.c, net.client, e);
      var sent := Handle(cfg.c, net.client, e).sent;
      if sent.Some? { ConnectsInSnoc(net.toServer, sent.value); }
    case ServerLocal(e) => LocalConnects(cfg.s, net.server, e);
    case ClientReceives => ReceivedConnects(cfg.c, net.client, net.toClient[0]);
    case ServerReceives => ReceivedConnects(cfg.s, net.server, net.toServer[0]);
    case ClientWrites(n, data) => ConnectsInSnoc(net.toServer, Packet(net.client.streams[n].id, Data(data)));
    case _ =>
  }

  /** The client's Connect packets carry the requests `asked`, one after the other, and all of them while it runs,
      unless the ids are used up. */
  predicate Asked(m: Mux, asked: seq<Request>) {
    && |m.connects| <= |asked|
    && (forall k :: 0 <= k < |m.connects| ==> Carries(m.connects[k], k, asked[k]))
    && (m.running ==> m.currentId == |m.connects| && (|m.connects| == |asked| || m.currentId == U32_MAX))
  }

  lemma AskedLocal(c: Config, m: Mux, e: Event, asked: seq<Request>)
    requires Sound(m) && IsLocal(e) && Asked(m, asked)
    ensures Asked(Handle(c, m, e).mux,
                  asked + RequestOf(e))
  {
  }

  lemma AskedReceives(c: Config, m: Mux, p: Packet, asked: seq<Request>)
    requires c.role.Client? && Sound(m) && Asked(m, asked)
    ensures Asked(Handle(c, m, Message(p)).mux, asked)
  {
  }

  lemma AskedNext(cfg: Pair, net: Net, step: Step, asked: seq<Request>)
    requires cfg.c.role.Client? && BothSound(net) && Asked(net.client, asked) && Next(cfg, net, step).Some?
    ensures Asked(Next(cfg, net, step).value.client, asked + RequestIn(step))
  {
    match step
    case ClientLocal(e) => AskedLocal(cfg.c, net.client, e, asked);
    case ClientReceives => AskedReceives(cfg.c, net.client, net.toClient[0], asked);
    case _ =>
  }

  lemma {:induction false} ExecConnects(cfg: Pair, net: Net, steps: seq<Step>, asked: seq<Request>)
    requires Invariant(cfg, net) && PassedOn(net) && Asked(net.client, asked) && Exec(cfg, net, steps).Some?
    ensures var net' := Exec(cfg, net, steps).value;
      PassedOn(net') && Asked(net'.client, asked + Requests(steps))
    decreases |steps|
  {
    if steps == [] {
      assert asked + Requests(steps) == asked;
    } else {
      InvariantNext(cfg, net, steps[0]);
      PassedOnNext(cfg, net, steps[0]);
      AskedNext(cfg, net, steps[0], asked);
      ExecConnects(cfg, Next(cfg, net, steps[0]).value, steps[1..], asked + RequestIn(steps[0]));
      assert asked + RequestIn(steps[0]) + Requests(steps[1..]) == asked + (RequestIn(steps[0]) + Requests(steps[1..]));
    }
  }

  /** In every two-party run whoever waits for streams at the server gets the type, host and port of the requests made
      to the client, in their order and under the ids 1, 2, 3, ...; while the server runs, all those that are not on
      the wire any more; and while the client runs it sends all of them, unless the ids are used up. */
  lemma RequestsArrive(cfg: Pair, steps: seq<Step>, net: Net)
    requires cfg.c.role.Client? && cfg.s.role.Server? && Exec(cfg, Start, steps) == Some(net)
    ensures |net.server.connects| <= |net.client.connects| <= |Requests(steps)|
    ensures forall k :: 0 <= k < |net.server.connects| ==> Carries(net.server.connects[k], k, Requests(steps)[k])
    ensures net.server.running && ConnectsIn(net.toServer) == [] ==> net.server.connects == net.client.connects
    ensures net.client.running ==> |net.client.connects| == |Requests(steps)| || net.client.currentId == U32_MAX
  {
    StartInvariant(cfg);
    ExecConnects(cfg, Start, steps, []);
    assert [] + Requests(steps) == Requests(steps);
    if net.server.running && ConnectsIn(net.toServer) == [] { assert net.server.connects + [] == net.server.connects; }
  }

  lemma StartInvariant(cfg: Pair)
    requires cfg.c.role.Client? && cfg.s.role.Server?
    ensures Invariant(cfg, Start)
  {
    assert Exec(cfg, Start, []) == Some(Start);
    RunInvariant(cfg, [], Start);
  }

  // ---------- Close reasons ----------

  /** The stream a Close packet is about shows the packet's reason on the side that sent it. */
  predicate Told(m: Mux, p: Packet) {
    p.body.Close? && p.streamId > 0 ==>
      var n := p.streamId - 1;
      n < |m.streams| && !m.streams[n].connected && m.streams[n].reason == ReasonCode(p.body.reason)
  }

  predicate TellsTruth(net: Net) {
    && (forall p :: p in net.toServer ==> Told(net.client, p))
    && (forall p :: p in net.toClient ==> Told(net.server, p))
  }

  /** Closed streams stay closed, with their reason. */
  predicate Sticks(m: Mux, m': Mux) {
    |m.streams| <= |m'.streams| &&
    forall n :: 0 <= n < |m.streams| && !m.streams[n].connected ==>
      !m'.streams[n].connected && m'.streams[n].reason == m.streams[n].reason
  }

  lemma ToldSticks(m: Mux, m': Mux, p: Packet)
    requires Told(m, p) && Sticks(m, m')
    ensures Told(m', p)
  {
  }

  lemma HandleSticks(c: Config, m: Mux, e: Event)
    requires Sound(m) && Tidy(m)
    ensures Sticks(m, Handle(c, m, e).mux)
  {
    if m.running && e.Message? { PacketSticks(c, m, e.packet); }
  }

  lemma PacketSticks(c: Config, m: Mux, p: Packet)
    requires Sound(m) && Tidy(m)
    ensures Sticks(m, HandlePacket(c, m, p))
  {
  }

  lemma SentIsTold(c: Config, m: Mux, e: Event)
    requires Sound(m) && Tidy(m)
    ensures Handle(c, m, e).sent.Some? ==> Told(Handle(c, m, e).mux, Handle(c, m, e).sent.value)
  {
  }

  /** A step of a half closes nothing. */
  lemma HalvesStick(m: Mux, n: nat, data: Bytes, credit: u32)
    requires n < |m.streams|
    ensures Sticks(m, Write(m, n, data)) && Sticks(m, Refill(m, n, credit)) && Sticks(m, Read(m, n))
  {
  }

  lemma StepSticks(cfg: Pair, net: Net, step: Step)
    requires BothSound(net) && Tidy(net.client) && Tidy(net.server) && Next(cfg, net, step).Some?
    ensures var net' := Next(cfg, net, step).value;
      Sticks(net.client, net'.client) && Sticks(net.server, net'.server)
  {
    match step
    case ClientLocal(e) => HandleSticks(cfg.c, net.client, e);
    case ServerLocal(e) => HandleSticks(cfg.s, net.server, e);
    case ClientReceives => HandleSticks(cfg.c, net.client, Message(net.toClient[0]));
    case ServerReceives => HandleSticks(cfg.s, net.server, Message(net.toServer[0]));
    case ClientWrites(n, data) => HalvesStick(net.client, n, data, 0);
    case ServerWrites(n, data) => HalvesStick(net.server, n, data, 0);
    case ServerUpdates(n, credit) => HalvesStick(net.server, n, [], credit);
    case ClientReads(n) => HalvesStick(net.client, n, [], 0);
    case ServerReads(n) => HalvesStick(net.server, n, [], 0);
  }

  lemma TruthNext(cfg: Pair, net: Net, step: Step)
    requires BothSound(net) && Tidy(net.client) && Tidy(net.server) && TellsTruth(net) && Next(cfg, net, step).Some?
    ensures TellsTruth(Next(cfg, net, step).value)
  {
    var net' := Next(cfg, net, step).value;
    StepSticks(cfg, net, step);
    if step.ClientLocal? { SentIsTold(cfg.c, net.client, step.event); }
    if step.ServerLocal? { SentIsTold(cfg.s, net.server, step.event); }
    forall p | p in net'.toServer ensures Told(net'.client, p) {
      if p in net.toServer { ToldSticks(net.client, net'.client, p); }
    }
    forall p | p in net'.toClient ensures Told(net'.server, p) {
      if p in net.toClient { ToldSticks(net.server, net'.server, p); }
    }
  }

  /** A stream closed on the side `to` is closed on the side `from`, for the same reason. */
  predicate Follows(from: Mux, to: Mux, n: nat) {
    to.running && n < |to.streams| && !to.streams[n].connected ==>
      n < |from.streams| && !from.streams[n].connected && from.streams[n].reason == to.streams[n].reason
  }

  lemma FollowsSticks(from: Mux, to: Mux, from': Mux, n: nat)
    requires Follows(from, to, n) && Sticks(from, from')
    ensures Follows(from', to, n)
  {
  }

  /** The side `to` handles an event other than its own request to close the stream, which is either its own or a packet
      from the other side. */
  lemma FollowsHandle(c: Config, from: Mux, to: Mux, e: Event, n: nat)
    requires Sound(to) && Tidy(to) && Follows(from, to, n) && n < U32_MAX
    requires (e.Message? ==> Told(from, e.packet)) && !(e.LocalClose? && e.id == n + 1)
    requires e.Message? && e.packet.body.Connect? ==> e.packet.streamId !in to.table || c.role.Client?
    requires e.CreateStream? && to.running ==> to.currentId == |to.streams|
    ensures Follows(from, Handle(c, to, e).mux, n)
  {
  }

  lemma FollowsHalves(from: Mux, to: Mux, k: nat, data: Bytes, credit: u32, n: nat)
    requires Follows(from, to, n) && k < |to.streams|
    ensures Follows(from, Write(to, k, data), n) && Follows(from, Refill(to, k, credit), n)
    ensures Follows(from, Read(to, k), n)
  {
  }

  /** The Connect packets that reach a running server have fresh ids. */
  lemma FreshConnect(net: Net)
    requires Tidy(net.server) && Wires(net) && net.toServer != [] && net.server.running
    ensures net.toServer[0].body.Connect? ==> net.toServer[0].streamId !in net.server.table
  {
  }

  predicate ServerCloses(step: Step, id: u32) {
    step.ServerLocal? && step.event.LocalClose? && step.event.id == id
  }

  predicate ClientCloses(step: Step, id: u32) {
    step.ClientLocal? && step.event.LocalClose? && step.event.id == id
  }

  lemma ServerFollowsNext(cfg: Pair, net: Net, step: Step, n: nat)
    requires Invariant(cfg, net) && TellsTruth(net) && Next(cfg, net, step).Some? && n < U32_MAX
    requires Follows(net.client, net.server, n) && !ServerCloses(step, n + 1)
    ensures var net' := Next(cfg, net, step).value; Follows(net'.client, net'.server, n)
  {
    StepSticks(cfg, net, step);
    match step
    case ServerLocal(e) => FollowsHandle(cfg.s, net.client, net.server, e, n);
    case ServerReceives =>
      if net.server.running { FreshConnect(net); }
      FollowsHandle(cfg.s, net.client, net.server, Message(net.toServer[0]), n);
    case ServerWrites(k, data) => FollowsHalves(net.client, net.server, k, data, 0, n);
    case ServerUpdates(k, credit) => FollowsHalves(net.client, net.server, k, [], credit, n);
    case ServerReads(k) => FollowsHalves(net.client, net.server, k, [], 0, n);
    case _ => FollowsSticks(net.client, net.server, Next(cfg, net, step).value.client, n);
  }

  lemma ClientFollowsNext(cfg: Pair, net: Net, step: Step, n: nat)
    requires Invariant(cfg, net) && TellsTruth(net) && Next(cfg, net, step).Some? && n < U32_MAX
    requires Follows(net.server, net.client, n) && !ClientCloses(step, n + 1)
    ensures var net' := Next(cfg, net, step).value; Follows(net'.server, net'.client, n)
  {
    StepSticks(cfg, net, step);
    match step
    case ClientLocal(e) => FollowsHandle(cfg.c, net.server, net.client, e, n);
    case ClientReceives => FollowsHandle(cfg.c, net.server, net.client, Message(net.toClient[0]), n);
    case ClientWrites(k, data) => FollowsHalves(net.server, net.client, k, data, 0, n);
    case ClientReads(k) => FollowsHalves(net.server, net.client, k, [], 0, n);
    case _ => FollowsSticks(net.server, net.client, Next(cfg, net, step).value.server, n);
  }

  lemma {:induction false} ExecReasons(cfg: Pair, net: Net, steps: seq<Step>, n: nat)
    requires Invariant(cfg, net) && TellsTruth(net) && Exec(cfg, net, steps).Some? && n < U32_MAX
    ensures var net' := Exec(cfg, net, steps).value;
      && Sticks(net.client, net'.client) && Sticks(net.server, net'.server)
      && (Follows(net.client, net.server, n) && (forall step :: step in steps ==> !ServerCloses(step, n + 1)) ==>
            Follows(net'.client, net'.server, n))
      && (Follows(net.server, net.client, n) && (forall step :: step in steps ==> !ClientCloses(step, n + 1)) ==>
            Follows(net'.server, net'.client, n))
    decreases |steps|
  {
    if steps != [] {
      var m := Next(cfg, net, steps[0]).value;
      InvariantNext(cfg, net, steps[0]);
      TruthNext(cfg, net, steps[0]);
      StepSticks(cfg, net, steps[0]);
      assert steps[0] in steps && forall step :: step in steps[1..] ==> step in steps;
      if Follows(net.client, net.server, n) && !ServerCloses(steps[0], n + 1) {
        ServerFollowsNext(cfg, net, steps[0], n);
      }
      if Follows(net.server, net.client, n) && !ClientCloses(steps[0], n + 1) {
        ClientFollowsNext(cfg, net, steps[0], n);
      }
      ExecReasons(cfg, m, steps[1..], n);
      var net' := Exec(cfg, net, steps).value;
      SticksOn(net.client, m.client, net'.client);
      SticksOn(net.server, m.server, net'.server);
    }
  }

  lemma SticksOn(a: Mux, b: Mux, c: Mux)
    requires Sticks(a, b) && Sticks(b, c)
    ensures Sticks(a, c)
  {
  }

  // ---------- A close that arrives ----------

  predicate IsCloseFor(p: Packet, n: nat) {
    p.body.Close? && p.streamId == n + 1
  }

  predicate IsConnectFor(p: Packet, n: nat) {
    p.body.Connect? && p.streamId == n + 1
  }

  /** A Close packet for the stream is on the way to the server, and before it the Connect packet, if the server does
      not know the stream yet. */
  predicate OnTheWay(net: Net, n: nat, i: nat, j: nat) {
    && i < |net.toServer| && IsCloseFor(net.toServer[i], n)
    && (n >= |net.server.streams| ==> j < i && IsConnectFor(net.toServer[j], n))
  }

  ghost predicate Closing(net: Net, n: nat) {
    || !net.server.running
    || (n < |net.server.streams| && !net.server.streams[n].connected)
    || exists i, j :: OnTheWay(net, n, i, j)
  }

  lemma {:induction false} ConnectInFlight(ps: seq<Packet>, lo: nat, hi: nat, n: nat) returns (j: nat)
    requires Connects(ps, lo, hi) && lo <= n < hi
    ensures j < |ps| && IsConnectFor(ps[j], n)
    decreases |ps|
  {
    j := 0;
    if !IsConnectFor(ps[0], n) {
      j := ConnectInFlight(ps[1..], if ps[0].body.Connect? then lo + 1 else lo, hi, n);
      j := j + 1;
    }
  }

  /** The client's request to close an open stream puts a Close packet on the wire. */
  lemma CloseIsSent(cfg: Pair, net: Net, n: nat, reason: CloseReason)
    requires Invariant(cfg, net) && net.client.running && n < U32_MAX
    requires n < |net.client.streams| && net.client.streams[n].connected
    ensures var next := Next(cfg, net, ClientLocal(LocalClose(n + 1, reason, true)));
      && next.Some? && Closing(next.value, n)
      && next.value.toServer == net.toServer + [Packet(n + 1, Close(reason))]
      && |next.value.client.streams| == |net.client.streams| && !next.value.client.streams[n].connected
      && next.value.client.streams[n].reason == ReasonCode(reason)
  {
    var net' := Next(cfg, net, ClientLocal(LocalClose(n + 1, reason, true))).value;
    var i, j := |net.toServer|, 0;
    if net.server.running && n >= |net.server.streams| {
      j := ConnectInFlight(net.toServer, |net.server.streams|, |net.client.streams|, n);
      assert net'.toServer[j] == net.toServer[j];
    }
    if net.server.running { assert OnTheWay(net', n, i, j); }
  }

  /** The server handles the packet in front of the close, or the close. */
  lemma WayServerReceives(cfg: Pair, net: Net, n: nat, i: nat, j: nat)
    requires Invariant(cfg, net) && n < U32_MAX && OnTheWay(net, n, i, j) && net.server.running
    ensures Closing(Next(cfg, net, ServerReceives).value, n)
  {
    var net' := Next(cfg, net, ServerReceives).value;
    var p := net.toServer[0];
    StreamsGrow(cfg.s, net.server, Message(p));
    if i > 0 {
      var j' := if j > 0 then j - 1 else 0;
      assert net'.toServer[i - 1] == net.toServer[i];
      assert n >= |net.server.streams| && j > 0 ==> net'.toServer[j - 1] == net.toServer[j];
      if net'.server.running { assert OnTheWay(net', n, i - 1, j'); }
    }
  }

  lemma WayStays(net: Net, net': Net, n: nat, i: nat, j: nat)
    requires OnTheWay(net, n, i, j) && |net'.server.streams| >= |net.server.streams|
    requires |net'.toServer| >= |net.toServer| && net'.toServer[..|net.toServer|] == net.toServer
    ensures OnTheWay(net', n, i, j)
  {
    assert net'.toServer[i] == net.toServer[i];
    if n >= |net'.server.streams| { assert net'.toServer[j] == net.toServer[j]; }
  }

  /** Only the server's own actor takes packets off that wire, and nobody takes streams away or starts it again. */
  lemma WireGrows(cfg: Pair, net: Net, step: Step)
    requires BothSound(net) && Tidy(net.client) && Tidy(net.server) && Next(cfg, net, step).Some?
    ensures var net' := Next(cfg, net, step).value;
      && |net'.server.streams| >= |net.server.streams| && (net'.server.running ==> net.server.running)
      && (!step.ServerReceives? ==>
            |net'.toServer| >= |net.toServer| && net'.toServer[..|net.toServer|] == net.toServer)
  {
    StepSticks(cfg, net, step);
  }

  lemma ClosingNext(cfg: Pair, net: Net, step: Step, n: nat)
    requires Invariant(cfg, net) && n < U32_MAX && Closing(net, n) && Next(cfg, net, step).Some?
    ensures Closing(Next(cfg, net, step).value, n)
  {
    var net' := Next(cfg, net, step).value;
    StepSticks(cfg, net, step);
    WireGrows(cfg, net, step);
    if net.server.running && !(n < |net.server.streams| && !net.server.streams[n].connected) {
      var i, j :| OnTheWay(net, n, i, j);
      if step.ServerReceives? { WayServerReceives(cfg, net, n, i, j); } else { WayStays(net, net', n, i, j); }
    }
  }

  lemma {:induction false} ExecClosing(cfg: Pair, net: Net, steps: seq<Step>, n: nat)
    requires Invariant(cfg, net) && n < U32_MAX && Closing(net, n) && Exec(cfg, net, steps).Some?
    ensures Closing(Exec(cfg, net, steps).value, n)
    decreases |steps|
  {
    if steps != [] {
      ClosingNext(cfg, net, steps[0], n);
      InvariantNext(cfg, net, steps[0]);
      ExecClosing(cfg, Next(cfg, net, steps[0]).value, steps[1..], n);
    }
  }

  /** The client closes an open stream for a reason, in any two-party run in which the server does not close it by
      itself: from then on the client shows the stored reason; the server shows the same as soon as it shows one at
      all; and while its actor runs it does so at the latest when nothing is left on the wire to it. */
  lemma ReasonArrives(cfg: Pair, before: seq<Step>, n: nat, reason: CloseReason, after: seq<Step>, mid: Net, net: Net)
    requires cfg.c.role.Client? && cfg.s.role.Server? && Exec(cfg, Start, before) == Some(mid) && n < U32_MAX
    requires mid.client.running && n < |mid.client.streams| && mid.client.streams[n].connected
    requires Exec(cfg, mid, [ClientLocal(LocalClose(n + 1, reason, true))] + after) == Some(net)
    requires forall step :: step in before || step in after ==> !ServerCloses(step, n + 1)
    ensures n < |net.client.streams| && VisibleReason(net.client.streams[n]) == Some(Stored(reason))
    ensures net.server.running && n < |net.server.streams| && VisibleReason(net.server.streams[n]).Some? ==>
      VisibleReason(net.server.streams[n]) == Some(Stored(reason))
    ensures net.server.running && net.toServer == [] ==>
      n < |net.server.streams| && VisibleReason(net.server.streams[n]) == Some(Stored(reason))
  {
    BeforeTheClose(cfg, before, n, mid);
    ExecCons(cfg, mid, ClientLocal(LocalClose(n + 1, reason, true)), after);
    AfterTheClose(cfg, mid, n, reason, after, net);
  }

  lemma ExecCons(cfg: Pair, net: Net, step: Step, rest: seq<Step>)
    requires BothSound(net) && Exec(cfg, net, [step] + rest).Some?
    ensures Next(cfg, net, step).Some?
    ensures Exec(cfg, Next(cfg, net, step).value, rest) == Exec(cfg, net, [step] + rest)
  {
    assert ([step] + rest)[1..] == rest;
  }

  lemma BeforeTheClose(cfg: Pair, before: seq<Step>, n: nat, mid: Net)
    requires cfg.c.role.Client? && cfg.s.role.Server? && Exec(cfg, Start, before) == Some(mid) && n < U32_MAX
    requires forall step :: step in before ==> !ServerCloses(step, n + 1)
    ensures Invariant(cfg, mid) && TellsTruth(mid) && Follows(mid.client, mid.server, n)
  {
    StartInvariant(cfg);
    RunInvariant(cfg, before, mid);
    ReasonsAgree(cfg, before, mid, n);
    ExecTruth(cfg, Start, before);
  }

  /** The run from the client's request on. */
  lemma AfterTheClose(cfg: Pair, mid: Net, n: nat, reason: CloseReason, after: seq<Step>, net: Net)
    requires Invariant(cfg, mid) && TellsTruth(mid) && Follows(mid.client, mid.server, n) && n < U32_MAX
    requires mid.client.running && n < |mid.client.streams| && mid.client.streams[n].connected
    requires var next := Next(cfg, mid, ClientLocal(LocalClose(n + 1, reason, true)));
      next.Some? && Exec(cfg, next.value, after) == Some(net)
    requires forall step :: step in after ==> !ServerCloses(step, n + 1)
    ensures n < |net.client.streams| && VisibleReason(net.client.streams[n]) == Some(Stored(reason))
    ensures Follows(net.client, net.server, n) && Closing(net, n)
  {
    var close := ClientLocal(LocalClose(n + 1, reason, true));
    var closed := Next(cfg, mid, close).value;
    CloseIsSent(cfg, mid, n, reason);
    InvariantNext(cfg, mid, close);
    TruthNext(cfg, mid, close);
    ServerFollowsNext(cfg, mid, close, n);
    ExecReasons(cfg, closed, after, n);
    ExecClosing(cfg, closed, after, n);
  }

  lemma {:induction false} ExecTruth(cfg: Pair, net: Net, steps: seq<Step>)
    requires Invariant(cfg, net) && TellsTruth(net) && Exec(cfg, net, steps).Some?
    ensures TellsTruth(Exec(cfg, net, steps).value)
    decreases |steps|
  {
    if steps != [] {
      TruthNext(cfg, net, steps[0]);
      InvariantNext(cfg, net, steps[0]);
      ExecTruth(cfg, Next(cfg, net, steps[0]).value, steps[1..]);
    }
  }

  /** Whatever the two sides do: a stream that is closed on a side which runs and has not closed it by itself is closed
      on the other side as well, and both show the same reason. */
  lemma ReasonsAgree(cfg: Pair, steps: seq<Step>, net: Net, n: nat)
    requires cfg.c.role.Client? && cfg.s.role.Server? && Exec(cfg, Start, steps) == Some(net) && n < U32_MAX
    ensures (forall step :: step in steps ==> !ServerCloses(step, n + 1)) ==> Follows(net.client, net.server, n)
    ensures (forall step :: step in steps ==> !ClientCloses(step, n + 1)) ==> Follows(net.server, net.client, n)
  {
    StartInvariant(cfg);
    ExecReasons(cfg, Start, steps, n);
  }
}
