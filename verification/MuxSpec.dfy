/** The multiplexor actor: stream table, id allocation, routing, closing and shutdown, on values. */
module MuxSpec {
  import opened Common
  import opened Packets
  import FlowSpec

  /** `flowTypes` are the stream types under flow control. */
  datatype Config = Config(role: Role, flowTypes: set<u8>, bufferSize: u32)

  /** Everything about one stream that outlives its table entry: the data channel, the close reason, the credit, whether
      the client tracks it, and what its halves have written and returned so far. */
  datatype Stream = Stream(
    id: u32,
    capacity: Option<nat>,
    queue: seq<Bytes>,
    connected: bool,
    reason: u8,               // the code of the close reason
    wrote: seq<Bytes>,
    taken: seq<Bytes>,
    credit: u32,
    tracks: bool)

  /** `streams` holds every stream ever added, in order; `table` maps the ids of open ones to their position;
      `listening` says that somebody still waits for the streams the peer opens; `connects` holds the Connect packets
      that were handed to the transport, or to whoever waits for streams. */
  datatype Mux = Mux(
    table: map<u32, nat>,
    streams: seq<Stream>,
    currentId: u32,
    running: bool,
    listening: bool,
    connects: seq<Packet>)

  const Fresh := Mux(map[], [], 0, true, true, [])

  /** `ok` says that the transport takes the packet the actor sends. */
  datatype Event =
    | CreateStream(streamType: StreamType, host: Utf8, port: u16, ok: bool)
    | LocalClose(id: u32, reason: CloseReason, ok: bool)
    | EndFut(farewell: Option<CloseReason>, ok: bool)
    | Unlisten             // the multiplexor that waits for new streams is dropped
    | Message(packet: Packet)
    | ReadFailed           // the transport failed or sent something undecodable
    | ReadEnded            // the transport, or the event channel, is exhausted

  /** Flow control: the server bounds the channel, the client tracks the credit. */
  function NewStream(c: Config, id: u32, t: StreamType): Stream {
    var controlled := StreamCode(t) in c.flowTypes;
    Stream(id, if controlled && c.role.Server? then Some(c.bufferSize) else None, [], true, ReasonCode(Unknown), [], [],
           c.bufferSize, controlled && c.role.Client?)
  }

  predicate Sound(m: Mux) {
    forall id :: id in m.table ==> m.table[id] < |m.streams|
  }

  /** The sender of a stream's channel is dropped. */
  function Disconnect(m: Mux, n: nat): Mux
    requires n < |m.streams|
  {
    m.(streams := m.streams[n := m.streams[n].(connected := false)])
  }

  /** `add_stream`: an entry that already has the id is replaced. */
  function AddStream(c: Config, m: Mux, id: u32, t: StreamType): Mux
    requires Sound(m)
  {
    var m' := if id in m.table then Disconnect(m, m.table[id]) else m;
    m'.(table := m.table[id := |m.streams|],
        streams := m'.streams + [NewStream(c, id, t)])
  }

  /** `close_stream` on the entry for `id`, if there is one. */
  function CloseStream(m: Mux, id: u32, reason: CloseReason): Mux
    requires Sound(m)
  {
    if id !in m.table then m
    else m.(table := m.table - {id},
            streams := m.streams[m.table[id] :=
                                 m.streams[m.table[id]].(connected := false, reason := ReasonCode(reason))])
  }

  /** What `FlowSpec.Deliver` looks at. */
  function AsReader(s: Stream): FlowSpec.Reader {
    FlowSpec.Reader(s.connected, s.queue, None, 0, s.credit, false)
  }

  /** `handle_data_packet`: unknown ids and full queues drop the data; the server takes it off the credit. */
  function Route(c: Config, m: Mux, id: u32, data: Bytes): Mux
    requires Sound(m)
  {
    if id !in m.table then m
    else
      var s := m.streams[m.table[id]];
      var r := FlowSpec.Deliver(AsReader(s), s.capacity, data).0;
      var credit := if c.role.Server? then r.credit else s.credit;
      m.(streams := m.streams[m.table[id] := s.(queue := r.queue, credit := credit)])
  }

  /** `handle_continue_packet` on the client: the credit of a tracked stream is replaced. */
  function TakeCredit(m: Mux, id: u32, credit: u32): Mux
    requires Sound(m)
  {
    if id !in m.table then m
    else
      var s := m.streams[m.table[id]];
      var w := FlowSpec.Adopt(FlowSpec.Writer(true, None, s.credit, false, false), s.tracks, credit);
      m.(streams := m.streams[m.table[id] := s.(credit := w.credit)])
  }

  /** `into_future` after the loop: every open stream is closed with an unknown reason. */
  function Finish(m: Mux): Mux {
    m.(table := map[], running := false,
       streams := seq(|m.streams|, i requires 0 <= i < |m.streams| => Abandon(m.streams[i])))
  }

  function Abandon(s: Stream): Stream {
    if s.connected then s.(connected := false, reason := ReasonCode(Unknown)) else s
  }

  /** What handling one event does: the new state and the packet written to the transport. */
  datatype Handled = Handled(mux: Mux, sent: Option<Packet>)

  /** `handle_packet`; errors and a Close for stream 0 end the actor. */
  function HandlePacket(c: Config, m: Mux, p: Packet): Mux
    requires Sound(m)
  {
    match p.body
    case Connect(t, _, _) =>
      var added := AddStream(c, m, p.streamId, t);
      if c.role.Client? || !m.listening then Finish(added) else added.(connects := m.connects + [p])
    case Data(data) => Route(c, m, p.streamId, data)
    case Continue(credit) => if c.role.Server? then Finish(m) else TakeCredit(m, p.streamId, credit)
    case Close(reason) => if p.streamId == 0 then Finish(m) else CloseStream(m, p.streamId, reason)
  }

  function Sent(p: Packet, ok: bool): Option<Packet> {
    if ok then Some(p) else None
  }

  /** One round of the loop in `entry`. */
  function Handle(c: Config, m: Mux, e: Event): Handled
    requires Sound(m)
  {
    if !m.running then Handled(m, None)
    else match e
      case CreateStream(t, host, port, ok) =>
        if m.currentId == U32_MAX then Handled(m, None)
        else
          var id := m.currentId + 1;
          var p := Packet(id, Connect(t, host, port));
          var added := AddStream(c, m.(currentId := id), id, t);
          Handled(if ok then added.(connects := m.connects + [p]) else added, Sent(p, ok))
      case LocalClose(id, reason, ok) =>
        if id in m.table then Handled(CloseStream(m, id, reason), Sent(Packet(id, Close(reason)), ok))
        else Handled(m, None)
      case EndFut(farewell, ok) =>
        Handled(Finish(m), if farewell.Some? then Sent(Packet(0, Close(farewell.value)), ok) else None)
      case Unlisten => Handled(m.(listening := false), None)
      case Message(p) => Handled(HandlePacket(c, m, p), None)
      case ReadFailed => Handled(Finish(m), None)
      case ReadEnded => Handled(Finish(m), None)
  }

  /** `MuxStreamRead::get_close_reason`: only a disconnected stream has one; it is converted back from its code. */
  function VisibleReason(s: Stream): Option<CloseReason> {
    if s.connected then None else Some(ReasonOf(s.reason))
  }

  lemma HandleSound(c: Config, m: Mux, e: Event)
    requires Sound(m)
    ensures Sound(Handle(c, m, e).mux)
  {
  }
}
