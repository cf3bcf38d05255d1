/** Any number of stream halves and actors share one unfold transport behind the lock.  One step is one poll. */
module TransportSystem {
  import opened Common
  import opened FlowSpec
  import opened UnfoldSink

  datatype Message = Update(credit: u32) | Data(bytes: Bytes)

  datatype Operation = Ready | Flush | Cancelled

  /** `capacity` bounds the queue of a reading half; `cancelled` says that the caller has dropped the future that polled
      it.  Of a writing half, `last` is the operation polled last, if its future was not dropped, and `ready` says that
      `poll_ready` has returned Ready and `start_send` was not called since. */
  datatype Half =
    | ReadHalf(reader: Reader, updates: bool, target: u32, capacity: Option<nat>, cancelled: bool)
    | WriteHalf(writer: Writer, tracks: bool, last: Operation, ready: bool)
    | Actor(slot: Writer, busy: bool, creating: bool, leaked: bool)   // busy sending, a Connect packet; lock leaked
    | Gone

  /** A half and the messages it took on: the Continue packets a reader sent, the items a writer or an actor
      accepted. */
  datatype Agent = Agent(half: Half, given: seq<Message>)

  type Entry = (nat, Message)

  datatype World = World(
    agents: seq<Agent>,
    locked: bool,                     // the flag of the lock
    sink: IteratorState<nat, Entry>,
    entered: seq<Entry>,              // every payload the function was called on, with its sender
    ran: seq<nat>,                    // the state the function was called on each time
    results: seq<nat>,                // the states returned by the futures that completed
    failed: nat,                      // futures that failed
    panicked: bool)

  function Init(): World {
    World([], false, Value(0), [], [], [], 0, false)
  }

  // ---------- The shared transport ----------

  function Settle(w: World, answer: Answer<nat>): (s: (World, FlushReply))
    ensures s.0.agents == w.agents
  {
    var (sink, r) := SinkFlush(w.sink, answer);
    var results := if w.sink.Future? && answer.Done? then w.results + [answer.state] else w.results;
    (w.(sink := sink, results := results, failed := if r.FlushError? then w.failed + 1 else w.failed), r)
  }

  function Enter(w: World, u: nat, m: Message): (w': World)
    ensures w'.agents == w.agents
  {
    match SinkSend(w.sink, (u, m))
    case Some(sink) => w.(sink := sink, entered := w.entered + [(u, m)], ran := w.ran + [sink.taken])
    case None => w.(panicked := true)
  }

  /** `poll_lock`: Ready if this half owns the lock already or the flag is free. */
  predicate GetsLock(w: World, holding: bool) {
    holding || !w.locked
  }

  /** `poll_lock`, then `poll_ready`, then `start_send`. */
  function Offer(w: World, u: nat, holding: bool, m: Message, answer: Answer<nat>): (r: (World, Reply))
    ensures r.0.agents == w.agents
  {
    if !GetsLock(w, holding) then (w, LockPending)
    else
      var (w1, r) := Settle(w, answer);
      if r.FlushPending? then (w1, SinkPending)
      else if r.FlushError? then (w1, SinkError)
      else (Enter(w1, u, m), Accepted)
  }

  // ---------- Polls ----------

  function Counted(r: Reader): int {
    if r.chunk.Some? then r.readCnt else r.readCnt + 1
  }

  /** This poll of the reading half wants to send a Continue packet. */
  predicate ReaderAsks(r: Reader, updates: bool, target: u32) {
    r.connected && (r.chunk.Some? || r.queue != []) && updates && Counted(r) > target
  }

  /** This `poll_ready` of the writing half wants to hand over its chunk. */
  predicate WriterAsks(wr: Writer, tracks: bool) {
    wr.connected && !(tracks && wr.credit == 0) && wr.chunk.Some?
  }

  function Put(w: World, u: nat, half: Half, given: seq<Message>, locked: bool): (w': World)
    requires u < |w.agents|
    ensures OnlyOne(w, w', u)
  {
    w.(agents := w.agents[u := Agent(half, w.agents[u].given + given)], locked := locked)
  }

  /** The other agents are left alone. */
  predicate OnlyOne(w: World, w': World, u: nat) {
    |w'.agents| == |w.agents| && forall v :: 0 <= v < |w.agents| && v != u ==> w'.agents[v] == w.agents[v]
  }

  function PollRead(w: World, u: nat, answer: Answer<nat>): (w': World)
    requires u < |w.agents| && w.agents[u].half.ReadHalf? && w.agents[u].half.reader.readCnt < U32_MAX
    ensures OnlyOne(w, w', u)
  {
    var h := w.agents[u].half;
    var r := h.reader;
    if !ReaderAsks(r, h.updates, h.target) then
      Put(w, u, h.(reader := PollNext(r, h.updates, h.target, LockPending).reader, cancelled := false), [], w.locked)
    else
      var (w1, reply) := Offer(w, u, r.holding, Update(SatAdd(r.credit, Counted(r))), answer);
      if w1.panicked then w.(panicked := true) else AfterRead(w1, u, reply)
  }

  /** The rest of the poll, once the lock and the transport have answered. */
  function AfterRead(w: World, u: nat, reply: Reply): World
    requires u < |w.agents| && w.agents[u].half.ReadHalf? && w.agents[u].half.reader.readCnt < U32_MAX
  {
    var h := w.agents[u].half;
    var o := PollNext(h.reader, h.updates, h.target, reply);
    Put(w, u, h.(reader := o.reader, cancelled := false), if o.sent.Some? then [Update(o.sent.value)] else [],
        if reply.LockPending? then w.locked else o.reader.holding)
  }

  function PollWriteReady(w: World, u: nat, answer: Answer<nat>): (w': World)
    requires u < |w.agents| && w.agents[u].half.WriteHalf?
    ensures OnlyOne(w, w', u)
  {
    var h := w.agents[u].half;
    var wr := h.writer;
    if !WriterAsks(wr, h.tracks) then
      var o := PollReady(wr, h.tracks, LockPending);
      Put(w, u, h.(writer := o.writer, last := Ready, ready := o.result.WriteReady?), [], w.locked)
    else
      var (w1, reply) := Offer(w, u, wr.holding, Data(wr.chunk.value), answer);
      if w1.panicked then w.(panicked := true) else AfterReady(w1, u, reply)
  }

  function AfterReady(w: World, u: nat, reply: Reply): World
    requires u < |w.agents| && w.agents[u].half.WriteHalf?
  {
    var h := w.agents[u].half;
    var o := PollReady(h.writer, h.tracks, reply);
    Put(w, u, h.(writer := o.writer, last := Ready, ready := o.result.WriteReady?), [],
        if reply.LockPending? then w.locked else o.writer.holding)
  }

  function PollWriteFlush(w: World, u: nat, first: Answer<nat>, second: Answer<nat>): (w': World)
    requires u < |w.agents| && w.agents[u].half.WriteHalf?
    ensures OnlyOne(w, w', u)
  {
    var h := w.agents[u].half;
    var wr := h.writer;
    if !GetsLock(w, wr.holding) then Put(w, u, h.(last := Flush), [], w.locked)
    else
      var (w1, reply) := if wr.chunk.Some? then Offer(w, u, wr.holding, Data(wr.chunk.value), first) else (w, Accepted);
      if w1.panicked then w.(panicked := true) else FlushRest(w1, u, reply, second)
  }

  /** The rest of `poll_flush`, once the offer is answered. */
  function FlushRest(w: World, u: nat, reply: Reply, second: Answer<nat>): (w': World)
    requires u < |w.agents| && w.agents[u].half.WriteHalf?
    ensures OnlyOne(w, w', u)
  {
    var (w2, flush) := if reply.Accepted? then Settle(w, second) else (w, Flushed);
    AfterFlush(w2, u, reply, flush)
  }

  function AfterFlush(w: World, u: nat, reply: Reply, flush: FlushReply): World
    requires u < |w.agents| && w.agents[u].half.WriteHalf?
  {
    var h := w.agents[u].half;
    var o := PollFlush(h.writer, h.tracks, reply, flush);
    Put(w, u, h.(writer := o.writer, last := Flush), [], o.writer.holding)
  }

  /** A poll of the actor while it sends: `lock`, `SinkExt::send` and `unlock`, which are `poll_flush` on its slot. */
  function PollActor(w: World, u: nat, first: Answer<nat>, second: Answer<nat>): (w': World)
    requires u < |w.agents| && w.agents[u].half.Actor?
    ensures OnlyOne(w, w', u)
  {
    var h := w.agents[u].half;
    if !GetsLock(w, h.slot.holding) then w
    else
      var (w1, reply) :=
        if h.slot.chunk.Some? then Offer(w, u, h.slot.holding, Data(h.slot.chunk.value), first) else (w, Accepted);
      if w1.panicked then w.(panicked := true) else ActorRest(w1, u, reply, second)
  }

  function ActorRest(w: World, u: nat, reply: Reply, second: Answer<nat>): (w': World)
    requires u < |w.agents| && w.agents[u].half.Actor?
    ensures OnlyOne(w, w', u)
  {
    var (w2, flush) := if reply.Accepted? then Settle(w, second) else (w, Flushed);
    var after := ActorAfter(w.agents[u].half, PollFlush(w.agents[u].half.slot, false, reply, flush));
    Put(w2, u, after, [], after.slot.holding)
  }

  /** A failed send loses its packet; if it was a Connect packet, `?` returns before the `unlock`. */
  function ActorAfter(h: Half, o: WriteOutcome): (after: Half)
    requires h.Actor?
    ensures after.Actor? && after.creating == h.creating
  {
    if o.result.WritePending? then h.(slot := o.writer)
    else if o.result.WriteReady? then h.(slot := o.writer, busy := false)
    else h.(slot := o.writer.(chunk := None, holding := h.creating), busy := false, leaked := h.creating)
  }

  // ---------- Runs ----------

  datatype Step =
    | JoinReader(updates: bool, bufferSize: u32)
    | JoinWriter(tracks: bool, bufferSize: u32)
    | JoinActor
    | ActorSend(u: nat, packet: Bytes, creating: bool)            // the actor begins to send a packet
    | ActorPoll(u: nat, first: Answer<nat>, second: Answer<nat>)
    | PollNextOf(u: nat, answer: Answer<nat>)
    | PollReadyOf(u: nat, answer: Answer<nat>)
    | PollFlushOf(u: nat, first: Answer<nat>, second: Answer<nat>)
    | SendOf(u: nat, item: Bytes)                                 // `start_send` of a writing half
    | Arrive(u: nat, data: Bytes)                                 // the actor delivers to a reading half
    | Continue(u: nat, credit: u32)                               // the actor hands credit to a writing half
    | Close(u: nat)                                               // the actor lets go of the half
    | Cancel(u: nat)                                              // the future that polls the half is dropped
    | Drop(u: nat)

  /** What the environment and the callers may do. */
  datatype Policy = Policy(
    errors: bool,         // futures of the transport may fail
    closes: bool,         // streams are closed under their halves
    cancels: bool,        // callers drop the future of an operation and keep the half
    creates: bool,        // actors create streams
    eager: bool,          // `poll_ready` is called while a flush of the same half is pending
    zeroUpdates: bool)    // the peer may advertise a credit of 0

  /** An actor handles no packet and makes no stream while it sends a packet. */
  predicate ActorsIdle(w: World) {
    forall v :: 0 <= v < |w.agents| ==> !(w.agents[v].half.Actor? && w.agents[v].half.busy)
  }

  predicate Allowed(p: Policy, w: World, step: Step) {
    match step
    case PollNextOf(u, a) => p.errors || !a.Broke?
    case PollReadyOf(u, a) =>
      && (p.errors || !a.Broke?)
      && (p.eager || !(u < |w.agents| && Held(w.agents[u].half) && w.agents[u].half.last.Flush?))
    case PollFlushOf(u, a, b) => p.errors || !(a.Broke? || b.Broke?)
    case ActorPoll(u, a, b) => p.errors || !(a.Broke? || b.Broke?)
    case ActorSend(u, _, creating) => p.creates || !creating
    case JoinReader(_, _) => ActorsIdle(w)
    case JoinWriter(_, _) => ActorsIdle(w)
    case Arrive(u, _) => ActorsIdle(w)
    case Continue(u, credit) => ActorsIdle(w) && (p.zeroUpdates || credit > 0)
    case Close(u) => ActorsIdle(w) && p.closes
    case Cancel(u) => p.cancels
    case _ => true
  }

  /** A writing half that owns the lock. */
  predicate Held(h: Half) {
    h.WriteHalf? && h.writer.holding
  }

  predicate Holding(h: Half) {
    match h
    case ReadHalf(r, _, _, _, _) => r.holding
    case WriteHalf(wr, _, _, _) => wr.holding
    case Actor(slot, _, _, _) => slot.holding
    case Gone => false
  }

  /** The halves `add_stream` makes; the queue is bounded exactly if Continue packets are sent for the stream. */
  function FreshReader(updates: bool, b: u32): Half {
    ReadHalf(Reader(true, [], None, 0, b, false), updates, Target(b), if updates then Some(b) else None, false)
  }

  function FreshWriter(tracks: bool, b: u32): Half {
    WriteHalf(Writer(true, None, b, false, false), tracks, Ready, false)
  }

  const FreshActor := Actor(Writer(true, None, 0, false, false), false, false, false)

  /** A new half or actor joins. */
  predicate Joins(step: Step) {
    step.JoinReader? || step.JoinWriter? || step.JoinActor?
  }

  function Next(p: Policy, w: World, step: Step): Option<World> {
    if w.panicked || !Allowed(p, w, step) then None
    else
      match step
      case JoinReader(updates, b) =>
        Some(w.(agents := w.agents + [Agent(FreshReader(updates, b), [])]))
      case JoinWriter(tracks, b) =>
        Some(w.(agents := w.agents + [Agent(FreshWriter(tracks, b), [])]))
      case JoinActor => Some(w.(agents := w.agents + [Agent(FreshActor, [])]))
      case _ => if step.u >= |w.agents| then None else NextOf(w, w.agents[step.u].half, step)
  }

  function NextOf(w: World, h: Half, step: Step): Option<World>
    requires !Joins(step) && step.u < |w.agents| && h == w.agents[step.u].half
  {
    if h.Gone? then None
    else if step.Drop? then Some(Put(w, step.u, Gone, [], if Holding(h) then false else w.locked))
    else if h.ReadHalf? then NextRead(w, h, step)
    else if h.WriteHalf? then NextWrite(w, h, step)
    else NextActor(w, h, step)
  }

  function NextActor(w: World, h: Half, step: Step): Option<World>
    requires !Joins(step) && step.u < |w.agents| && h == w.agents[step.u].half && h.Actor?
  {
    match step
    case ActorSend(u, packet, creating) =>
      if h.busy || h.slot.chunk.Some? then None
      else Some(Put(w, u, Actor(StartSend(h.slot, packet), true, creating, h.leaked), [Data(packet)], w.locked))
    case ActorPoll(u, first, second) => if h.busy then Some(PollActor(w, u, first, second)) else None
    case _ => None
  }

  function NextRead(w: World, h: Half, step: Step): Option<World>
    requires !Joins(step) && step.u < |w.agents| && h == w.agents[step.u].half && h.ReadHalf?
  {
    match step
    case PollNextOf(u, answer) => if h.reader.readCnt < U32_MAX then Some(PollRead(w, u, answer)) else None
    case Arrive(u, data) => Some(Put(w, u, h.(reader := Deliver(h.reader, h.capacity, data).0), [], w.locked))
    case Close(u) => Some(Put(w, u, h.(reader := h.reader.(connected := false)), [], w.locked))
    case Cancel(u) => if h.cancelled then None else Some(Put(w, u, h.(cancelled := true), [], w.locked))
    case _ => None
  }

  function NextWrite(w: World, h: Half, step: Step): Option<World>
    requires !Joins(step) && step.u < |w.agents| && h == w.agents[step.u].half && h.WriteHalf?
  {
    match step
    case PollReadyOf(u, answer) => Some(PollWriteReady(w, u, answer))
    case PollFlushOf(u, first, second) => Some(PollWriteFlush(w, u, first, second))
    case SendOf(u, item) =>
      if !h.ready then None
      else Some(Put(w, u, h.(writer := StartSend(h.writer, item), ready := false), [Data(item)], w.locked))
    case Continue(u, credit) => Some(Put(w, u, h.(writer := Adopt(h.writer, h.tracks, credit)), [], w.locked))
    case Close(u) => Some(Put(w, u, h.(writer := h.writer.(connected := false)), [], w.locked))
    case Cancel(u) => if h.last.Cancelled? then None else Some(Put(w, u, h.(last := Cancelled), [], w.locked))
    case _ => None
  }

  function Exec(p: Policy, w: World, steps: seq<Step>): Option<World>
    decreases |steps|
  {
    if steps == [] then Some(w)
    else
      match Next(p, w, steps[0])
      case None => None
      case Some(w') => Exec(p, w', steps[1..])
  }

  ghost predicate Reachable(p: Policy, w: World) {
    exists steps :: Exec(p, Init(), steps) == Option.Some(w)
  }

  // ---------- The invariant ----------

  /** The messages of one agent, in the order in which they entered the transport. */
  function Of(entered: seq<Entry>, u: nat): seq<Message> {
    if entered == [] then []
    else
      var init, last := entered[..|entered| - 1], entered[|entered| - 1];
      if last.0 == u then Of(init, u) + [last.1] else Of(init, u)
  }

  function Stash(h: Half): seq<Message> {
    if h.WriteHalf? && h.writer.chunk.Some? then [Data(h.writer.chunk.value)]
    else if h.Actor? && h.slot.chunk.Some? then [Data(h.slot.chunk.value)]
    else []
  }

  /** The transport runs on one payload at a time, and on all of them in turn. */
  predicate SinkOk(w: World) {
    && |w.entered| == |w.results| + w.failed + (if w.sink.Future? then 1 else 0)
    && (w.sink.Future? ==> w.entered[|w.entered| - 1] == w.sink.payload)
    && w.failed == (if w.sink.Empty? then 1 else 0)
    && (w.panicked ==> w.sink.Empty?)
  }

  /** A dropped half loses what it stores, and so does an actor whose send failed. */
  predicate MayLose(w: World, h: Half) {
    h.Gone? || (h.Actor? && w.failed == 1)
  }

  /** An owner waits for the future under way, or is an actor that failed to send a Connect packet. */
  predicate Secured(w: World, h: Half) {
    w.sink.Future? || (w.sink.Empty? && h.Actor? && h.leaked)
  }

  /** `start_send` never finds the slot taken. */
  predicate SlotOk(h: Half) {
    h.WriteHalf? && h.ready ==> h.writer.chunk.None?
  }

  predicate AgentOk(w: World, owner: Option<nat>, u: nat)
    requires u < |w.agents|
  {
    var a := w.agents[u];
    && (Holding(a.half) <==> owner == Some(u))
    && (if MayLose(w, a.half) then Of(w.entered, u) <= a.given else a.given == Of(w.entered, u) + Stash(a.half))
    && (a.half.ReadHalf? ==> ReaderOk(a.half, w.failed))
    && (a.half.Actor? && a.half.leaked ==> w.failed == 1)
    && SlotOk(a.half)
  }

  /** The read counter stays one above the target, plus one for a chunk that was lost to a transport failure. */
  predicate ReaderOk(h: Half, failed: nat)
    requires h.ReadHalf?
  {
    && h.target + 3 <= U32_MAX
    && (!h.updates ==> h.reader.chunk.None?)
    && h.reader.readCnt <= h.target + failed + (if h.reader.chunk.Some? then 1 else 0)
  }

  predicate Safe(w: World, owner: Option<nat>) {
    && SinkOk(w)
    && (w.locked <==> owner.Some?)
    && (owner.Some? ==> owner.value < |w.agents| && Secured(w, w.agents[owner.value].half))
    && (forall e :: e in w.entered ==> e.0 < |w.agents|)
    && forall u :: 0 <= u < |w.agents| ==> AgentOk(w, owner, u)
  }

  /** Only agent `u` changed, and at most one message, of its own, entered the transport. */
  predicate Local(w: World, w': World, u: nat) {
    && u < |w.agents| && |w'.agents| == |w.agents|
    && (forall v :: 0 <= v < |w.agents| && v != u ==> w'.agents[v] == w.agents[v])
    && Grown(w.entered, w'.entered, u)
    && w.failed <= w'.failed
  }

  predicate Grown(before: seq<Entry>, after: seq<Entry>, u: nat) {
    || after == before
    || (|after| == |before| + 1 && after[..|before|] == before && after[|before|].0 == u)
  }

  function NewOwner(owner: Option<nat>, w': World, u: nat): Option<nat>
    requires u < |w'.agents|
  {
    if Holding(w'.agents[u].half) then Some(u) else if w'.locked then owner else None
  }

  /** What one agent's step has to show. */
  predicate StepOk(w: World, owner: Option<nat>, w': World, u: nat) {
    && Local(w, w', u) && SinkOk(w')
    && AgentOk(w', NewOwner(owner, w', u), u)
    && (Holding(w'.agents[u].half) ==>
          w'.locked && Secured(w', w'.agents[u].half) && (owner == None || owner == Some(u)))
    && (!Holding(w'.agents[u].half) ==> w'.locked == (w.locked && owner != Some(u)))
    && (w'.locked && !Holding(w'.agents[u].half) ==> w'.sink == w.sink)
  }

  lemma StepIsSafe(w: World, owner: Option<nat>, w': World, u: nat)
    requires Safe(w, owner) && StepOk(w, owner, w', u)
    ensures Safe(w', NewOwner(owner, w', u))
  {
    forall v | 0 <= v < |w'.agents| ensures AgentOk(w', NewOwner(owner, w', u), v) {
      assert AgentOk(w, owner, v) && AgentOk(w, owner, u);
    }
    forall e | e in w'.entered ensures e.0 < |w'.agents| {
      if e !in w.entered { assert e == w'.entered[|w.entered|]; }
    }
  }

  lemma SettleOk(w: World, answer: Answer<nat>)
    requires SinkOk(w) && !w.panicked
    ensures var (w', r) := Settle(w, answer);
      && SinkOk(w') && w' == w.(sink := w'.sink, results := w'.results, failed := w'.failed) && w'.failed >= w.failed
      && (r.FlushPending? ==> w' == w && w.sink.Future?)
      && (r.FlushError? ==> w'.failed == w.failed + 1)
      && (!r.FlushError? ==> w'.failed == w.failed)
      && (!r.FlushPending? ==> !w'.sink.Future?)
  {
  }

  /** What the lock and the transport did with an offer. */
  predicate Offered(w: World, w': World, u: nat, holding: bool, m: Message, reply: Reply) {
    && SinkOk(w') && w'.agents == w.agents && w'.locked == w.locked
    && w'.failed == w.failed + (if reply.SinkError? then 1 else 0)
    && (reply.LockPending? <==> !GetsLock(w, holding))
    && (reply.LockPending? || reply.SinkPending? ==> w' == w)
    && (reply.SinkPending? ==> w.sink.Future?)
    && !reply.SendError? && (reply.Accepted? ==> w.failed == 0)
    && w'.entered == (if reply.Accepted? then w.entered + [(u, m)] else w.entered)
  }

  lemma OfferOk(w: World, u: nat, holding: bool, m: Message, answer: Answer<nat>)
    requires SinkOk(w) && !w.panicked
    ensures var (w', reply) := Offer(w, u, holding, m, answer);
      if w'.panicked then w.sink.Empty? else Offered(w, w', u, holding, m, reply)
  {
    if GetsLock(w, holding) { SettleOk(w, answer); }
  }

  lemma PanicOk(w: World, owner: Option<nat>)
    requires Safe(w, owner) && w.sink.Empty?
    ensures Safe(w.(panicked := true), owner)
  {
    forall v | 0 <= v < |w.agents| ensures AgentOk(w.(panicked := true), owner, v) { assert AgentOk(w, owner, v); }
  }

  lemma OfSnoc(entered: seq<Entry>, u: nat, m: Message, v: nat)
    ensures Of(entered + [(u, m)], v) == if u == v then Of(entered, v) + [m] else Of(entered, v)
  {
    assert (entered + [(u, m)])[..|entered|] == entered;
  }

  lemma QuietReadOk(w: World, owner: Option<nat>, u: nat, answer: Answer<nat>)
    requires Safe(w, owner) && !w.panicked && u < |w.agents| && w.agents[u].half.ReadHalf?
    requires var h := w.agents[u].half; h.reader.readCnt < U32_MAX && !ReaderAsks(h.reader, h.updates, h.target)
    ensures StepOk(w, owner, PollRead(w, u, answer), u)
  {
    assert AgentOk(w, owner, u);
    var h := w.agents[u].half;
    var o := PollNext(h.reader, h.updates, h.target, LockPending).reader;
    assert o.holding == h.reader.holding && ReaderOk(h.(reader := o), w.failed);
  }

  /** A poll of a reading half that had the lock. */
  lemma ReaderHadLockOk(w: World, owner: Option<nat>, u: nat, w1: World, half: Half, given: seq<Message>)
    requires Safe(w, owner) && u < |w.agents| && w.agents[u].half.ReadHalf? && half.ReadHalf?
    requires SinkOk(w1) && w1.agents == w.agents && w1.failed >= w.failed
    requires GetsLock(w, Holding(w.agents[u].half))
    requires half.reader.holding ==> w1.sink.Future?
    requires ReaderOk(half, w1.failed)
    requires || (given == [] && w1.entered == w.entered)
             || (|given| == 1 && w1.entered == w.entered + [(u, given[0])])
    ensures StepOk(w, owner, Put(w1, u, half, given, half.reader.holding), u)
  {
    assert AgentOk(w, owner, u);
    var w' := Put(w1, u, half, given, half.reader.holding);
    assert Local(w, w', u);
    assert w'.agents[u].given == Of(w'.entered, u) by {
      if |given| == 1 { OfSnoc(w.entered, u, given[0], u); }
    }
  }

  lemma AfterReadOk(w: World, owner: Option<nat>, u: nat, w1: World, reply: Reply)
    requires Safe(w, owner) && !w.panicked && u < |w.agents| && w.agents[u].half.ReadHalf?
    requires var h := w.agents[u].half;
      && h.reader.readCnt < U32_MAX && ReaderAsks(h.reader, h.updates, h.target)
      && Offered(w, w1, u, h.reader.holding, Update(SatAdd(h.reader.credit, Counted(h.reader))), reply)
    ensures StepOk(w, owner, AfterRead(w1, u, reply), u)
  {
    assert AgentOk(w, owner, u);
    var h := w.agents[u].half;
    var m := Update(SatAdd(h.reader.credit, Counted(h.reader)));
    var o := PollNext(h.reader, h.updates, h.target, reply);
    assert o.sent == if reply.Accepted? then Some(m.credit) else None;
    assert o.reader.holding == if reply.LockPending? then h.reader.holding else reply.SinkPending?;
    assert ReaderOk(h.(reader := o.reader), w1.failed);
    if reply.LockPending? {
      QuietOk(w, owner, u, h.(reader := o.reader, cancelled := false), []);
    } else {
      var h' := h.(reader := o.reader, cancelled := false);
      ReaderHadLockOk(w, owner, u, w1, h', if reply.Accepted? then [m] else []);
    }
  }

  lemma PollReadOk(w: World, owner: Option<nat>, u: nat, answer: Answer<nat>)
    requires Safe(w, owner) && !w.panicked && u < |w.agents| && w.agents[u].half.ReadHalf?
    requires w.agents[u].half.reader.readCnt < U32_MAX
    ensures var w' := PollRead(w, u, answer);
      if w'.panicked then w' == w.(panicked := true) && w.sink.Empty? else StepOk(w, owner, w', u)
  {
    var h := w.agents[u].half;
    var r := h.reader;
    if ReaderAsks(r, h.updates, h.target) {
      var m := Update(SatAdd(r.credit, Counted(r)));
      OfferOk(w, u, r.holding, m, answer);
      var (w1, reply) := Offer(w, u, r.holding, m, answer);
      if !w1.panicked { AfterReadOk(w, owner, u, w1, reply); }
    } else {
      QuietReadOk(w, owner, u, answer);
    }
  }

  lemma AfterReadyOk(w: World, owner: Option<nat>, u: nat, w1: World, reply: Reply)
    requires Safe(w, owner) && !w.panicked && u < |w.agents| && w.agents[u].half.WriteHalf?
    requires var h := w.agents[u].half;
      && WriterAsks(h.writer, h.tracks)
      && Offered(w, w1, u, h.writer.holding, Data(h.writer.chunk.value), reply)
    ensures StepOk(w, owner, AfterReady(w1, u, reply), u)
  {
    var h := w.agents[u].half;
    var o := PollReady(h.writer, h.tracks, reply);
    assert o.writer.chunk == if reply.Accepted? then None else h.writer.chunk;
    assert o.writer.holding == if reply.LockPending? then h.writer.holding else reply.SinkPending?;
    assert o.result.WriteReady? == reply.Accepted?;
    var h' := h.(writer := o.writer, last := Ready, ready := o.result.WriteReady?);
    if reply.LockPending? {
      QuietOk(w, owner, u, h', []);
    } else {
      HadLockOk(w, owner, u, w1, h');
    }
  }

  lemma PollReadyOk(w: World, owner: Option<nat>, u: nat, answer: Answer<nat>)
    requires Safe(w, owner) && !w.panicked && u < |w.agents| && w.agents[u].half.WriteHalf?
    ensures var w' := PollWriteReady(w, u, answer);
      if w'.panicked then w' == w.(panicked := true) && w.sink.Empty? else StepOk(w, owner, w', u)
  {
    var h := w.agents[u].half;
    if WriterAsks(h.writer, h.tracks) {
      var m := Data(h.writer.chunk.value);
      OfferOk(w, u, h.writer.holding, m, answer);
      var (w1, reply) := Offer(w, u, h.writer.holding, m, answer);
      if !w1.panicked { AfterReadyOk(w, owner, u, w1, reply); }
    } else {
      var o := PollReady(h.writer, h.tracks, LockPending);
      assert o.writer.holding == h.writer.holding && o.writer.chunk == h.writer.chunk;
      QuietOk(w, owner, u, h.(writer := o.writer, last := Ready, ready := o.result.WriteReady?), []);
    }
  }

  /** A poll of a writing half that had the lock. */
  lemma HadLockOk(w: World, owner: Option<nat>, u: nat, w2: World, half: Half)
    requires Safe(w, owner) && u < |w.agents| && w.agents[u].half.WriteHalf? && half.WriteHalf?
    requires SinkOk(w2) && w2.agents == w.agents && w2.failed >= w.failed
    requires GetsLock(w, Holding(w.agents[u].half))
    requires (half.writer.holding ==> w2.sink.Future?) && SlotOk(half)
    requires var chunk := w.agents[u].half.writer.chunk;
      || (half.writer.chunk == chunk && w2.entered == w.entered)
      || (chunk.Some? && half.writer.chunk.None? && w2.entered == w.entered + [(u, Data(chunk.value))])
    ensures StepOk(w, owner, Put(w2, u, half, [], half.writer.holding), u)
  {
    assert AgentOk(w, owner, u);
    var chunk := w.agents[u].half.writer.chunk;
    var w' := Put(w2, u, half, [], half.writer.holding);
    assert Local(w, w', u);
    assert w'.agents[u].given == w.agents[u].given;
    assert w'.agents[u].given == Of(w'.entered, u) + Stash(half) by {
      if w2.entered != w.entered { OfSnoc(w.entered, u, Data(chunk.value), u); }
    }
  }

  /** The second half of `poll_flush`: `w2` is the world after the flush, or after an offer that did not get through. */
  lemma AfterFlushOk(w: World, owner: Option<nat>, u: nat, w2: World, reply: Reply, flush: FlushReply)
    requires Safe(w, owner) && u < |w.agents| && w.agents[u].half.WriteHalf?
    requires SinkOk(w2) && w2.agents == w.agents && w2.locked == w.locked && w2.failed >= w.failed
    requires !reply.LockPending? && !reply.SendError? && GetsLock(w, w.agents[u].half.writer.holding)
    requires var chunk := w.agents[u].half.writer.chunk;
      && (chunk.None? ==> reply.Accepted? && w2.entered == w.entered)
      && (chunk.Some? ==>
            w2.entered == if reply.Accepted? then w.entered + [(u, Data(chunk.value))] else w.entered)
    requires (reply.Accepted? && flush.FlushPending?) || reply.SinkPending? ==> w2.sink.Future?
    ensures StepOk(w, owner, AfterFlush(w2, u, reply, flush), u)
  {
    var h := w.agents[u].half;
    assert AgentOk(w, owner, u);
    var o := PollFlush(h.writer, h.tracks, reply, flush).writer;
    assert o.chunk == if reply.Accepted? then None else h.writer.chunk;
    assert o.holding == (reply.SinkPending? || (reply.Accepted? && flush.FlushPending?));
    HadLockOk(w, owner, u, w2, h.(writer := o, last := Flush));
  }

  /** `w1` is the world after the offer, if there was something to offer. */
  lemma FlushRestOk(w: World, owner: Option<nat>, u: nat, w1: World, reply: Reply, second: Answer<nat>)
    requires Safe(w, owner) && !w1.panicked && u < |w.agents| && w.agents[u].half.WriteHalf?
    requires var wr := w.agents[u].half.writer;
      && GetsLock(w, wr.holding)
      && (wr.chunk.Some? ==> Offered(w, w1, u, wr.holding, Data(wr.chunk.value), reply))
      && (wr.chunk.None? ==> w1 == w && reply.Accepted?)
    ensures StepOk(w, owner, FlushRest(w1, u, reply, second), u)
  {
    if reply.Accepted? { SettleOk(w1, second); }
    var (w2, flush) := if reply.Accepted? then Settle(w1, second) else (w1, Flushed);
    AfterFlushOk(w, owner, u, w2, reply, flush);
  }

  lemma PollFlushOk(w: World, owner: Option<nat>, u: nat, first: Answer<nat>, second: Answer<nat>)
    requires Safe(w, owner) && !w.panicked && u < |w.agents| && w.agents[u].half.WriteHalf?
    ensures var w' := PollWriteFlush(w, u, first, second);
      if w'.panicked then w' == w.(panicked := true) && w.sink.Empty? else StepOk(w, owner, w', u)
  {
    var h := w.agents[u].half;
    var wr := h.writer;
    if !GetsLock(w, wr.holding) {
      assert AgentOk(w, owner, u);
      QuietOk(w, owner, u, h.(last := Flush), []);
    } else if wr.chunk.None? {
      FlushRestOk(w, owner, u, w, Accepted, second);
    } else {
      OfferOk(w, u, wr.holding, Data(wr.chunk.value), first);
      var (w1, reply) := Offer(w, u, wr.holding, Data(wr.chunk.value), first);
      if !w1.panicked { FlushRestOk(w, owner, u, w1, reply, second); }
    }
  }

  /** What the actor's slot and lock look like after a poll that had the lock. */
  lemma ActorHadLockOk(w: World, owner: Option<nat>, u: nat, w2: World, half: Half)
    requires Safe(w, owner) && u < |w.agents| && w.agents[u].half.Actor? && half.Actor?
    requires SinkOk(w2) && w2.agents == w.agents && w2.failed >= w.failed
    requires GetsLock(w, Holding(w.agents[u].half))
    requires (half.slot.holding ==> Secured(w2, half)) && (half.leaked ==> w2.failed == 1)
    requires var chunk := w.agents[u].half.slot.chunk;
      || (w2.entered == w.entered && (half.slot.chunk == chunk || (half.slot.chunk.None? && w2.failed == 1)))
      || (w.failed == 0 && chunk.Some? && half.slot.chunk.None? && w2.entered == w.entered + [(u, Data(chunk.value))])
    ensures StepOk(w, owner, Put(w2, u, half, [], half.slot.holding), u)
  {
    assert AgentOk(w, owner, u);
    var chunk := w.agents[u].half.slot.chunk;
    var w' := Put(w2, u, half, [], half.slot.holding);
    assert Local(w, w', u);
    assert w'.agents[u].given == w.agents[u].given;
    if w2.entered != w.entered { OfSnoc(w.entered, u, Data(chunk.value), u); }
  }

  lemma ActorRestOk(w: World, owner: Option<nat>, u: nat, w1: World, reply: Reply, second: Answer<nat>)
    requires Safe(w, owner) && !w1.panicked && u < |w.agents| && w.agents[u].half.Actor?
    requires var slot := w.agents[u].half.slot;
      && GetsLock(w, slot.holding)
      && (slot.chunk.Some? ==> Offered(w, w1, u, slot.holding, Data(slot.chunk.value), reply))
      && (slot.chunk.None? ==> w1 == w && reply.Accepted?)
    ensures StepOk(w, owner, ActorRest(w1, u, reply, second), u)
  {
    if reply.Accepted? { SettleOk(w1, second); }
    var (w2, flush) := if reply.Accepted? then Settle(w1, second) else (w1, Flushed);
    var h := w.agents[u].half;
    var o := PollFlush(h.slot, false, reply, flush);
    assert AgentOk(w, owner, u);
    assert o.result.WriteFailed? ==> w2.failed == w.failed + 1 && w2.sink.Empty?;
    assert o.writer.chunk == if reply.Accepted? then None else h.slot.chunk;
    assert o.writer.holding ==> w2.sink.Future?;
    ActorHadLockOk(w, owner, u, w2, ActorAfter(h, o));
  }

  lemma PollActorOk(w: World, owner: Option<nat>, u: nat, first: Answer<nat>, second: Answer<nat>)
    requires Safe(w, owner) && !w.panicked && u < |w.agents| && w.agents[u].half.Actor?
    ensures var w' := PollActor(w, u, first, second);
      if w'.panicked then w' == w.(panicked := true) && w.sink.Empty? else StepOk(w, owner, w', u)
  {
    var slot := w.agents[u].half.slot;
    if !GetsLock(w, slot.holding) {
      StayOk(w, owner, u);
    } else if slot.chunk.None? {
      ActorRestOk(w, owner, u, w, Accepted, second);
    } else {
      OfferOk(w, u, slot.holding, Data(slot.chunk.value), first);
      var (w1, reply) := Offer(w, u, slot.holding, Data(slot.chunk.value), first);
      if !w1.panicked { ActorRestOk(w, owner, u, w1, reply, second); }
    }
  }

  lemma StayOk(w: World, owner: Option<nat>, u: nat)
    requires Safe(w, owner) && !w.panicked && u < |w.agents| && w.agents[u].half.Actor?
    ensures StepOk(w, owner, w, u)
  {
    assert AgentOk(w, owner, u);
  }

  lemma SafeActor(w: World, owner: Option<nat>, step: Step)
    requires Safe(w, owner) && !w.panicked && !Joins(step) && step.u < |w.agents|
    requires w.agents[step.u].half.Actor? && NextActor(w, w.agents[step.u].half, step).Some?
    ensures var w' := NextActor(w, w.agents[step.u].half, step).value;
      if w'.panicked then w' == w.(panicked := true) && w.sink.Empty? else StepOk(w, owner, w', step.u)
  {
    var h := w.agents[step.u].half;
    if step.ActorPoll? {
      PollActorOk(w, owner, step.u, step.first, step.second);
    } else {
      var busy := Actor(StartSend(h.slot, step.packet), true, step.creating, h.leaked);
      QuietOk(w, owner, step.u, busy, [Data(step.packet)]);
    }
  }

  lemma DropOk(w: World, owner: Option<nat>, u: nat)
    requires Safe(w, owner) && !w.panicked && u < |w.agents| && !w.agents[u].half.Gone?
    ensures StepOk(w, owner, Put(w, u, Gone, [], if Holding(w.agents[u].half) then false else w.locked), u)
  {
    assert AgentOk(w, owner, u);
  }

  /** A step of the actor or the caller that does not touch the transport. */
  lemma QuietOk(w: World, owner: Option<nat>, u: nat, half: Half, given: seq<Message>)
    requires Safe(w, owner) && !w.panicked && u < |w.agents| && !half.Gone? && !w.agents[u].half.Gone?
    requires Holding(half) == Holding(w.agents[u].half) && (half.Actor? <==> w.agents[u].half.Actor?)
    requires half.Actor? ==> half.leaked == w.agents[u].half.leaked
    requires Stash(half) == Stash(w.agents[u].half) + given
    requires (half.ReadHalf? ==> ReaderOk(half, w.failed)) && SlotOk(half)
    ensures StepOk(w, owner, Put(w, u, half, given, w.locked), u)
  {
    assert AgentOk(w, owner, u);
  }

  lemma SafeRead(w: World, owner: Option<nat>, step: Step)
    requires Safe(w, owner) && !w.panicked && !Joins(step) && step.u < |w.agents|
    requires w.agents[step.u].half.ReadHalf? && NextRead(w, w.agents[step.u].half, step).Some?
    ensures var w' := NextRead(w, w.agents[step.u].half, step).value;
      if w'.panicked then w' == w.(panicked := true) && w.sink.Empty? else StepOk(w, owner, w', step.u)
  {
    var h := w.agents[step.u].half;
    assert AgentOk(w, owner, step.u);
    if step.PollNextOf? {
      PollReadOk(w, owner, step.u, step.answer);
    } else if step.Arrive? {
      QuietOk(w, owner, step.u, h.(reader := Deliver(h.reader, h.capacity, step.data).0), []);
    } else if step.Cancel? {
      QuietOk(w, owner, step.u, h.(cancelled := true), []);
    } else {
      QuietOk(w, owner, step.u, h.(reader := h.reader.(connected := false)), []);
    }
  }

  lemma SafeWrite(w: World, owner: Option<nat>, step: Step)
    requires Safe(w, owner) && !w.panicked && !Joins(step) && step.u < |w.agents|
    requires w.agents[step.u].half.WriteHalf? && NextWrite(w, w.agents[step.u].half, step).Some?
    ensures var w' := NextWrite(w, w.agents[step.u].half, step).value;
      if w'.panicked then w' == w.(panicked := true) && w.sink.Empty? else StepOk(w, owner, w', step.u)
  {
    var h := w.agents[step.u].half;
    assert AgentOk(w, owner, step.u);
    if step.PollReadyOf? {
      PollReadyOk(w, owner, step.u, step.answer);
    } else if step.PollFlushOf? {
      PollFlushOk(w, owner, step.u, step.first, step.second);
    } else if step.SendOf? {
      QuietOk(w, owner, step.u, h.(writer := StartSend(h.writer, step.item), ready := false), [Data(step.item)]);
    } else if step.Continue? {
      QuietOk(w, owner, step.u, h.(writer := Adopt(h.writer, h.tracks, step.credit)), []);
    } else if step.Cancel? {
      QuietOk(w, owner, step.u, h.(last := Cancelled), []);
    } else {
      QuietOk(w, owner, step.u, h.(writer := h.writer.(connected := false)), []);
    }
  }

  lemma JoinOk(w: World, owner: Option<nat>, half: Half)
    requires Safe(w, owner) && !half.Gone? && !Holding(half) && Stash(half) == []
    requires (half.ReadHalf? ==> ReaderOk(half, w.failed)) && (half.Actor? ==> !half.leaked) && SlotOk(half)
    ensures Safe(w.(agents := w.agents + [Agent(half, [])]), owner)
  {
    var w' := w.(agents := w.agents + [Agent(half, [])]);
    forall v | 0 <= v < |w'.agents| ensures AgentOk(w', owner, v) {
      if v < |w.agents| { assert AgentOk(w, owner, v); } else { OfNobody(w.entered, v); }
    }
  }

  lemma {:induction false} OfNobody(entered: seq<Entry>, v: nat)
    requires forall e :: e in entered ==> e.0 < v
    ensures Of(entered, v) == []
    decreases |entered|
  {
    if entered != [] {
      assert entered[|entered| - 1] in entered;
      OfNobody(entered[..|entered| - 1], v);
    }
  }
}
