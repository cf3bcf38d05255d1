/** One flow-controlled stream from a client writer to a server reader, over FIFO transports.

    A step is one poll of a half or one packet handled by an actor.  Polls get arbitrary Pending
    answers; transport errors and disconnects are outside this system.  */
module FlowSystem {
  import opened Common
  import opened FlowSpec

  /** `flushEach`: the writer is used as `SinkExt::send` uses it, every item is flushed before `poll_ready`
      is called again.  Otherwise any call order the `Sink` contract allows.  */
  datatype Config = Config(bufferSize: u32, flushEach: bool)

  datatype Flow = Flow(
    writer: Writer,
    ready: bool,              // `poll_ready` has returned Ready and `start_send` was not called since
    data: seq<Bytes>,         // Data packets in flight
    reader: Reader,
    updates: seq<u32>,        // Continue packets in flight
    granted: u32,             // the last credit the client was given
    spent: nat,               // packets it has written since then
    written: seq<Bytes>,      // everything passed to `start_send`
    accepted: seq<Bytes>,     // everything put on the server's queue
    dropped: nat,             // packets the full queue refused
    returned: seq<Bytes>,     // everything `poll_next` returned
    replenished: nat)         // Continue packets sent so far

  function Init(c: Config): Flow {
    Flow(Writer(true, None, c.bufferSize, false, false), false, [],
         Reader(true, [], None, 0, c.bufferSize, false), [], c.bufferSize, 0, [], [], 0, [], 0)
  }

  datatype Step =
    | PollReady(reply: Reply)
    | StartSend(item: Bytes)
    | PollFlush(reply: Reply, flush: FlushReply)
    | Arrive                 // the server actor handles a Data packet
    | Read(reply: Reply)     // the server polls the reading half
    | Update                 // the client actor handles a Continue packet

  function AfterWrite(s: Flow, o: WriteOutcome, ready: bool): Flow {
    s.(writer := o.writer, ready := ready,
       data := if o.sent.Some? then s.data + [o.sent.value] else s.data,
       spent := if o.sent.Some? then s.spent + 1 else s.spent)
  }

  function AfterRead(s: Flow, o: ReadOutcome): Flow {
    s.(reader := o.reader,
       updates := if o.sent.Some? then s.updates + [o.sent.value] else s.updates,
       replenished := if o.sent.Some? then s.replenished + 1 else s.replenished,
       returned := if o.result.Chunk? then s.returned + [o.result.data] else s.returned)
  }

  function Next(c: Config, s: Flow, step: Step): Option<Flow> {
    match step
    case PollReady(reply) =>
      if ErrorFree(reply) && (c.flushEach ==> s.writer.chunk.None?) then
        var o := FlowSpec.PollReady(s.writer, true, reply);
        Some(AfterWrite(s, o, o.result.WriteReady?))
      else None
    case StartSend(item) =>
      if s.ready then
        Some(s.(writer := FlowSpec.StartSend(s.writer, item), ready := false, written := s.written + [item]))
      else None
    case PollFlush(reply, flush) =>
      if ErrorFree(reply) && !flush.FlushError? then
        Some(AfterWrite(s, FlowSpec.PollFlush(s.writer, true, reply, flush), s.ready))
      else None
    case Arrive =>
      if s.data == [] then None
      else
        var (reader, ok) := Deliver(s.reader, Option.Some(c.bufferSize), s.data[0]);
        var s' := s.(data := s.data[1..], reader := reader);
        if ok then Some(s'.(accepted := s.accepted + [s.data[0]])) else Some(s'.(dropped := s.dropped + 1))
    case Read(reply) =>
      if ErrorFree(reply) && s.reader.readCnt < U32_MAX then
        Some(AfterRead(s, PollNext(s.reader, true, Target(c.bufferSize), reply)))
      else None
    case Update =>
      if s.updates == [] then None
      else Some(s.(writer := Adopt(s.writer, true, s.updates[0]), updates := s.updates[1..],
                   granted := s.updates[0], spent := 0))
  }

  function Exec(c: Config, s: Flow, steps: seq<Step>): Option<Flow>
    decreases |steps|
  {
    if steps == [] then Some(s)
    else
      var n := Next(c, s, steps[0]);
      if n.None? then None else Exec(c, n.value, steps[1..])
  }

  ghost predicate Reachable(c: Config, s: Flow) {
    exists steps :: Exec(c, Init(c), steps) == Option.Some(s)
  }

  // ---------- What every step keeps, for every buffer size and every call order ----------

  function Opt(o: Option<Bytes>): seq<Bytes> {
    if o.Some? then [o.value] else []
  }

  function T(c: Config): u32 {
    Target(c.bufferSize)
  }

  /** A chunk is only held back while an update is due. */
  predicate Shape(s: Flow, capacity: u32, target: u32) {
    && s.reader.connected && s.writer.connected
    && |s.reader.queue| <= capacity
    && s.reader.readCnt <= target + 1
    && (s.reader.chunk.Some? <==> s.reader.readCnt == target + 1)
  }

  /** Nothing is read twice or out of order. */
  predicate OrderInv(s: Flow, capacity: u32, target: u32) {
    && Shape(s, capacity, target)
    && s.returned + Opt(s.reader.chunk) + s.reader.queue == s.accepted
  }

  /** Chunks covered by `n` updates. */
  function Covered(n: nat, target: u32): nat {
    n * (target + 1)
  }

  /** An update is sent for every `target + 1` chunks. */
  predicate CountInv(s: Flow, target: u32) {
    |s.returned| + |Opt(s.reader.chunk)| == Covered(s.replenished, target) + s.reader.readCnt
  }

  predicate ReaderInv(c: Config, s: Flow) {
    OrderInv(s, c.bufferSize, T(c)) && CountInv(s, T(c))
  }

  lemma ReadKeepsOrder(s: Flow, capacity: u32, target: u32, reply: Reply)
    requires OrderInv(s, capacity, target) && ErrorFree(reply) && target + 2 <= U32_MAX
    ensures OrderInv(AfterRead(s, PollNext(s.reader, true, target, reply)), capacity, target)
  {
    var r, s' := s.reader, AfterRead(s, PollNext(s.reader, true, target, reply));
    if r.chunk.Some? {
      assert s'.reader.queue == r.queue;
      assert s'.returned + Opt(s'.reader.chunk) == s.returned + Opt(r.chunk);
    } else if r.queue == [] {
      assert s' == s;
    } else {
      assert s'.reader.queue == r.queue[1..];
      assert s'.returned + Opt(s'.reader.chunk) == s.returned + [r.queue[0]];
      assert s.returned + Opt(r.chunk) == s.returned;
      assert s.returned + [r.queue[0]] + r.queue[1..] == s.returned + r.queue;
    }
  }

  lemma ReadKeepsCount(s: Flow, capacity: u32, target: u32, reply: Reply)
    requires OrderInv(s, capacity, target) && CountInv(s, target) && ErrorFree(reply) && target + 2 <= U32_MAX
    ensures CountInv(AfterRead(s, PollNext(s.reader, true, target, reply)), target)
  {
    assert Covered(s.replenished + 1, target) == Covered(s.replenished, target) + target + 1;
  }

  lemma ReaderInvNext(c: Config, s: Flow, step: Step)
    requires ReaderInv(c, s) && Next(c, s, step).Some?
    ensures ReaderInv(c, Next(c, s, step).value)
  {
    if step.Read? {
      ReadKeepsOrder(s, c.bufferSize, T(c), step.reply);
      ReadKeepsCount(s, c.bufferSize, T(c), step.reply);
    } else if step.Arrive? {
      var x := s.data[0];
      var read := s.returned + Opt(s.reader.chunk);
      assert read + (s.reader.queue + [x]) == read + s.reader.queue + [x];
    }
  }

  /** Nothing is lost or reordered between the writer and the queue, unless the queue refuses it. */
  predicate WriterOrder(s: Flow) {
    s.dropped == 0 ==> s.accepted + s.data + Opt(s.writer.chunk) == s.written
  }

  predicate WriterInv(c: Config, s: Flow) {
    && !(s.ready && s.writer.chunk.Some?)
    && (s.writer.parked ==> s.writer.credit == 0)
    && (s.writer.credit > 0 ==> s.writer.credit + s.spent == s.granted)
    && (s.writer.credit == 0 ==>
          s.spent + (if s.ready || s.writer.chunk.Some? then 1 else 0) <= s.granted + 1)
    && WriterOrder(s)
  }

  lemma WriterOrderNext(c: Config, s: Flow, step: Step)
    requires WriterOrder(s) && !(s.ready && s.writer.chunk.Some?) && Next(c, s, step).Some?
    ensures WriterOrder(Next(c, s, step).value)
  {
    if step.Arrive? { assert s.accepted + s.data == s.accepted + [s.data[0]] + s.data[1..]; }
  }

  lemma WriterInvNext(c: Config, s: Flow, step: Step)
    requires WriterInv(c, s) && Next(c, s, step).Some?
    ensures WriterInv(c, Next(c, s, step).value)
  {
    WriterOrderNext(c, s, step);
  }

  /** The numbers a read changes: `popped` chunks leave the queue, and an update may be sent. */
  predicate ReadEffect(s: Flow, s': Flow, target: u32) {
    var popped := |s.reader.queue| - |s'.reader.queue|;
    && 0 <= popped <= 1
    && s'.writer == s.writer && s'.ready == s.ready && s'.data == s.data && s'.dropped == s.dropped
    && if s'.updates == s.updates
       then s'.reader.credit == s.reader.credit && s'.reader.readCnt == s.reader.readCnt + popped
       else && target < U32_MAX && s.reader.readCnt + popped == target + 1 && s'.reader.readCnt == 0
            && s'.reader.credit == SatAdd(s.reader.credit, target + 1)
            && s'.updates == s.updates + [s'.reader.credit]
  }

  lemma ReadHasEffect(s: Flow, capacity: u32, target: u32, reply: Reply)
    requires Shape(s, capacity, target) && ErrorFree(reply) && target + 2 <= U32_MAX
    ensures ReadEffect(s, AfterRead(s, PollNext(s.reader, true, target, reply)), target)
    ensures Shape(AfterRead(s, PollNext(s.reader, true, target, reply)), capacity, target)
  {
  }

  /** The numbers a call of the writer changes. */
  predicate WriteEffect(s: Flow, s': Flow) {
    && s'.reader == s.reader && s'.updates == s.updates && s'.dropped == s.dropped
    && if |s'.data| == |s.data| then s'.writer.credit == s.writer.credit
       else |s'.data| == |s.data| + 1 && s'.writer.credit == SatSub(s.writer.credit, 1) && s.writer.chunk.Some?
  }

  predicate ByWriter(step: Step) {
    step.PollReady? || step.StartSend? || step.PollFlush?
  }

  lemma WriteHasEffect(c: Config, s: Flow, step: Step)
    requires ByWriter(step) && Next(c, s, step).Some?
    ensures WriteEffect(s, Next(c, s, step).value)
    ensures c.flushEach && s.writer.connected && Backed(s) && !(s.ready && s.writer.chunk.Some?) ==>
      Backed(Next(c, s, step).value)
  {
  }

  predicate ArriveEffect(s: Flow, s': Flow, capacity: u32) {
    && s'.writer == s.writer && s'.ready == s.ready && s'.updates == s.updates
    && |s'.data| + 1 == |s.data| && s'.reader.readCnt == s.reader.readCnt
    && if s'.dropped == s.dropped
       then |s'.reader.queue| == |s.reader.queue| + 1 <= capacity && s'.reader.credit == SatSub(s.reader.credit, 1)
       else |s.reader.queue| >= capacity && s'.reader == s.reader
  }

  lemma ArriveHasEffect(c: Config, s: Flow)
    requires s.reader.connected && Next(c, s, Arrive).Some?
    ensures ArriveEffect(s, Next(c, s, Arrive).value, c.bufferSize)
  {
  }

  /** The effect of any step on the numbers. */
  predicate Effect(c: Config, s: Flow, step: Step, s': Flow) {
    if step.Read? then ReadEffect(s, s', T(c))
    else if step.Arrive? then ArriveEffect(s, s', c.bufferSize)
    else if step.Update? then
      s.updates != [] && s' == s.(writer := Adopt(s.writer, true, s.updates[0]), updates := s.updates[1..],
                                  granted := s.updates[0], spent := 0)
    else WriteEffect(s, s')
  }

  lemma HasEffect(c: Config, s: Flow, step: Step)
    requires Shape(s, c.bufferSize, T(c)) && Next(c, s, step).Some?
    ensures Effect(c, s, step, Next(c, s, step).value)
  {
    if step.Read? {
      ReadHasEffect(s, c.bufferSize, T(c), step.reply);
    } else if step.Arrive? {
      ArriveHasEffect(c, s);
    } else if ByWriter(step) {
      WriteHasEffect(c, s, step);
    }
  }

  /** The server's books: free credit, queued and counted chunks. */
  function Ledger(s: Flow): nat {
    s.reader.credit + |s.reader.queue| + s.reader.readCnt
  }

  predicate LedgerInv(c: Config, s: Flow) {
    && c.bufferSize <= Ledger(s) <= c.bufferSize + T(c) + 1
    && (forall i :: 0 <= i < |s.updates| ==> T(c) + 1 <= s.updates[i] <= c.bufferSize + T(c) + 1)
  }

  lemma LedgerKept(c: Config, s: Flow, step: Step, s': Flow)
    requires Shape(s, c.bufferSize, T(c)) && LedgerInv(c, s) && Effect(c, s, step, s')
    ensures LedgerInv(c, s')
  {
  }

  lemma LedgerInvNext(c: Config, s: Flow, step: Step)
    requires Shape(s, c.bufferSize, T(c)) && LedgerInv(c, s) && Next(c, s, step).Some?
    ensures LedgerInv(c, Next(c, s, step).value)
  {
    HasEffect(c, s, step);
    LedgerKept(c, s, step, Next(c, s, step).value);
  }

  /** The credit the client has, or will have after the last update in flight. */
  function Prospect(s: Flow): u32 {
    if s.updates == [] then s.writer.credit else s.updates[|s.updates| - 1]
  }

  predicate ProgressInv(c: Config, s: Flow) {
    Prospect(s) + |s.data| + |s.reader.queue| + s.reader.readCnt >= c.bufferSize
  }

  lemma ProgressKept(c: Config, s: Flow, step: Step, s': Flow)
    requires Shape(s, c.bufferSize, T(c)) && LedgerInv(c, s) && ProgressInv(c, s) && Effect(c, s, step, s')
    ensures ProgressInv(c, s')
  {
  }

  lemma ProgressInvNext(c: Config, s: Flow, step: Step)
    requires Shape(s, c.bufferSize, T(c)) && LedgerInv(c, s) && ProgressInv(c, s) && Next(c, s, step).Some?
    ensures ProgressInv(c, Next(c, s, step).value)
  {
    HasEffect(c, s, step);
    ProgressKept(c, s, step, Next(c, s, step).value);
  }

  predicate Base(c: Config, s: Flow) {
    ReaderInv(c, s) && WriterInv(c, s) && LedgerInv(c, s) && ProgressInv(c, s)
  }

  lemma BaseNext(c: Config, s: Flow, step: Step)
    requires Base(c, s) && Next(c, s, step).Some?
    ensures Base(c, Next(c, s, step).value)
  {
    ReaderInvNext(c, s, step);
    WriterInvNext(c, s, step);
    LedgerInvNext(c, s, step);
    ProgressInvNext(c, s, step);
  }

  // ---------- The window ----------

  /** Server and client agree: what the server still expects is what the client may send or has sent. */
  predicate Synced(c: Config, s: Flow) {
    && s.updates == []
    && s.reader.credit == s.writer.credit + |s.data|
    && Ledger(s) == c.bufferSize
  }

  /** One update is on its way; until the client takes it over it is `target + 1` short. */
  predicate Updating(c: Config, s: Flow) {
    && |s.updates| == 1
    && s.reader.credit == s.writer.credit + |s.data| + T(c) + 1
    && s.reader.credit <= s.updates[0] <= c.bufferSize
    && Ledger(s) == c.bufferSize
  }

  /** A chunk the writer has promised to take, or has taken, is covered by credit. */
  predicate Backed(s: Flow) {
    s.ready || s.writer.chunk.Some? ==> s.writer.credit > 0
  }

  predicate Window(c: Config, s: Flow) {
    (Synced(c, s) || Updating(c, s)) && Backed(s)
  }

  lemma WindowKept(c: Config, s: Flow, step: Step, s': Flow)
    requires Shape(s, c.bufferSize, T(c)) && (Synced(c, s) || Updating(c, s)) && Backed(s)
    requires Effect(c, s, step, s') && !step.Update?
    ensures Synced(c, s') || Updating(c, s')
    ensures s'.dropped == s.dropped
  {
  }

  lemma WindowNext(c: Config, s: Flow, step: Step)
    requires c.flushEach && Base(c, s) && Window(c, s) && !step.Update? && Next(c, s, step).Some?
    ensures Window(c, Next(c, s, step).value)
    ensures Next(c, s, step).value.dropped == s.dropped
  {
    HasEffect(c, s, step);
    WindowKept(c, s, step, Next(c, s, step).value);
    if ByWriter(step) { WriteHasEffect(c, s, step); }
  }

  /** Data in flight when the client takes over a credit is forgotten: this is by how much. */
  function Excess(s: Flow): int {
    s.writer.credit + |s.data| - s.reader.credit
  }

  lemma UpdateExcess(c: Config, s: Flow)
    requires Window(c, s) && Next(c, s, Update).Some?
    ensures 0 <= Excess(Next(c, s, Update).value) <= c.bufferSize - T(c) - 1
    ensures Backed(Next(c, s, Update).value)
    ensures Excess(Next(c, s, Update).value) == 0 ==> Synced(c, Next(c, s, Update).value)
  {
  }

  // ---------- Whole runs ----------

  lemma {:induction false} ExecBase(c: Config, s: Flow, steps: seq<Step>)
    requires Base(c, s) && Exec(c, s, steps).Some?
    ensures Base(c, Exec(c, s, steps).value)
    decreases |steps|
  {
    if steps != [] {
      BaseNext(c, s, steps[0]);
      ExecBase(c, Next(c, s, steps[0]).value, steps[1..]);
    }
  }

  lemma ReachableBase(c: Config, s: Flow)
    requires Reachable(c, s)
    ensures Base(c, s)
  {
    var steps :| Exec(c, Init(c), steps) == Option.Some(s);
    ExecBase(c, Init(c), steps);
  }

  /** For every buffer size, call order and pattern of Pending answers: each chunk the server accepted is
      returned once and in order; after `k` returned chunks with none held back exactly
      `k / (target + 1)` updates were sent; and `read_cnt` never overflows.  */
  lemma ReaderExactlyOnce(c: Config, s: Flow)
    requires Reachable(c, s)
    ensures s.returned + Opt(s.reader.chunk) + s.reader.queue == s.accepted
    ensures s.reader.chunk.None? ==> s.replenished == |s.returned| / (T(c) + 1)
    ensures s.reader.readCnt < U32_MAX && |s.reader.queue| <= c.bufferSize
  {
    ReachableBase(c, s);
    if s.reader.chunk.None? {
      DivideExactly(|s.returned|, s.replenished, T(c) + 1, s.reader.readCnt);
    }
  }

  lemma TimesMonotone(x: nat, y: nat, d: nat)
    requires x <= y
    ensures x * d <= y * d
  {
    assert y * d == x * d + (y - x) * d;
  }

  lemma DivideExactly(k: nat, q: nat, d: nat, r: nat)
    requires d > 0 && k == q * d + r && r < d
    ensures k / d == q
  {
    var a := k / d;
    assert k == a * d + k % d;
    assert (a + 1) * d == a * d + d && (q + 1) * d == q * d + d;
    if a < q {
      TimesMonotone(a + 1, q, d);
    } else if a > q {
      TimesMonotone(q + 1, a, d);
    }
  }

  /** Whatever the clients do, every credit the server advertises lies between what its queue has room for
      and one refill more.  */
  lemma AdvertisedCredit(c: Config, s: Flow, reply: Reply)
    requires Reachable(c, s) && Next(c, s, Read(reply)).Some?
    requires Next(c, s, Read(reply)).value.updates != s.updates
    ensures var s' := Next(c, s, Read(reply)).value;
      && s'.updates == s.updates + [s'.reader.credit]
      && c.bufferSize - |s'.reader.queue| <= s'.reader.credit <= c.bufferSize - |s'.reader.queue| + T(c) + 1
  {
    ReachableBase(c, s);
    HasEffect(c, s, Read(reply));
    BaseNext(c, s, Read(reply));
  }

  /** Data packets are handled only while the server still has credit on its books. */
  predicate CreditRespected(c: Config, s: Flow, steps: seq<Step>)
    decreases |steps|
  {
    steps == [] ||
    (&& (steps[0].Arrive? ==> s.reader.credit > 0)
     && (Next(c, s, steps[0]).Some? ==> CreditRespected(c, Next(c, s, steps[0]).value, steps[1..])))
  }

  /** Credit, queue and read count add up to the buffer size, and no update promises more. */
  predicate Balanced(c: Config, s: Flow) {
    Ledger(s) == c.bufferSize && forall i :: 0 <= i < |s.updates| ==> s.updates[i] <= c.bufferSize
  }

  lemma BalancedNext(c: Config, s: Flow, step: Step)
    requires Shape(s, c.bufferSize, T(c)) && Balanced(c, s) && (step.Arrive? ==> s.reader.credit > 0)
    requires Next(c, s, step).Some?
    ensures Balanced(c, Next(c, s, step).value) && Next(c, s, step).value.dropped == s.dropped
  {
    HasEffect(c, s, step);
  }

  /** If data arrives only while credit is positive, the books stay balanced and nothing is dropped. */
  lemma {:induction false} ServerLedger(c: Config, s: Flow, steps: seq<Step>, s': Flow)
    requires Base(c, s) && Balanced(c, s)
    requires CreditRespected(c, s, steps) && Exec(c, s, steps) == Option.Some(s')
    ensures Balanced(c, s') && s'.dropped == s.dropped
    decreases |steps|
  {
    if steps != [] {
      BaseNext(c, s, steps[0]);
      BalancedNext(c, s, steps[0]);
      ServerLedger(c, Next(c, s, steps[0]).value, steps[1..], s');
    }
  }

  /** With balanced books an advertised credit is exactly the room left on the queue. */
  lemma AdvertisedExactly(c: Config, s: Flow, reply: Reply)
    requires Base(c, s) && Ledger(s) == c.bufferSize && Next(c, s, Read(reply)).Some?
    requires Next(c, s, Read(reply)).value.updates != s.updates
    ensures var s' := Next(c, s, Read(reply)).value;
      s'.updates == s.updates + [c.bufferSize - |s'.reader.queue|]
  {
    HasEffect(c, s, Read(reply));
  }

  // ---------- The writer's side ----------

  predicate DisciplineInv(s: Flow) {
    Backed(s) && s.writer.credit + s.spent == s.granted
  }

  lemma DisciplineNext(c: Config, s: Flow, step: Step)
    requires c.flushEach && Base(c, s) && DisciplineInv(s) && Next(c, s, step).Some?
    ensures DisciplineInv(Next(c, s, step).value)
  {
    HasEffect(c, s, step);
    if ByWriter(step) { WriteHasEffect(c, s, step); }
  }

  lemma {:induction false} ExecDiscipline(c: Config, s: Flow, steps: seq<Step>)
    requires c.flushEach && Base(c, s) && DisciplineInv(s) && Exec(c, s, steps).Some?
    ensures DisciplineInv(Exec(c, s, steps).value)
    decreases |steps|
  {
    if steps != [] {
      BaseNext(c, s, steps[0]);
      DisciplineNext(c, s, steps[0]);
      ExecDiscipline(c, Next(c, s, steps[0]).value, steps[1..]);
    }
  }

  /** Between two credit updates the client writes at most one packet more than it was granted, and not
      even that one if every item is flushed; the slot is never overwritten; and a writer whose waker is
      registered has no credit.  */
  lemma WriterCreditBound(c: Config, s: Flow)
    requires Reachable(c, s)
    ensures s.spent <= s.granted + 1
    ensures c.flushEach ==> s.spent <= s.granted
    ensures s.ready ==> s.writer.chunk.None?
    ensures s.writer.parked ==> s.writer.credit == 0
  {
    ReachableBase(c, s);
    if c.flushEach {
      var steps :| Exec(c, Init(c), steps) == Option.Some(s);
      ExecDiscipline(c, Init(c), steps);
    }
  }

  // ---------- Over-commitment ----------

  predicate NoUpdate(steps: seq<Step>) {
    forall i :: 0 <= i < |steps| ==> !steps[i].Update?
  }

  lemma {:induction false} ExecWindow(c: Config, s: Flow, steps: seq<Step>)
    requires c.flushEach && Base(c, s) && Window(c, s) && NoUpdate(steps) && Exec(c, s, steps).Some?
    ensures Base(c, Exec(c, s, steps).value) && Window(c, Exec(c, s, steps).value)
    ensures Exec(c, s, steps).value.dropped == s.dropped
    decreases |steps|
  {
    if steps != [] {
      BaseNext(c, s, steps[0]);
      WindowNext(c, s, steps[0]);
      ExecWindow(c, Next(c, s, steps[0]).value, steps[1..]);
    }
  }

  /** For every buffer size, from any state in which both sides agree: until the client takes over the next
      credit nothing is dropped and at most one update is under way; the client then may have sent, or may
      still send, at most `B - target - 1` packets more than the server's books allow.  */
  lemma OverCommitBound(c: Config, s: Flow, steps: seq<Step>, m: Flow)
    requires c.flushEach && Base(c, s) && Synced(c, s) && Backed(s) && NoUpdate(steps)
    requires Exec(c, s, steps) == Option.Some(m)
    ensures m.dropped == s.dropped && |m.updates| <= 1
    ensures m.updates != [] ==> Next(c, m, Update).Some?
    ensures m.updates != [] ==>
      0 <= Excess(Next(c, m, Update).value) <= c.bufferSize - T(c) - 1
  {
    ExecWindow(c, s, steps);
    if m.updates != [] {
      UpdateExcess(c, m);
    }
  }

  // ---------- No loss for small windows ----------

  lemma {:induction false} ExecSmallWindow(c: Config, s: Flow, steps: seq<Step>)
    requires c.flushEach && c.bufferSize <= 10 && Base(c, s) && Window(c, s) && Exec(c, s, steps).Some?
    ensures Window(c, Exec(c, s, steps).value)
    ensures Exec(c, s, steps).value.dropped == s.dropped
    decreases |steps|
  {
    if steps != [] {
      BaseNext(c, s, steps[0]);
      if steps[0].Update? { UpdateExcess(c, s); } else { WindowNext(c, s, steps[0]); }
      ExecSmallWindow(c, Next(c, s, steps[0]).value, steps[1..]);
    }
  }

  /** Buffer sizes up to 10 and flushed items: the server never drops a packet, and what was read, is held
      back, is queued, is in flight and is stored in the writer is exactly what was written, in order.  */
  lemma LossFree(c: Config, s: Flow)
    requires c.flushEach && c.bufferSize <= 10 && Reachable(c, s)
    ensures s.dropped == 0
    ensures s.returned + Opt(s.reader.chunk) + s.reader.queue + s.data + Opt(s.writer.chunk) == s.written
    ensures Ledger(s) == c.bufferSize
  {
    ReachableBase(c, s);
    var steps :| Exec(c, Init(c), steps) == Option.Some(s);
    ExecSmallWindow(c, Init(c), steps);
  }

  // ---------- No deadlock ----------

  /** The client may not send and nothing is under way that could change that. */
  predicate Stalled(s: Flow) {
    s.writer.credit == 0 && s.data == [] && s.updates == []
  }

  function Reads(n: nat): seq<Step> {
    seq(n, i => Read(Accepted))
  }

  /** With enough chunks on the queue, `n` reads send an update. */
  lemma {:induction false} ReadsReplenish(c: Config, s: Flow, n: nat) returns (s': Flow)
    requires Shape(s, c.bufferSize, T(c)) && s.updates == []
    requires s.reader.readCnt + |s.reader.queue| >= T(c) + 1
    requires n == if s.reader.chunk.Some? then 1 else T(c) + 1 - s.reader.readCnt
    ensures Exec(c, s, Reads(n)) == Option.Some(s')
    ensures s'.updates == [s'.reader.credit] && s'.updates[0] >= 1
    ensures s'.writer == s.writer && s'.ready == s.ready && s'.data == s.data && s'.dropped == s.dropped
    ensures |s'.reader.queue| + T(c) + 1 == |s.reader.queue| + s.reader.readCnt && s'.reader.readCnt == 0
    decreases n
  {
    var m := AfterRead(s, PollNext(s.reader, true, T(c), Accepted));
    assert Reads(n)[0] == Read(Accepted) && Reads(n)[1..] == Reads(n - 1);
    ReadHasEffect(s, c.bufferSize, T(c), Accepted);
    if n == 1 {
      s' := m;
      assert Exec(c, m, Reads(0)) == Option.Some(m);
    } else {
      s' := ReadsReplenish(c, m, n - 1);
    }
  }

  /** For every buffer size but 0 and every call order: a stalled stream has chunks to read, at most
      `target + 1` reads send an update, and taking it over gives the client credit and wakes it.  */
  lemma StallResolves(c: Config, s: Flow) returns (n: nat, m: Flow, s': Flow)
    requires c.bufferSize >= 1 && Reachable(c, s) && Stalled(s)
    ensures s.reader.chunk.Some? || s.reader.queue != []
    ensures 1 <= n <= T(c) + 1 && Exec(c, s, Reads(n)) == Option.Some(m)
    ensures |m.updates| == 1 && Next(c, m, Update) == Option.Some(s')
    ensures s'.writer.credit > 0 && !s'.writer.parked
  {
    ReachableBase(c, s);
    n := if s.reader.chunk.Some? then 1 else T(c) + 1 - s.reader.readCnt;
    m := ReadsReplenish(c, s, n);
    s' := Next(c, m, Update).value;
  }
}
