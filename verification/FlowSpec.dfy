/** What one poll of a stream half does, as functions on values. */
module FlowSpec {
  import opened Common

  /** What the lock and the transport answer while a half is being polled. */
  datatype Reply =
    | LockPending   // `poll_lock` is Pending
    | SinkPending   // the lock is held, `poll_ready` is Pending
    | SinkError     // `poll_ready` fails
    | SendError     // `start_send` fails
    | Accepted      // the packet is handed over

  datatype FlushReply = FlushPending | FlushError | Flushed

  predicate ErrorFree(reply: Reply) {
    !reply.SinkError? && !reply.SendError?
  }

  /** 90% of the buffer, rounded down. */
  function Target(bufferSize: u32): (t: u32)
    ensures 100 * t <= 90 * bufferSize < 100 * (t + 1)
    ensures t <= bufferSize
    ensures bufferSize >= 1 ==> t < bufferSize
    ensures bufferSize <= 2 * t + 1
    ensures bufferSize <= 10 ==> bufferSize <= t + 1
    ensures bufferSize > 10 ==> t + 2 <= bufferSize
    ensures t + 3 <= U32_MAX
  {
    bufferSize * 90 / 100
  }

  // ---------- Reading half ----------

  /** The reading half, the queue it reads from and the credit it shares with the actor. */
  datatype Reader = Reader(
    connected: bool,
    queue: seq<Bytes>,
    chunk: Option<Bytes>,
    readCnt: u32,
    credit: u32,
    holding: bool)

  datatype ReadResult = ReadPending | Chunk(data: Bytes) | ReadFailed | ReadClosed

  datatype ReadOutcome = ReadOutcome(reader: Reader, result: ReadResult, sent: Option<u32>)

  /** `MuxStreamRead::poll_next`; `updates` says that Continue packets are sent for this stream. */
  function PollNext(r: Reader, updates: bool, target: u32, reply: Reply): ReadOutcome
    requires r.readCnt < U32_MAX
  {
    if !r.connected then ReadOutcome(r, ReadClosed, None)
    else if r.chunk.None? && r.queue == [] then ReadOutcome(r, ReadPending, None)
    else
      var wasReading := r.chunk.Some?;
      var chunk := if wasReading then r.chunk.value else r.queue[0];
      var taken := r.(chunk := None, queue := if wasReading then r.queue else r.queue[1..]);
      if !updates then ReadOutcome(taken, Chunk(chunk), None)
      else
        var counted := taken.(readCnt := if wasReading then r.readCnt else r.readCnt + 1);
        if counted.readCnt <= target then ReadOutcome(counted, Chunk(chunk), None)
        else SendUpdate(counted, chunk, reply)
  }

  /** The part of `poll_next` that needs the transport. */
  function SendUpdate(r: Reader, chunk: Bytes, reply: Reply): ReadOutcome {
    match reply
    case LockPending => ReadOutcome(r.(chunk := Some(chunk)), ReadPending, None)
    case SinkPending => ReadOutcome(r.(chunk := Some(chunk), holding := true), ReadPending, None)
    case SinkError => ReadOutcome(r.(holding := false), ReadFailed, None)
    case SendError => ReadOutcome(r.(credit := SatAdd(r.credit, r.readCnt), holding := false), ReadFailed, None)
    case Accepted =>
      var credit := SatAdd(r.credit, r.readCnt);
      ReadOutcome(r.(credit := credit, readCnt := 0, holding := false), Chunk(chunk), Some(credit))
  }

  /** The server actor puts a packet on the queue, or drops it if the queue is full. */
  function Deliver(r: Reader, capacity: Option<nat>, data: Bytes): (Reader, bool) {
    if r.connected && (capacity.Some? ==> |r.queue| < capacity.value)
    then (r.(queue := r.queue + [data], credit := SatSub(r.credit, 1)), true)
    else (r, false)
  }

  // ---------- Writing half ----------

  datatype Writer = Writer(
    connected: bool,
    chunk: Option<Bytes>,
    credit: u32,
    parked: bool,    // the flow waker is Sleeping
    holding: bool)

  datatype WriteResult = WritePending | WriteReady | WriteFailed | WriteClosed

  datatype WriteOutcome = WriteOutcome(writer: Writer, result: WriteResult, sent: Option<Bytes>)

  /** Hands the stored chunk over once the transport is ready; the lock stays held. */
  function MaybeWrite(w: Writer, tracks: bool): Writer {
    w.(chunk := None, credit := if tracks then SatSub(w.credit, 1) else w.credit, holding := true)
  }

  /** `MuxStreamWrite::poll_ready`; `tracks` says that credit is tracked for this stream. */
  function PollReady(w: Writer, tracks: bool, reply: Reply): WriteOutcome {
    if !w.connected then WriteOutcome(w, WriteClosed, None)
    else if tracks && w.credit == 0 then WriteOutcome(w.(parked := true), WritePending, None)
    else if w.chunk.None? then WriteOutcome(w, WriteReady, None)
    else
      match reply
      case LockPending => WriteOutcome(w, WritePending, None)
      case SinkPending => WriteOutcome(w.(holding := true), WritePending, None)
      case SinkError => WriteOutcome(w.(holding := false), WriteFailed, None)
      case SendError => WriteOutcome(w.(chunk := None, holding := false), WriteFailed, None)
      case Accepted => WriteOutcome(MaybeWrite(w, tracks).(holding := false), WriteReady, w.chunk)
  }

  function StartSend(w: Writer, data: Bytes): Writer {
    w.(chunk := Some(data))
  }

  /** `MuxStreamWrite::poll_flush`; there is no look at the credit here. */
  function PollFlush(w: Writer, tracks: bool, reply: Reply, flush: FlushReply): WriteOutcome {
    if reply.LockPending? then WriteOutcome(w, WritePending, None)
    else if w.chunk.None? then FinishFlush(w, flush, None)
    else
      match reply
      case SinkPending => WriteOutcome(w.(holding := true), WritePending, None)
      case SinkError => WriteOutcome(w.(holding := false), WriteFailed, None)
      case SendError => WriteOutcome(w.(chunk := None, holding := false), WriteFailed, None)
      case _ => FinishFlush(MaybeWrite(w, tracks), flush, w.chunk)
  }

  function FinishFlush(w: Writer, flush: FlushReply, sent: Option<Bytes>): WriteOutcome {
    match flush
    case FlushPending => WriteOutcome(w.(holding := true), WritePending, sent)
    case FlushError => WriteOutcome(w.(holding := false), WriteFailed, sent)
    case Flushed => WriteOutcome(w.(holding := false), WriteReady, sent)
  }

  /** The client actor takes over the credit of a Continue packet and wakes the writer. */
  function Adopt(w: Writer, tracks: bool, credit: u32): Writer {
    if tracks then w.(credit := credit, parked := false) else w
  }
}
