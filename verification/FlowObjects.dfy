/** The objects of a stream (`StreamInfo`, its data channel and the two halves), updated in place; each
    method is proved against the functions of `FlowSpec`.  */
module FlowObjects {
  import opened Common
  import opened FlowSpec

  datatype FlowControl = Disabled | EnabledTrackAmount | EnabledSendMessages

  type TaskId = nat

  class StreamInfo {
    const id: u32
    const flowStatus: FlowControl
    const target: u32
    var flowControl: u32
    var closeReason: u8
    var waker: Option<TaskId>   // None is `Waiter::Woken`

    constructor (id: u32, flowStatus: FlowControl, bufferSize: u32)
      ensures this.id == id && this.flowStatus == flowStatus && target == Target(bufferSize)
      ensures flowControl == bufferSize && closeReason == 0x01 && waker == None
    {
      this.id, this.flowStatus := id, flowStatus;
      this.target := bufferSize * 90 / 100;
      flowControl, closeReason, waker := bufferSize, 0x01, None;
    }

    method FlowSet(amt: u32)
      modifies this`flowControl
      ensures flowControl == amt
    {
      flowControl := amt;
    }

    method FlowAdd(amt: u32) returns (new_: u32)
      modifies this`flowControl
      ensures new_ == flowControl == SatAdd(old(flowControl), amt)
    {
      var loaded := flowControl;
      new_ := if loaded + amt > U32_MAX then U32_MAX else loaded + amt;
      flowControl := new_;
    }

    method FlowSub(amt: u32) returns (new_: u32)
      modifies this`flowControl
      ensures new_ == flowControl == SatSub(old(flowControl), amt)
    {
      var loaded := flowControl;
      new_ := if loaded < amt then 0 else loaded - amt;
      flowControl := new_;
    }

    /** Registers a task, replacing the one registered before. */
    method FlowRegister(task: TaskId)
      modifies this`waker
      ensures waker == Some(task)
    {
      waker := Some(task);
    }

    method FlowWake() returns (woken: Option<TaskId>)
      modifies this`waker
      ensures waker == None && woken == old(waker)
    {
      woken := waker;
      waker := None;
    }
  }

  /** A flume channel; a bounded one refuses items beyond its capacity. */
  class Channel {
    const capacity: Option<nat>
    var items: seq<Bytes>
    var connected: bool

    constructor (capacity: Option<nat>)
      ensures this.capacity == capacity && items == [] && connected
    {
      this.capacity := capacity;
      items, connected := [], true;
    }

    method TrySend(data: Bytes) returns (ok: bool)
      modifies this`items
      ensures ok <==> old(connected) && (capacity.Some? ==> old(|items|) < capacity.value)
      ensures items == if ok then old(items) + [data] else old(items)
    {
      ok := connected && (capacity.None? || |items| < capacity.value);
      if ok {
        items := items + [data];
      }
    }
  }

  // ---------- Reading half ----------

  class MuxStreamRead {
    const chan: Channel
    const info: StreamInfo
    var readCnt: u32
    var chunk: Option<Bytes>
    var holding: bool           // `self.write.locked`

    ghost function Snapshot(): Reader
      reads this, chan, info
    {
      Reader(chan.connected, chan.items, chunk, readCnt, info.flowControl, holding)
    }

    constructor (chan: Channel, info: StreamInfo)
      ensures this.chan == chan && this.info == info
      ensures Snapshot() == Reader(chan.connected, chan.items, None, 0, info.flowControl, false)
    {
      this.chan, this.info := chan, info;
      readCnt, chunk, holding := 0, None, false;
    }

    method PollNext(reply: Reply) returns (result: ReadResult, sent: Option<u32>)
      requires readCnt < U32_MAX
      modifies this, chan`items, info`flowControl
      ensures ReadOutcome(Snapshot(), result, sent) ==
              FlowSpec.PollNext(old(Snapshot()), info.flowStatus.EnabledSendMessages?, info.target, reply)
    {
      sent := None;
      if !chan.connected {
        return ReadClosed, None;
      }
      var wasReading := chunk.Some?;
      var c: Bytes;
      if wasReading {
        c := chunk.value;
        chunk := None;
      } else if chan.items == [] {
        return ReadPending, None;
      } else {
        c := chan.items[0];
        chan.items := chan.items[1..];
      }
      if info.flowStatus.EnabledSendMessages? {
        if !wasReading {
          readCnt := readCnt + 1;
        }
        if readCnt > info.target {
          result, sent := SendContinue(c, reply);
          return;
        }
      }
      result := Chunk(c);
    }

    method SendContinue(c: Bytes, reply: Reply) returns (result: ReadResult, sent: Option<u32>)
      requires chunk.None?
      modifies this, info`flowControl
      ensures ReadOutcome(Snapshot(), result, sent) == SendUpdate(old(Snapshot()), c, reply)
    {
      if reply.LockPending? {
        chunk := Some(c);
        return ReadPending, None;
      }
      holding := true;
      if reply.SinkPending? {
        chunk := Some(c);
        return ReadPending, None;
      }
      if reply.SinkError? {
        holding := false;
        return ReadFailed, None;
      }
      var credit := info.FlowAdd(readCnt);
      if reply.SendError? {
        holding := false;
        return ReadFailed, None;
      }
      holding := false;
      readCnt := 0;
      return Chunk(c), Some(credit);
    }
  }

  // ---------- Writing half ----------

  class MuxStreamWrite {
    const info: StreamInfo
    var actorAlive: bool        // the actor still listens
    var chunk: Option<Bytes>
    var holding: bool

    ghost function Snapshot(): Writer
      reads this, info
    {
      Writer(actorAlive, chunk, info.flowControl, info.waker.Some?, holding)
    }

    constructor (info: StreamInfo)
      ensures this.info == info
      ensures Snapshot() == Writer(true, None, info.flowControl, info.waker.Some?, false)
    {
      this.info := info;
      actorAlive, chunk, holding := true, None, false;
    }

    ghost predicate Tracks() {
      info.flowStatus.EnabledTrackAmount?
    }

    method PollReady(task: TaskId, reply: Reply) returns (result: WriteResult, sent: Option<Bytes>)
      modifies this, info`flowControl, info`waker
      ensures WriteOutcome(Snapshot(), result, sent) == FlowSpec.PollReady(old(Snapshot()), Tracks(), reply)
      ensures Snapshot().parked && !old(Snapshot()).parked ==> info.waker == Some(task)
    {
      sent := None;
      if !actorAlive {
        return WriteClosed, None;
      }
      if info.flowStatus.EnabledTrackAmount? && info.flowControl == 0 {
        info.FlowRegister(task);
        return WritePending, None;
      }
      if chunk.Some? {
        if reply.LockPending? {
          return WritePending, None;
        }
        var failed;
        result, sent, failed := Hand(reply);
        if result.WritePending? || failed {
          return;
        }
        holding := false;
      }
      result := WriteReady;
    }

    /** With the lock held: waits for the transport and runs `maybe_write`. */
    method Hand(reply: Reply) returns (result: WriteResult, sent: Option<Bytes>, failed: bool)
      requires chunk.Some? && !reply.LockPending?
      modifies this, info`flowControl
      ensures actorAlive == old(actorAlive)
      ensures failed <==> reply.SinkError? || reply.SendError?
      ensures reply.SinkPending? ==>
        result.WritePending? && sent == None && Snapshot() == old(Snapshot()).(holding := true)
      ensures reply.SinkError? ==>
        result.WriteFailed? && sent == None && Snapshot() == old(Snapshot()).(holding := false)
      ensures reply.SendError? ==>
        result.WriteFailed? && sent == None && Snapshot() == old(Snapshot()).(chunk := None, holding := false)
      ensures reply.Accepted? ==>
        result.WriteReady? && sent == old(chunk) && Snapshot() == MaybeWrite(old(Snapshot()), Tracks())
    {
      holding := true;
      sent, failed := None, false;
      if reply.SinkPending? {
        return WritePending, None, false;
      }
      if reply.SinkError? {
        holding := false;
        return WriteFailed, None, true;
      }
      var taken := chunk;
      chunk := None;
      if reply.SendError? {
        holding := false;
        return WriteFailed, None, true;
      }
      if info.flowStatus.EnabledTrackAmount? {
        var _ := info.FlowSub(1);
      }
      return WriteReady, taken, false;
    }

    /** The slot has to be free: the code asserts it. */
    method StartSend(item: Bytes)
      requires chunk.None?
      modifies this`chunk
      ensures Snapshot() == FlowSpec.StartSend(old(Snapshot()), item)
    {
      chunk := Some(item);
    }

    method PollFlush(reply: Reply, flush: FlushReply) returns (result: WriteResult, sent: Option<Bytes>)
      modifies this, info`flowControl
      ensures WriteOutcome(Snapshot(), result, sent) == FlowSpec.PollFlush(old(Snapshot()), Tracks(), reply, flush)
    {
      sent := None;
      if reply.LockPending? {
        return WritePending, None;
      }
      holding := true;
      if chunk.Some? {
        var failed;
        result, sent, failed := Hand(reply);
        if result.WritePending? || failed {
          return;
        }
      }
      if flush.FlushPending? {
        return WritePending, sent;
      }
      holding := false;
      result := if flush.FlushError? then WriteFailed else WriteReady;
    }
  }

  // ---------- The actors' part ----------

  /** `ServerActor::handle_data_packet` for a stream it knows. */
  method HandleData(half: MuxStreamRead, data: Bytes) returns (ok: bool)
    modifies half.chan`items, half.info`flowControl
    ensures (half.Snapshot(), ok) == Deliver(old(half.Snapshot()), half.chan.capacity, data)
  {
    ok := half.chan.TrySend(data);
    if ok {
      var _ := half.info.FlowSub(1);
    }
  }

  /** `ClientActor::handle_continue_packet` for a stream it knows; returns the task that is woken. */
  method HandleContinue(half: MuxStreamWrite, credit: u32) returns (woken: Option<TaskId>)
    modifies half.info`flowControl, half.info`waker
    ensures half.Snapshot() == Adopt(old(half.Snapshot()), half.Tracks(), credit)
    ensures half.Tracks() ==> woken == old(half.info.waker)
    ensures !half.Tracks() ==> woken == None
  {
    woken := None;
    if half.info.flowStatus.EnabledTrackAmount? {
      half.info.FlowSet(credit);
      woken := half.info.FlowWake();
    }
  }
}
