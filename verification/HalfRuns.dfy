/** Runs of the halves by themselves, with any answers of the lock and the transport, errors included: streams with and
    without updates, and with and without credit. */
module HalfRuns {
  import opened Common
  import opened FlowSpec
  import FlowSystem

  /** A chunk that a half is done with: passed on, or lost to a transport error. */
  datatype Done = Done(data: Bytes, kept: bool)

  function Contents(ds: seq<Done>): seq<Bytes> {
    seq(|ds|, i requires 0 <= i < |ds| => ds[i].data)
  }

  lemma ContentsSnoc(ds: seq<Done>, d: Done)
    ensures Contents(ds + [d]) == Contents(ds) + [d.data]
  {
  }

  predicate AllKept(ds: seq<Done>) {
    forall i :: 0 <= i < |ds| ==> ds[i].kept
  }

  // ---------- Reading halves ----------

  /** `accepted` is what was put on the queue, `done` what `poll_next` took from it. */
  datatype Reading = Reading(reader: Reader, accepted: seq<Bytes>, done: seq<Done>)

  datatype ReadStep = Poll(reply: Reply) | Arrive(data: Bytes) | Close

  /** `updates` says that Continue packets are sent for the stream. */
  datatype Kind = Kind(updates: bool, target: u32, capacity: Option<nat>)

  /** What is still to be returned: the chunk that is held back, and the queue. */
  function Waiting(r: Reader): seq<Bytes> {
    FlowSystem.Opt(r.chunk) + r.queue
  }

  function AfterPoll(k: Kind, s: Reading, reply: Reply): Reading
    requires s.reader.readCnt < U32_MAX
  {
    AfterOutcome(s, PollNext(s.reader, k.updates, k.target, reply))
  }

  function AfterOutcome(s: Reading, o: ReadOutcome): Reading {
    var done :=
      match o.result
      case Chunk(data) => s.done + [Done(data, true)]
      case ReadFailed => s.done + [Done(if Waiting(s.reader) != [] then Waiting(s.reader)[0] else [], false)]
      case _ => s.done;
    Reading(o.reader, s.accepted, done)
  }

  function ReadNext(k: Kind, s: Reading, step: ReadStep): Option<Reading> {
    match step
    case Poll(reply) => if s.reader.readCnt < U32_MAX then Some(AfterPoll(k, s, reply)) else None
    case Arrive(data) =>
      var (reader, ok) := Deliver(s.reader, k.capacity, data);
      Some(s.(reader := reader, accepted := if ok then s.accepted + [data] else s.accepted))
    case Close => Some(s.(reader := s.reader.(connected := false)))
  }

  function ReadExec(k: Kind, s: Reading, steps: seq<ReadStep>): Option<Reading>
    decreases |steps|
  {
    if steps == [] then Some(s)
    else
      var n := ReadNext(k, s, steps[0]);
      if n.None? then None else ReadExec(k, n.value, steps[1..])
  }

  predicate ReadInv(k: Kind, s: Reading) {
    && Contents(s.done) + Waiting(s.reader) == s.accepted
    && (!k.updates ==> s.reader.chunk.None? && AllKept(s.done))
  }

  /** A poll takes the first chunk that is waiting, and returns it or loses it to an error, or it takes nothing. */
  predicate TakesFirst(updates: bool, r: Reader, o: ReadOutcome) {
    && (!updates && r.chunk.None? ==> o.reader.chunk.None? && !o.result.ReadFailed?)
    && if o.result.Chunk? || o.result.ReadFailed? then
         && Waiting(r) != [] && Waiting(o.reader) == Waiting(r)[1..]
         && (o.result.Chunk? ==> o.result.data == Waiting(r)[0])
       else Waiting(o.reader) == Waiting(r)
  }

  /** `r` without the chunk `c`, which was taken from it. */
  lemma UpdateTakes(r: Reader, c: Bytes, reply: Reply)
    requires r.chunk.None?
    ensures var o := SendUpdate(r, c, reply);
      && (o.result.Chunk? ==> o.result.data == c)
      && (o.result.Chunk? || o.result.ReadFailed? ==> Waiting(o.reader) == r.queue)
      && (!o.result.Chunk? && !o.result.ReadFailed? ==> Waiting(o.reader) == [c] + r.queue)
  {
  }

  lemma WaitingSplits(r: Reader)
    ensures r.chunk.Some? ==> Waiting(r) == [r.chunk.value] + r.queue && Waiting(r)[1..] == r.queue
    ensures r.chunk.None? ==> Waiting(r) == r.queue && (r.queue != [] ==> Waiting(r) == [r.queue[0]] + r.queue[1..])
  {
  }

  lemma PollTakesFirst(r: Reader, updates: bool, target: u32, reply: Reply)
    requires r.readCnt < U32_MAX
    ensures TakesFirst(updates, r, PollNext(r, updates, target, reply))
  {
    WaitingSplits(r);
    if r.connected && (r.chunk.Some? || r.queue != []) {
      var c := if r.chunk.Some? then r.chunk.value else r.queue[0];
      var taken := r.(chunk := None, queue := if r.chunk.Some? then r.queue else r.queue[1..]);
      var counted := taken.(readCnt := if r.chunk.Some? then r.readCnt else r.readCnt + 1);
      WaitingSplits(taken);
      WaitingSplits(counted);
      var o := PollNext(r, updates, target, reply);
      if !updates {
        assert o == ReadOutcome(taken, Chunk(c), None);
      } else if counted.readCnt <= target {
        assert o == ReadOutcome(counted, Chunk(c), None);
      } else {
        assert o == SendUpdate(counted, c, reply);
        UpdateTakes(counted, c, reply);
      }
    }
  }

  lemma MoveFirst(front: seq<Bytes>, w: seq<Bytes>)
    requires w != []
    ensures (front + [w[0]]) + w[1..] == front + w
  {
    assert w == [w[0]] + w[1..];
  }

  lemma OutcomeKeepsOrder(k: Kind, s: Reading, o: ReadOutcome)
    requires ReadInv(k, s) && TakesFirst(k.updates, s.reader, o)
    ensures ReadInv(k, AfterOutcome(s, o))
  {
    var s' := AfterOutcome(s, o);
    if o.result.Chunk? || o.result.ReadFailed? {
      ContentsSnoc(s.done, s'.done[|s.done|]);
      MoveFirst(Contents(s.done), Waiting(s.reader));
    }
  }

  lemma PollKeepsOrder(k: Kind, s: Reading, reply: Reply)
    requires ReadInv(k, s) && s.reader.readCnt < U32_MAX
    ensures ReadInv(k, AfterPoll(k, s, reply))
  {
    PollTakesFirst(s.reader, k.updates, k.target, reply);
    OutcomeKeepsOrder(k, s, PollNext(s.reader, k.updates, k.target, reply));
  }

  lemma ReadInvNext(k: Kind, s: Reading, step: ReadStep)
    requires ReadInv(k, s) && ReadNext(k, s, step).Some?
    ensures ReadInv(k, ReadNext(k, s, step).value)
  {
    if step.Poll? {
      PollKeepsOrder(k, s, step.reply);
    } else if step.Arrive? {
      var w, opt := Waiting(s.reader), FlowSystem.Opt(s.reader.chunk);
      assert opt + (s.reader.queue + [step.data]) == w + [step.data];
      assert Contents(s.done) + (w + [step.data]) == Contents(s.done) + w + [step.data];
    }
  }

  /** In every run of deliveries and polls, whatever the lock and the transport answer and whether or not the stream is
      closed on the way: what was taken, what is held back and what is queued make up what was put on the queue, in
      this order; without updates nothing is ever held back or lost. */
  lemma {:induction false} ReadsInOrder(k: Kind, s: Reading, steps: seq<ReadStep>, s': Reading)
    requires ReadInv(k, s) && ReadExec(k, s, steps) == Some(s')
    ensures Contents(s'.done) + FlowSystem.Opt(s'.reader.chunk) + s'.reader.queue == s'.accepted
    ensures !k.updates ==> Contents(s'.done) + s'.reader.queue == s'.accepted && AllKept(s'.done)
    decreases |steps|
  {
    if steps != [] {
      ReadInvNext(k, s, steps[0]);
      ReadsInOrder(k, ReadNext(k, s, steps[0]).value, steps[1..], s');
    } else {
      var opt := FlowSystem.Opt(s.reader.chunk);
      assert Contents(s.done) + (opt + s.reader.queue) == Contents(s.done) + opt + s.reader.queue;
      assert !k.updates ==> Contents(s.done) + opt == Contents(s.done);
    }
  }

  /** A poll of an open stream without updates takes the first chunk whenever there is one, and leaves the rest of the
      queue, the credit, the counter and the lock alone; it waits exactly if there is none. */
  lemma ReadsAtOnce(r: Reader, target: u32, reply: Reply)
    requires r.readCnt < U32_MAX && r.chunk.None? && r.connected
    ensures var o := PollNext(r, false, target, reply);
      && (r.queue != [] <==> o.result.Chunk?) && (r.queue == [] <==> o.result.ReadPending?) && o.sent == None
      && (r.queue != [] ==> [o.result.data] + o.reader.queue == r.queue)
      && o.reader == r.(queue := o.reader.queue) && (r.queue == [] ==> o.reader.queue == [])
  {
  }

  /** A closed stream returns the end and keeps what it has. */
  lemma ClosedReads(r: Reader, updates: bool, target: u32, reply: Reply)
    requires r.readCnt < U32_MAX
    ensures PollNext(r, updates, target, reply).result.ReadClosed? <==> !r.connected
    ensures !r.connected ==> PollNext(r, updates, target, reply) == ReadOutcome(r, ReadClosed, None)
  {
  }

  /** A packet goes to the end of the queue and off the credit exactly if the stream is open and has room. */
  lemma DeliversExactly(r: Reader, capacity: Option<nat>, data: Bytes)
    ensures var (after, ok) := Deliver(r, capacity, data);
      && (ok <==> r.connected && (capacity.None? || |r.queue| < capacity.value))
      && (ok ==> after.queue == r.queue + [data] && after.credit as int == if r.credit > 0 then r.credit - 1 else 0)
      && (ok ==> after == r.(queue := after.queue, credit := after.credit)) && (!ok ==> after == r)
  {
  }

  // ---------- The lock and the credit of a reading half ----------

  /** How many chunks have been taken since the last update, with the one the poll takes. */
  function Counted(r: Reader): nat {
    r.readCnt as nat + if r.chunk.None? then 1 else 0
  }

  /** The poll needs the transport. */
  predicate Due(r: Reader, target: u32) {
    r.connected && Waiting(r) != [] && Counted(r) > target as int
  }

  /** A poll that needs the transport keeps the lock exactly if the transport is not ready: the lock is given back after
      the update was sent, and after an error just as well. All other polls leave the lock alone. */
  lemma ReadLocks(r: Reader, updates: bool, target: u32, reply: Reply)
    requires r.readCnt < U32_MAX
    ensures PollNext(r, updates, target, reply).reader.holding <==>
      if updates && Due(r, target) && !reply.LockPending? then reply.SinkPending? else r.holding
  {
  }

  /** The credit grows exactly when an update is handed over, by the number of chunks taken since the last one, and the
      update carries the new credit. If the transport refuses the update, then the credit has grown although the peer
      is not told, and the count goes on, so that the same chunks are added once more with the next update. */
  lemma ReadCharges(r: Reader, updates: bool, target: u32, reply: Reply)
    requires r.readCnt < U32_MAX
    ensures var o := PollNext(r, updates, target, reply);
      var due := updates && Due(r, target);
      && (o.reader.credit as int ==
            if !(due && (reply.Accepted? || reply.SendError?)) then r.credit as int
            else if r.credit as int + Counted(r) <= U32_MAX then r.credit as int + Counted(r) else U32_MAX)
      && (o.sent.Some? <==> due && reply.Accepted?) && (o.sent.Some? ==> o.sent.value == o.reader.credit)
      && o.reader.readCnt as int == (if o.sent.Some? then 0
                                     else if updates && r.connected && Waiting(r) != [] then Counted(r) else r.readCnt)
  {
  }

  /** An update that is refused is added twice. */
  lemma RefusedUpdateCountsTwice(r: Reader, target: u32)
    requires Due(r, target) && r.chunk.None? && |r.queue| >= 2 && r.readCnt as int + 2 < U32_MAX
    requires r.credit as int + 2 * (r.readCnt as int + 2) < U32_MAX
    ensures var failed := PollNext(r, true, target, SendError);
      var sent := PollNext(failed.reader, true, target, Accepted);
      && failed.result == ReadFailed && sent.result == Chunk(r.queue[1])
      && sent.sent == Some((r.credit as int + (r.readCnt as int + 1) + (r.readCnt as int + 2)) as u32)
  {
  }

  // ---------- Writing halves ----------

  /** `given` is what was passed to `start_send`, `done` what the half handed over or lost; `granted` is the credit the
      half got last, after the first `since` of them. */
  datatype Writing = Writing(writer: Writer, ready: bool, given: seq<Bytes>, done: seq<Done>, granted: u32, since: nat)

  datatype WriteStep =
    | Ready(reply: Reply)
    | Send(data: Bytes)
    | Flush(reply: Reply, flush: FlushReply)
    | Grant(credit: u32)   // the actor handles a Continue packet
    | Hang

  function AfterCall(s: Writing, o: WriteOutcome, ready: bool): Writing {
    var done :=
      if s.writer.chunk.Some? && o.writer.chunk.None?
      then s.done + [Done(if o.sent.Some? then o.sent.value else s.writer.chunk.value, o.sent.Some?)]
      else s.done;
    s.(writer := o.writer, ready := ready, done := done)
  }

  function WriteNext(tracks: bool, s: Writing, step: WriteStep): Option<Writing> {
    match step
    case Ready(reply) =>
      var o := PollReady(s.writer, tracks, reply);
      Some(AfterCall(s, o, o.result.WriteReady?))
    case Send(data) =>
      if !s.ready then None
      else Some(s.(writer := StartSend(s.writer, data), ready := false, given := s.given + [data]))
    case Flush(reply, flush) => Some(AfterCall(s, PollFlush(s.writer, tracks, reply, flush), s.ready))
    case Grant(credit) =>
      Some(s.(writer := Adopt(s.writer, tracks, credit), granted := if tracks then credit else s.granted,
              since := if tracks then |s.done| else s.since))
    case Hang => Some(s.(writer := s.writer.(connected := false)))
  }

  function WriteExec(tracks: bool, s: Writing, steps: seq<WriteStep>): Option<Writing>
    decreases |steps|
  {
    if steps == [] then Some(s)
    else
      var n := WriteNext(tracks, s, steps[0]);
      if n.None? then None else WriteExec(tracks, n.value, steps[1..])
  }

  /** How many chunks were handed over. */
  function Handed(ds: seq<Done>): nat {
    if ds == [] then 0 else Handed(ds[..|ds| - 1]) + if ds[|ds| - 1].kept then 1 else 0
  }

  lemma HandedSnoc(ds: seq<Done>, d: Done)
    ensures Handed(ds + [d]) == Handed(ds) + if d.kept then 1 else 0
  {
    assert (ds + [d])[..|ds|] == ds;
  }

  /** What is left of the credit granted last. */
  function Left(s: Writing): nat
    requires s.since <= |s.done|
  {
    var handed := Handed(s.done[s.since..]);
    if s.granted as int > handed then s.granted as int - handed else 0
  }

  predicate WriteInv(tracks: bool, s: Writing) {
    && Contents(s.done) + FlowSystem.Opt(s.writer.chunk) == s.given
    && (s.ready ==> s.writer.chunk.None?) && s.since <= |s.done|
    && s.writer.credit as int == (if tracks then Left(s) else s.granted)
  }

  /** What a call may do: it keeps the chunk, or is done with that very chunk; only a chunk that was handed over costs
      credit, and only if the stream tracks it. */
  predicate Honest(tracks: bool, w: Writer, o: WriteOutcome) {
    && (o.writer.chunk == w.chunk || o.writer.chunk.None?)
    && (o.sent.Some? ==> o.sent == w.chunk && o.writer.chunk.None?)
    && o.writer.credit == (if tracks && o.sent.Some? then SatSub(w.credit, 1) else w.credit)
    && o.writer.connected == w.connected
  }

  lemma ReadyIsHonest(w: Writer, tracks: bool, reply: Reply)
    ensures Honest(tracks, w, PollReady(w, tracks, reply))
    ensures PollReady(w, tracks, reply).result.WriteReady? ==> PollReady(w, tracks, reply).writer.chunk.None?
    ensures PollReady(w, tracks, reply).sent.Some? ==> w.connected && (tracks ==> w.credit > 0)
  {
  }

  lemma FlushIsHonest(w: Writer, tracks: bool, reply: Reply, flush: FlushReply)
    ensures Honest(tracks, w, PollFlush(w, tracks, reply, flush))
    ensures PollFlush(w, tracks, reply, flush).result.WriteReady? ==>
      PollFlush(w, tracks, reply, flush).writer.chunk.None?
  {
  }

  lemma CallKeeps(tracks: bool, s: Writing, o: WriteOutcome, ready: bool)
    requires WriteInv(tracks, s) && Honest(tracks, s.writer, o) && (ready ==> o.writer.chunk.None?)
    ensures WriteInv(tracks, AfterCall(s, o, ready))
  {
    var s' := AfterCall(s, o, ready);
    if s'.done != s.done {
      var d := s'.done[|s.done|];
      ContentsSnoc(s.done, d);
      assert s'.done[s.since..] == s.done[s.since..] + [d];
      HandedSnoc(s.done[s.since..], d);
    }
  }

  lemma WriteInvNext(tracks: bool, s: Writing, step: WriteStep)
    requires WriteInv(tracks, s) && WriteNext(tracks, s, step).Some?
    ensures WriteInv(tracks, WriteNext(tracks, s, step).value)
    ensures !tracks ==> WriteNext(tracks, s, step).value.granted == s.granted
  {
    match step
    case Ready(reply) =>
      ReadyIsHonest(s.writer, tracks, reply);
      var o := PollReady(s.writer, tracks, reply);
      CallKeeps(tracks, s, o, o.result.WriteReady?);
    case Flush(reply, flush) =>
      FlushIsHonest(s.writer, tracks, reply, flush);
      CallKeeps(tracks, s, PollFlush(s.writer, tracks, reply, flush), s.ready);
    case Send(data) => assert Contents(s.done) + FlowSystem.Opt(None) == s.given;
    case Grant(credit) => assert s.done[|s.done|..] == [];
    case Hang =>
  }

  /** In every run of a writing half, whatever the lock and the transport answer: what was handed over or lost and what
      is stored make up what was given to it, in this order. If the stream does not track credit, then its credit is
      what it was, whatever Continue packets arrive; if it does, then it is the credit given last, less by one for each
      chunk handed over since. */
  lemma {:induction false} WritesInOrder(tracks: bool, s: Writing, steps: seq<WriteStep>, s': Writing)
    requires WriteInv(tracks, s) && WriteExec(tracks, s, steps) == Some(s')
    ensures Contents(s'.done) + FlowSystem.Opt(s'.writer.chunk) == s'.given
    ensures !tracks ==> s'.writer.credit == s.writer.credit
    ensures tracks ==> s'.since <= |s'.done| && s'.writer.credit as int == Left(s')
    ensures !tracks ==> s'.granted == s.granted
    decreases |steps|
  {
    if steps != [] {
      WriteInvNext(tracks, s, steps[0]);
      WritesInOrder(tracks, WriteNext(tracks, s, steps[0]).value, steps[1..], s');
    }
  }

  /** `poll_ready` keeps the lock exactly if the transport is not ready; errors give it back. */
  lemma ReadyLocks(w: Writer, tracks: bool, reply: Reply)
    ensures var o := PollReady(w, tracks, reply);
      var asks := w.connected && (tracks ==> w.credit > 0) && w.chunk.Some?;
      && (o.writer.holding <==> if asks && !reply.LockPending? then reply.SinkPending? else w.holding)
      && (o.result.WriteClosed? <==> !w.connected)
      && (o.result.WriteFailed? <==> asks && (reply.SinkError? || reply.SendError?))
      && (o.result.WriteReady? <==> w.connected && (tracks ==> w.credit > 0) && (w.chunk.None? || reply.Accepted?))
      && (o.writer.parked <==> w.parked || (w.connected && tracks && w.credit == 0))
      && (o.writer.chunk.None? <==> w.chunk.None? || (asks && (reply.Accepted? || reply.SendError?)))
      && (o.sent.Some? <==> asks && reply.Accepted?)
  {
  }

  /** The transport takes what the flush has to hand over, if there is anything. */
  predicate Through(w: Writer, reply: Reply) {
    !reply.LockPending? && (w.chunk.None? || reply.Accepted?)
  }

  /** `poll_flush` keeps the lock exactly if the transport is not ready, or has not flushed yet. */
  lemma FlushLocks(w: Writer, tracks: bool, reply: Reply, flush: FlushReply)
    ensures var o := PollFlush(w, tracks, reply, flush);
      && (o.writer.holding <==>
            if reply.LockPending? then w.holding
            else if Through(w, reply) then flush.FlushPending? else reply.SinkPending?)
      && (o.result.WriteReady? <==> Through(w, reply) && flush.Flushed?)
      && (o.result.WriteFailed? <==>
            if Through(w, reply) then flush.FlushError? else reply.SinkError? || reply.SendError?)
      && !o.result.WriteClosed? && (o.writer.parked <==> w.parked)
      && (o.writer.chunk.None? <==>
            w.chunk.None? || (!reply.LockPending? && (reply.Accepted? || reply.SendError?)))
      && (o.sent.Some? <==> w.chunk.Some? && reply.Accepted?)
  {
  }
}
