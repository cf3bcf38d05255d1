/** The client's credit for one tracked stream, load by load and store by store.  The writing half and the client actor
    share it; `parallel` says that one of them may step while the other is in the middle of an operation, which a
    single-threaded runtime rules out.  The server at the other end of the two FIFO transports is that of `FlowSpec`. */
module CreditRace {
  import opened Common
  import FlowSpec

  datatype WriterPhase =
    | Idle
    | SawEmpty              // `flow_empty` was true, `flow_register` is next
    | Handed                // `start_send` is done, `flow_dec` is next
    | Loaded(value: u32)    // `flow_dec` has loaded, its store is next

  datatype ActorPhase = Waiting | Stored   // `flow_set` is done, `flow_wake` is next

  /** `owed` is the credit of the last Continue packet less the packets handed to the transport since. */
  datatype Shared = Shared(
    credit: u32,
    parked: bool,
    ready: bool,                 // `flow_empty` was false and nothing was handed over since
    writer: WriterPhase,
    actor: ActorPhase,
    owed: u32,
    data: nat,                   // Data packets in flight
    server: FlowSpec.Reader,
    updates: seq<u32>)           // Continue packets in flight

  datatype Step = LoadEmpty | Register | Hand | DecLoad | DecStore | Set | Wake | Deliver | Read

  function Init(b: u32): Shared {
    Shared(b, false, false, Idle, Waiting, b, 0, FlowSpec.Reader(true, [], None, 0, b, false), [])
  }

  predicate ByWriter(step: Step) {
    step.LoadEmpty? || step.Register? || step.Hand? || step.DecLoad? || step.DecStore?
  }

  predicate ByActor(step: Step) {
    step.Set? || step.Wake?
  }

  predicate AtRest(s: Shared) {
    s.writer.Idle? && s.actor.Waiting?
  }

  /** The server is another machine and may step at any time. */
  predicate Allowed(s: Shared, step: Step, parallel: bool) {
    parallel || ((ByActor(step) ==> s.writer.Idle?) && (ByWriter(step) ==> s.actor.Waiting?))
  }

  function Next(b: u32, s: Shared, step: Step, parallel: bool): Option<Shared> {
    if !Allowed(s, step, parallel) then None
    else
      match step
      case LoadEmpty =>
        if !s.writer.Idle? then None
        else if s.credit == 0 then Some(s.(writer := SawEmpty)) else Some(s.(ready := true))
      case Register => if s.writer.SawEmpty? then Some(s.(writer := Idle, parked := true)) else None
      case Hand =>
        if s.writer.Idle? && s.ready
        then Some(s.(writer := Handed, ready := false, data := s.data + 1, owed := SatSub(s.owed, 1))) else None
      case DecLoad => if s.writer.Handed? then Some(s.(writer := Loaded(s.credit))) else None
      case DecStore =>
        if s.writer.Loaded? then Some(s.(writer := Idle, credit := SatSub(s.writer.value, 1))) else None
      case Set =>
        if s.actor.Waiting? && s.updates != []
        then Some(s.(actor := Stored, credit := s.updates[0], owed := s.updates[0], updates := s.updates[1..]))
        else None
      case Wake => if s.actor.Stored? then Some(s.(actor := Waiting, parked := false)) else None
      case Deliver =>
        if s.data > 0 then Some(s.(data := s.data - 1, server := FlowSpec.Deliver(s.server, Option.Some(b), []).0))
        else None
      case Read =>
        if s.server.readCnt == U32_MAX then None
        else
          var o := FlowSpec.PollNext(s.server, true, FlowSpec.Target(b), FlowSpec.Accepted);
          Some(s.(server := o.reader, updates := if o.sent.Some? then s.updates + [o.sent.value] else s.updates))
  }

  function Exec(b: u32, s: Shared, steps: seq<Step>, parallel: bool): Option<Shared>
    decreases |steps|
  {
    if steps == [] then Some(s)
    else
      match Next(b, s, steps[0], parallel)
      case None => None
      case Some(s') => Exec(b, s', steps[1..], parallel)
  }

  ghost predicate Reachable(b: u32, s: Shared, parallel: bool) {
    exists steps :: Exec(b, Init(b), steps, parallel) == Option.Some(s)
  }

  // ---------- One at a time ----------

  predicate Sequential(s: Shared) {
    && (s.writer.Idle? || s.actor.Waiting?)
    && (s.writer.Handed? || s.writer.Loaded? ==> s.owed == SatSub(s.credit, 1))
    && (s.writer.Idle? || s.writer.SawEmpty? ==> s.owed == s.credit)
    && (s.parked && s.actor.Waiting? ==> s.credit == 0)
    && (s.writer.SawEmpty? ==> s.credit == 0)
    && (s.writer.Loaded? ==> s.writer.value == s.credit)
  }

  lemma {:induction false} ExecSequential(b: u32, s: Shared, steps: seq<Step>)
    requires Sequential(s) && Exec(b, s, steps, false).Some?
    ensures Sequential(Exec(b, s, steps, false).value)
    decreases |steps|
  {
    if steps != [] {
      assert Sequential(Next(b, s, steps[0], false).value);
      ExecSequential(b, Next(b, s, steps[0], false).value, steps[1..]);
    }
  }

  /** Without a buffer there is never any credit and never a packet. */
  predicate Silent(s: Shared) {
    && s.credit == 0 == s.owed && !s.ready && (s.writer.Idle? || s.writer.SawEmpty?) && s.data == 0 && s.updates == []
    && s.server.queue == [] && s.server.chunk.None?
  }

  lemma {:induction false} ExecSilent(s: Shared, steps: seq<Step>, parallel: bool)
    requires Silent(s) && Exec(0, s, steps, parallel).Some?
    ensures Silent(Exec(0, s, steps, parallel).value)
    decreases |steps|
  {
    if steps != [] {
      assert Silent(Next(0, s, steps[0], parallel).value);
      ExecSilent(Next(0, s, steps[0], parallel).value, steps[1..], parallel);
    }
  }

  // ---------- Runs ----------

  lemma {:induction false} ExecConcat(b: u32, s: Shared, first: seq<Step>, rest: seq<Step>, parallel: bool)
    requires Exec(b, s, first, parallel).Some?
    ensures Exec(b, s, first + rest, parallel) == Exec(b, Exec(b, s, first, parallel).value, rest, parallel)
    decreases |first|
  {
    if first == [] {
      assert first + rest == rest;
    } else {
      assert (first + rest)[1..] == first[1..] + rest;
      ExecConcat(b, Next(b, s, first[0], parallel).value, first[1..], rest, parallel);
    }
  }

  lemma ReachNext(b: u32, s: Shared, step: Step) returns (s': Shared)
    requires Reachable(b, s, true) && Next(b, s, step, true).Some?
    ensures s' == Next(b, s, step, true).value && Reachable(b, s', true)
  {
    s' := Next(b, s, step, true).value;
    var before :| Exec(b, Init(b), before, true) == Option.Some(s);
    ExecConcat(b, Init(b), before, [step], true);
    assert [step][1..] == [];
  }

  /** The client's side at rest; on the server's, `queued` chunks wait and `read` are counted. */
  predicate Quiet(s: Shared, credit: u32, data: nat, queued: nat, read: nat, serverCredit: u32) {
    && s.credit == credit == s.owed && !s.parked && AtRest(s) && s.data == data && s.updates == []
    && Server(s, queued, read, serverCredit)
  }

  predicate Server(s: Shared, queued: nat, read: nat, credit: u32) {
    && s.server.connected && |s.server.queue| == queued && s.server.chunk.None?
    && s.server.readCnt == read && s.server.credit == credit
  }

  lemma Start(b: u32) returns (s: Shared)
    ensures Reachable(b, s, true) && Quiet(s, b, 0, 0, 0, b)
  {
    s := Init(b);
    assert Exec(b, s, [], true) == Option.Some(s);
  }

  /** The writer sends `n` packets undisturbed. */
  lemma {:induction false} Sends(b: u32, s: Shared, n: nat) returns (s': Shared)
    requires Reachable(b, s, true) && Quiet(s, s.credit, s.data, |s.server.queue|, s.server.readCnt, s.server.credit)
    requires n <= s.credit
    ensures Reachable(b, s', true)
    ensures Quiet(s', s.credit - n, s.data + n, |s.server.queue|, s.server.readCnt, s.server.credit)
    decreases n
  {
    s' := s;
    if n > 0 {
      s' := ReachNext(b, s', LoadEmpty);
      s' := ReachNext(b, s', Hand);
      s' := ReachNext(b, s', DecLoad);
      s' := ReachNext(b, s', DecStore);
      s' := Sends(b, s', n - 1);
    }
  }

  /** Nothing changed on the client's side. */
  predicate SameClient(s: Shared, s': Shared) {
    && s'.credit == s.credit && s'.owed == s.owed && s'.parked == s.parked && s'.ready == s.ready
    && s'.writer == s.writer && s'.actor == s.actor
  }

  /** `n` packets reach the server. */
  lemma {:induction false} Deliveries(b: u32, s: Shared, n: nat) returns (s': Shared)
    requires Reachable(b, s, true) && Server(s, |s.server.queue|, s.server.readCnt, s.server.credit)
    requires n <= s.data && |s.server.queue| + n <= b && n <= s.server.credit
    ensures Reachable(b, s', true) && SameClient(s, s') && s'.data == s.data - n && s'.updates == s.updates
    ensures Server(s', |s.server.queue| + n, s.server.readCnt, s.server.credit - n)
    decreases n
  {
    s' := s;
    if n > 0 {
      s' := ReachNext(b, s, Deliver);
      s' := Deliveries(b, s', n - 1);
    }
  }

  /** The server reads until it sends an update. */
  lemma {:induction false} Reads(b: u32, s: Shared, n: nat) returns (s': Shared)
    requires Reachable(b, s, true) && Server(s, |s.server.queue|, s.server.readCnt, s.server.credit)
    requires s.updates == [] && s.server.readCnt + n == FlowSpec.Target(b) + 1 && 1 <= n <= |s.server.queue|
    ensures Reachable(b, s', true) && SameClient(s, s') && s'.data == s.data
    ensures s'.updates == [SatAdd(s.server.credit, FlowSpec.Target(b) + 1)]
    decreases n
  {
    s' := ReachNext(b, s, Read);
    if n > 1 { s' := Reads(b, s', n - 1); }
  }

  /** The client's last packet is handed to the transport but not yet paid for, and the server has read as much as it
      takes for an update, which restores the whole window. */
  lemma HandedWithUpdate(b: u32) returns (s: Shared)
    requires b >= 1
    ensures Reachable(b, s, true) && s.writer.Handed? && s.actor.Waiting? && s.updates == [b] && !s.parked
    ensures s.credit == b - FlowSpec.Target(b)
  {
    var t := FlowSpec.Target(b);
    s := Start(b);
    s := Sends(b, s, t);
    s := ReachNext(b, s, LoadEmpty);
    s := ReachNext(b, s, Hand);
    s := Deliveries(b, s, t + 1);
    s := Reads(b, s, t + 1);
  }

  /** For every buffer size but 0: an update that arrives between `start_send` and `flow_dec` pays for a packet that was
      sent before it. */
  lemma OldPacketIsCharged(b: u32) returns (s: Shared)
    requires b >= 1
    ensures Reachable(b, s, true) && AtRest(s) && s.credit == b - 1 && s.owed == b
  {
    s := HandedWithUpdate(b);
    s := ReachNext(b, s, Set);
    s := ReachNext(b, s, Wake);
    s := ReachNext(b, s, DecLoad);
    s := ReachNext(b, s, DecStore);
  }

  /** For every buffer size but 0: an update that arrives between the load and the store of `flow_dec` is
      overwritten. */
  lemma CreditIsOverwritten(b: u32) returns (s: Shared)
    requires b >= 1
    ensures Reachable(b, s, true) && AtRest(s) && s.credit == b - FlowSpec.Target(b) - 1 && s.owed == b
  {
    s := HandedWithUpdate(b);
    s := ReachNext(b, s, DecLoad);
    s := ReachNext(b, s, Set);
    s := ReachNext(b, s, Wake);
    s := ReachNext(b, s, DecStore);
  }

  /** For every buffer size but 0: an update that arrives between the look at the counter and the registration wakes
      nobody; the writer stays parked with all the credit it brought. */
  lemma LateCreditIsMissed(b: u32) returns (s: Shared)
    requires b >= 1
    ensures Reachable(b, s, true) && AtRest(s) && s.parked && s.credit == FlowSpec.Target(b) + 1
  {
    s := Start(b);
    s := Sends(b, s, b);
    s := ReachNext(b, s, LoadEmpty);
    s := Deliveries(b, s, b);
    s := Reads(b, s, FlowSpec.Target(b) + 1);
    s := ReachNext(b, s, Set);
    s := ReachNext(b, s, Wake);
    s := ReachNext(b, s, Register);
  }

  // ---------- Exactly when ----------

  /** Between operations a parked writer has no credit. */
  ghost predicate NeverOversleeps(b: u32, parallel: bool) {
    forall s :: Reachable(b, s, parallel) && AtRest(s) && s.parked ==> s.credit == 0
  }

  /** Between operations the counter is the credit that is owed. */
  ghost predicate KeepsLedger(b: u32, parallel: bool) {
    forall s :: Reachable(b, s, parallel) && AtRest(s) ==> s.credit == s.owed
  }

  lemma ReachableFine(b: u32, s: Shared, parallel: bool)
    requires Reachable(b, s, parallel) && AtRest(s) && (!parallel || b == 0)
    ensures s.credit == s.owed && (s.parked ==> s.credit == 0)
  {
    var steps :| Exec(b, Init(b), steps, parallel) == Option.Some(s);
    if b == 0 { ExecSilent(Init(b), steps, parallel); } else { ExecSequential(b, Init(b), steps); }
  }

  /** A parked writer never has credit, exactly if writer and actor do not run in parallel, or the window is empty. */
  lemma NeverOversleepsExactly(b: u32, parallel: bool)
    ensures NeverOversleeps(b, parallel) <==> !parallel || b == 0
  {
    if parallel && b != 0 {
      var s := LateCreditIsMissed(b);
    } else {
      forall s | Reachable(b, s, parallel) && AtRest(s) && s.parked ensures s.credit == 0 {
        ReachableFine(b, s, parallel);
      }
    }
  }

  /** The counter is exact, exactly if writer and actor do not run in parallel, or the window is empty. */
  lemma LedgerExactly(b: u32, parallel: bool)
    ensures KeepsLedger(b, parallel) <==> !parallel || b == 0
  {
    if parallel && b != 0 {
      var s := OldPacketIsCharged(b);
    } else {
      forall s | Reachable(b, s, parallel) && AtRest(s) ensures s.credit == s.owed { ReachableFine(b, s, parallel); }
    }
  }
}
