/** The server's credit for one flow-controlled stream, load by load and store by store.  The server actor puts a packet
    on the queue and then takes it off the credit (`try_send`, `flow_dec`); the reading half counts what it reads and
    refills the credit when it sends an update (`flow_add`).  `parallel` says that one of them may step while the other
    is in the middle of an operation.  The client at the other end of the two FIFO transports sends while it has
    credit. */
module ServerRace {
  import opened Common
  import FlowSpec

  datatype ReaderPhase =
    | Idle
    | Due                   // has taken a chunk that makes an update due
    | Adding(value: u32)    // `flow_add` has loaded, its store is next

  datatype ActorPhase =
    | Waiting
    | Queued                // `try_send` has succeeded, `flow_dec` is next
    | Loaded(value: u32)    // `flow_dec` has loaded, its store is next

  /** `owed` is the credit if every packet were charged when it is queued, and every refill made in one piece. */
  datatype Books = Books(
    credit: u32,
    queue: nat,
    readCnt: u32,
    reader: ReaderPhase,
    actor: ActorPhase,
    owed: u32,
    client: u32,            // the client's credit
    data: nat,              // Data packets in flight
    updates: seq<u32>)      // Continue packets in flight

  datatype Step = Send | Adopt | TrySend | DecLoad | DecStore | Take | AddLoad | AddStore

  function Init(b: u32): Books {
    Books(b, 0, 0, Idle, Waiting, b, b, 0, [])
  }

  predicate ByReader(step: Step) {
    step.Take? || step.AddLoad? || step.AddStore?
  }

  predicate ByActor(step: Step) {
    step.TrySend? || step.DecLoad? || step.DecStore?
  }

  predicate AtRest(s: Books) {
    s.reader.Idle? && s.actor.Waiting?
  }

  predicate Allowed(s: Books, step: Step, parallel: bool) {
    parallel || ((ByReader(step) ==> s.actor.Waiting?) && (ByActor(step) ==> !s.reader.Adding?))
  }

  function Next(b: u32, s: Books, step: Step, parallel: bool): Option<Books> {
    if !Allowed(s, step, parallel) then None
    else
      match step
      case Send => if s.client > 0 then Some(s.(client := s.client - 1, data := s.data + 1)) else None
      case Adopt => if s.updates != [] then Some(s.(client := s.updates[0], updates := s.updates[1..])) else None
      case TrySend =>
        if !s.actor.Waiting? || s.data == 0 then None
        else if s.queue >= b then Some(s.(data := s.data - 1))
        else Some(s.(data := s.data - 1, queue := s.queue + 1, actor := Queued, owed := SatSub(s.owed, 1)))
      case DecLoad => if s.actor.Queued? then Some(s.(actor := Loaded(s.credit))) else None
      case DecStore =>
        if s.actor.Loaded? then Some(s.(actor := Waiting, credit := SatSub(s.actor.value, 1))) else None
      case Take =>
        if !s.reader.Idle? || s.queue == 0 || s.readCnt == U32_MAX then None
        else
          var read := s.readCnt + 1;
          Some(s.(queue := s.queue - 1, readCnt := read, reader := if read > FlowSpec.Target(b) then Due else Idle))
      case AddLoad => if s.reader.Due? then Some(s.(reader := Adding(s.credit))) else None
      case AddStore =>
        if !s.reader.Adding? then None
        else
          var credit := SatAdd(s.reader.value, s.readCnt);
          Some(s.(reader := Idle, credit := credit, readCnt := 0, updates := s.updates + [credit],
                  owed := SatAdd(s.owed, s.readCnt)))
  }

  function Exec(b: u32, s: Books, steps: seq<Step>, parallel: bool): Option<Books>
    decreases |steps|
  {
    if steps == [] then Some(s)
    else
      match Next(b, s, steps[0], parallel)
      case None => None
      case Some(s') => Exec(b, s', steps[1..], parallel)
  }

  ghost predicate Reachable(b: u32, s: Books, parallel: bool) {
    exists steps :: Exec(b, Init(b), steps, parallel) == Option.Some(s)
  }

  // ---------- One at a time ----------

  predicate Sequential(s: Books) {
    && (s.actor.Waiting? || !s.reader.Adding?)
    && s.owed == (if s.actor.Waiting? then s.credit else SatSub(s.credit, 1))
    && (s.reader.Adding? ==> s.reader.value == s.credit)
    && (s.actor.Loaded? ==> s.actor.value == s.credit)
  }

  lemma {:induction false} ExecSequential(b: u32, s: Books, steps: seq<Step>)
    requires Sequential(s) && Exec(b, s, steps, false).Some?
    ensures Sequential(Exec(b, s, steps, false).value)
    decreases |steps|
  {
    if steps != [] {
      assert Sequential(Next(b, s, steps[0], false).value);
      ExecSequential(b, Next(b, s, steps[0], false).value, steps[1..]);
    }
  }

  /** Without a buffer the client never sends anything. */
  predicate Silent(s: Books) {
    s.client == 0 == s.data && s.queue == 0 && s.updates == [] && AtRest(s) && s.credit == 0 == s.owed
  }

  lemma NothingMoves(s: Books, steps: seq<Step>, parallel: bool)
    requires Silent(s)
    ensures Exec(0, s, steps, parallel).Some? ==> Exec(0, s, steps, parallel).value == s
  {
    if steps != [] { assert Next(0, s, steps[0], parallel).None?; }
  }

  // ---------- Runs ----------

  lemma {:induction false} ExecConcat(b: u32, s: Books, first: seq<Step>, rest: seq<Step>, parallel: bool)
    requires Exec(b, s, first, parallel).Some?
    ensures Exec(b, s, first + rest, parallel) == Exec(b, Exec(b, s, first, parallel).value, rest, parallel)
    decreases |first|
  {
    if first == [] {
      assert first + rest == rest;
    } else {
      assert (first + rest)[1..] == first[1..] + rest;
      ExecConcat(b, Next(b, s, first[0], parallel).value, first[1..], rest, parallel);
    }
  }

  lemma ReachNext(b: u32, s: Books, step: Step) returns (s': Books)
    requires Reachable(b, s, true) && Next(b, s, step, true).Some?
    ensures s' == Next(b, s, step, true).value && Reachable(b, s', true)
  {
    s' := Next(b, s, step, true).value;
    var before :| Exec(b, Init(b), before, true) == Option.Some(s);
    ExecConcat(b, Init(b), before, [step], true);
    assert [step][1..] == [];
  }

  /** The client sends a packet, which the server queues, charges and reads, undisturbed, `n` times; no update is
      due. */
  lemma {:induction false} Exchange(b: u32, s: Books, n: nat) returns (s': Books)
    requires Reachable(b, s, true) && AtRest(s) && s.queue == 0 == s.data && s.updates == []
    requires n <= s.client && n <= s.credit == s.owed && s.readCnt + n <= FlowSpec.Target(b) && b >= 1
    ensures Reachable(b, s', true)
    ensures s' == s.(client := s.client - n, credit := s.credit - n, owed := s.owed - n, readCnt := s.readCnt + n)
    decreases n
  {
    s' := s;
    if n > 0 {
      s' := ReachNext(b, s', Send);
      s' := ReachNext(b, s', TrySend);
      s' := ReachNext(b, s', DecLoad);
      s' := ReachNext(b, s', DecStore);
      s' := ReachNext(b, s', Take);
      s' := Exchange(b, s', n - 1);
    }
  }

  /** One more packet, and an update would be due; the packet is queued but not yet charged. */
  lemma OneQueued(b: u32) returns (s: Books)
    requires b >= 1
    ensures Reachable(b, s, true) && s.reader.Idle? && s.actor.Queued? && s.queue == 1 && s.updates == []
    ensures s.readCnt == FlowSpec.Target(b) && s.credit == b - FlowSpec.Target(b) && s.owed == s.credit - 1
  {
    var t := FlowSpec.Target(b);
    assert Exec(b, Init(b), [], true) == Option.Some(Init(b));
    s := Exchange(b, Init(b), t);
    s := ReachNext(b, s, Send);
    s := ReachNext(b, s, TrySend);
  }

  /** For every buffer size but 0: a refill between the load and the store of `flow_dec` is lost. */
  lemma RefillIsLost(b: u32) returns (s: Books)
    requires b >= 1
    ensures Reachable(b, s, true) && AtRest(s) && s.queue == 0 == s.readCnt
    ensures s.credit == b - FlowSpec.Target(b) - 1 && s.owed == b
  {
    s := OneQueued(b);
    s := ReachNext(b, s, DecLoad);
    s := ReachNext(b, s, Take);
    s := ReachNext(b, s, AddLoad);
    s := ReachNext(b, s, AddStore);
    s := ReachNext(b, s, DecStore);
  }

  /** A charge between the load and the store of `flow_add` is lost: the server books and advertises one packet more
      than its empty queue has room for. */
  lemma ChargeIsLost(b: u32) returns (s: Books)
    requires 1 <= b < U32_MAX
    ensures Reachable(b, s, true) && AtRest(s) && s.queue == 0 == s.readCnt
    ensures s.credit == b + 1 && s.owed == b && s.updates == [b + 1]
  {
    s := OneQueued(b);
    s := ReachNext(b, s, Take);
    s := ReachNext(b, s, AddLoad);
    s := ReachNext(b, s, DecLoad);
    s := ReachNext(b, s, DecStore);
    s := ReachNext(b, s, AddStore);
  }

  /** A chunk that is read before it is charged: the books end up right, but the update promised one packet too many. */
  lemma ReadBeforeCharged(b: u32) returns (s: Books)
    requires 1 <= b < U32_MAX
    ensures Reachable(b, s, true) && AtRest(s) && s.queue == 0 == s.readCnt
    ensures s.credit == b == s.owed && s.updates == [b + 1]
  {
    s := OneQueued(b);
    s := ReachNext(b, s, Take);
    s := ReachNext(b, s, AddLoad);
    s := ReachNext(b, s, AddStore);
    s := ReachNext(b, s, DecLoad);
    s := ReachNext(b, s, DecStore);
  }

  // ---------- Exactly when ----------

  /** Between operations the counter is the credit that is owed. */
  ghost predicate KeepsLedger(b: u32, parallel: bool) {
    forall s :: Reachable(b, s, parallel) && AtRest(s) ==> s.credit == s.owed
  }

  /** The server's counter is exact, exactly if reading half and actor do not run in parallel, or the window is
      empty. */
  lemma ServerLedgerExactly(b: u32, parallel: bool)
    ensures KeepsLedger(b, parallel) <==> !parallel || b == 0
  {
    if parallel && b != 0 {
      var s := RefillIsLost(b);
    } else {
      forall s | Reachable(b, s, parallel) && AtRest(s) ensures s.credit == s.owed {
        var steps :| Exec(b, Init(b), steps, parallel) == Option.Some(s);
        if b == 0 { NothingMoves(Init(b), steps, parallel); } else { ExecSequential(b, Init(b), steps); }
      }
    }
  }
}
