/** What holds in every run of the shared transport, and exactly which runs panic or stand still. */
module TransportContract {
  import opened Common
  import opened FlowSpec
  import opened UnfoldSink
  import opened TransportSystem

  /** What a step of one agent does, unless it panics. */
  lemma StepHolds(p: Policy, w: World, owner: Option<nat>, step: Step)
    requires Safe(w, owner) && Next(p, w, step).Some? && !Joins(step)
    ensures var w' := Next(p, w, step).value;
      if w'.panicked then w' == w.(panicked := true) && w.sink.Empty? else StepOk(w, owner, w', step.u)
  {
    var h := w.agents[step.u].half;
    if step.Drop? {
      DropOk(w, owner, step.u);
    } else if h.ReadHalf? {
      SafeRead(w, owner, step);
    } else if h.WriteHalf? {
      SafeWrite(w, owner, step);
    } else {
      SafeActor(w, owner, step);
    }
  }

  lemma SafeNext(p: Policy, w: World, owner: Option<nat>, step: Step) returns (owner': Option<nat>)
    requires Safe(w, owner) && Next(p, w, step).Some?
    ensures Safe(Next(p, w, step).value, owner')
  {
    var w' := Next(p, w, step).value;
    owner' := owner;
    if step.JoinReader? {
      JoinOk(w, owner, FreshReader(step.updates, step.bufferSize));
    } else if step.JoinWriter? {
      JoinOk(w, owner, FreshWriter(step.tracks, step.bufferSize));
    } else if step.JoinActor? {
      JoinOk(w, owner, FreshActor);
    } else {
      StepHolds(p, w, owner, step);
      if w'.panicked {
        PanicOk(w, owner);
      } else {
        StepIsSafe(w, owner, w', step.u);
        owner' := NewOwner(owner, w', step.u);
      }
    }
  }

  lemma {:induction false} ExecSafe(p: Policy, w: World, owner: Option<nat>, steps: seq<Step>)
      returns (owner': Option<nat>)
    requires Safe(w, owner) && Exec(p, w, steps).Some?
    ensures Safe(Exec(p, w, steps).value, owner')
    decreases |steps|
  {
    owner' := owner;
    if steps != [] {
      owner' := SafeNext(p, w, owner, steps[0]);
      owner' := ExecSafe(p, Next(p, w, steps[0]).value, owner', steps[1..]);
    }
  }

  lemma ReachableSafe(p: Policy, w: World) returns (owner: Option<nat>)
    requires Reachable(p, w)
    ensures Safe(w, owner)
  {
    var steps :| Exec(p, Init(), steps) == Option.Some(w);
    owner := ExecSafe(p, Init(), None, steps);
  }

  // ---------- Failures need a failing future ----------

  lemma NoFailureNext(p: Policy, w: World, step: Step)
    requires !p.errors && w.failed == 0 && Next(p, w, step).Some?
    ensures Next(p, w, step).value.failed == 0
  {
    if step.PollFlushOf? && w.agents[step.u].half.WriteHalf? {
      NoFailureFlush(w, step.u, step.first, step.second);
    } else if step.ActorPoll? && w.agents[step.u].half.Actor? {
      NoFailureActor(w, step.u, step.first, step.second);
    }
  }

  lemma NoFailureActor(w: World, u: nat, first: Answer<nat>, second: Answer<nat>)
    requires u < |w.agents| && w.agents[u].half.Actor? && !first.Broke? && !second.Broke?
    ensures PollActor(w, u, first, second).failed == w.failed
  {
  }

  lemma NoFailureFlush(w: World, u: nat, first: Answer<nat>, second: Answer<nat>)
    requires u < |w.agents| && w.agents[u].half.WriteHalf? && !first.Broke? && !second.Broke?
    ensures PollWriteFlush(w, u, first, second).failed == w.failed
  {
  }

  lemma {:induction false} NoFailure(p: Policy, w: World, steps: seq<Step>)
    requires !p.errors && w.failed == 0 && Exec(p, w, steps).Some?
    ensures Exec(p, w, steps).value.failed == 0
    decreases |steps|
  {
    if steps != [] {
      NoFailureNext(p, w, steps[0]);
      NoFailure(p, Next(p, w, steps[0]).value, steps[1..]);
    }
  }

  // ---------- The contract ----------

  /** The lock's flag says exactly whether some half owns it, and no two do. */
  ghost predicate OneOwner(w: World) {
    && (w.locked <==> exists u :: 0 <= u < |w.agents| && Holding(w.agents[u].half))
    && forall u, v :: 0 <= u < |w.agents| && 0 <= v < |w.agents| ==>
         Holding(w.agents[u].half) && Holding(w.agents[v].half) ==> u == v
  }

  /** What a half took on has entered the transport in that order, but for the item it still stores; a dropped half
      and a failed actor may have lost what was left. */
  predicate InOrder(w: World, u: nat)
    requires u < |w.agents|
  {
    var a := w.agents[u];
    if MayLose(w, a.half) then Of(w.entered, u) <= a.given else Of(w.entered, u) + Stash(a.half) == a.given
  }

  /** In every run: one owner at most; payloads enter the function one at a time, each after the one before was
      completed, in the order in which their senders took them on, none twice, and none lost but by dropped halves
      and failed sends; without failing futures there is never a panic, and with them panics only follow a failure. */
  lemma ContractKept(p: Policy, w: World)
    requires Reachable(p, w)
    ensures OneOwner(w)
    ensures |w.entered| == |w.results| + w.failed + (if w.sink.Future? then 1 else 0)
    ensures w.sink.Future? ==> w.entered[|w.entered| - 1] == w.sink.payload
    ensures w.locked ==> w.sink.Future? || w.failed == 1
    ensures forall u :: 0 <= u < |w.agents| ==> InOrder(w, u)
    ensures forall u :: 0 <= u < |w.agents| && w.agents[u].half.ReadHalf? ==> w.agents[u].half.reader.readCnt < U32_MAX
    ensures forall u :: 0 <= u < |w.agents| ==> SlotOk(w.agents[u].half)
    ensures w.failed <= 1 && (w.panicked ==> w.failed == 1)
    ensures !p.errors ==> w.failed == 0 && !w.panicked
  {
    var owner := ReachableSafe(p, w);
    forall u | 0 <= u < |w.agents| ensures InOrder(w, u) && (Holding(w.agents[u].half) <==> owner == Option.Some(u)) {
      assert AgentOk(w, owner, u);
    }
    forall u | 0 <= u < |w.agents| ensures SlotOk(w.agents[u].half) { assert AgentOk(w, owner, u); }
    forall u | 0 <= u < |w.agents| && w.agents[u].half.ReadHalf? ensures w.agents[u].half.reader.readCnt < U32_MAX {
      assert AgentOk(w, owner, u);
    }
    if !p.errors {
      var steps :| Exec(p, Init(), steps) == Option.Some(w);
      NoFailure(p, Init(), steps);
    }
  }

  /** This poll gets the lock and has a message to hand over. */
  predicate Offers(w: World, step: Step)
    requires !Joins(step) && step.u < |w.agents|
  {
    var h := w.agents[step.u].half;
    match step
    case PollNextOf(_, _) => h.ReadHalf? && ReaderAsks(h.reader, h.updates, h.target) && GetsLock(w, h.reader.holding)
    case PollReadyOf(_, _) => h.WriteHalf? && WriterAsks(h.writer, h.tracks) && GetsLock(w, h.writer.holding)
    case PollFlushOf(_, _, _) => h.WriteHalf? && h.writer.chunk.Some? && GetsLock(w, h.writer.holding)
    case ActorPoll(_, _, _) => h.Actor? && h.slot.chunk.Some? && GetsLock(w, h.slot.holding)
    case _ => false
  }

  /** A step panics exactly if it hands a message over after a future has failed. */
  lemma PanicsExactly(p: Policy, w: World, step: Step)
    requires Reachable(p, w) && Next(p, w, step).Some? && !Joins(step)
    ensures Next(p, w, step).value.panicked <==> w.failed == 1 && Offers(w, step)
  {
    var owner := ReachableSafe(p, w);
    var h := w.agents[step.u].half;
    if step.PollFlushOf? && h.WriteHalf? && h.writer.chunk.Some? {
      OfferPanics(w, step.u, h.writer.holding, Data(h.writer.chunk.value), step.first);
    } else if step.PollReadyOf? && h.WriteHalf? && h.writer.chunk.Some? {
      OfferPanics(w, step.u, h.writer.holding, Data(h.writer.chunk.value), step.answer);
    } else if step.ActorPoll? && h.Actor? && h.slot.chunk.Some? {
      OfferPanics(w, step.u, h.slot.holding, Data(h.slot.chunk.value), step.first);
    } else if step.PollNextOf? && h.ReadHalf? {
      OfferPanics(w, step.u, h.reader.holding, Update(SatAdd(h.reader.credit, Counted(h.reader))), step.answer);
    }
  }

  lemma OfferPanics(w: World, u: nat, holding: bool, m: Message, answer: Answer<nat>)
    requires SinkOk(w) && !w.panicked
    ensures Offer(w, u, holding, m, answer).0.panicked <==> GetsLock(w, holding) && w.failed == 1
  {
  }

  // ---------- Runs by example ----------

  lemma {:induction false} ExecConcat(p: Policy, w: World, first: seq<Step>, rest: seq<Step>)
    requires Exec(p, w, first).Some?
    ensures Exec(p, w, first + rest) == Exec(p, Exec(p, w, first).value, rest)
    decreases |first|
  {
    if first == [] {
      assert first + rest == rest;
    } else {
      assert (first + rest)[1..] == first[1..] + rest;
      ExecConcat(p, Next(p, w, first[0]).value, first[1..], rest);
    }
  }

  lemma ReachNext(p: Policy, w: World, step: Step) returns (w': World)
    requires Reachable(p, w) && Next(p, w, step).Some?
    ensures w' == Next(p, w, step).value && Reachable(p, w')
  {
    w' := Next(p, w, step).value;
    var before :| Exec(p, Init(), before) == Option.Some(w);
    ExecConcat(p, Init(), before, [step]);
    assert [step][1..] == [];
  }

  lemma ReachInit(p: Policy)
    ensures Reachable(p, Init())
  {
    assert Exec(p, Init(), []) == Option.Some(Init());
  }

  function Zeros(n: nat): seq<nat> {
    if n == 0 then [] else Zeros(n - 1) + [0]
  }

  /** A world with one agent. */
  function Solo(half: Half, given: seq<Message>, locked: bool, sink: IteratorState<nat, Entry>,
                entered: seq<Entry>): World {
    var done := if sink.Future? && |entered| > 0 then |entered| - 1 else |entered|;
    World([Agent(half, given)], locked, sink, entered, Zeros(|entered|), Zeros(done), 0, false)
  }

  /** Two worlds with one agent, compared part by part. */
  predicate SameSolo(w: World, w': World) {
    && |w.agents| == 1 == |w'.agents| && w.agents[0].half == w'.agents[0].half
    && w.agents[0].given == w'.agents[0].given && w.entered == w'.entered
    && w.locked == w'.locked && w.sink == w'.sink && w.ran == w'.ran && w.results == w'.results && w.failed == w'.failed
    && w.panicked == w'.panicked
  }

  lemma ReachSolo(p: Policy, w: World, step: Step, w': World)
    requires Reachable(p, w) && Next(p, w, step).Some? && SameSolo(Next(p, w, step).value, w')
    ensures Reachable(p, w')
  {
    var n := ReachNext(p, w, step);
    assert n.agents == w'.agents;
  }

  function WriterOf(chunk: Option<Bytes>, credit: u32, holding: bool, last: Operation, ready: bool): Half {
    WriteHalf(Writer(true, chunk, credit, false, holding), true, last, ready)
  }

  const Item := Data([])

  /** A writer with credit `b` has taken an item. */
  function OneTaken(b: u32): World {
    Solo(WriterOf(Some([]), b, false, Ready, false), [Item], false, Value(0), [])
  }

  lemma ReachOneTaken(p: Policy, b: u32)
    requires b >= 1
    ensures Reachable(p, OneTaken(b))
  {
    ReachInit(p);
    var w := Solo(WriterOf(None, b, false, Ready, false), [], false, Value(0), []);
    ReachSolo(p, Init(), JoinWriter(true, b), w);
    var w1 := Solo(WriterOf(None, b, false, Ready, true), [], false, Value(0), []);
    ReachSolo(p, w, PollReadyOf(0, StillPending), w1);
    ReachSolo(p, w1, SendOf(0, []), OneTaken(b));
  }

  /** The next `poll_ready` has handed it over; the transport works on it and nobody has the lock. */
  function OneSent(b: u32): World
    requires b >= 1
  {
    Solo(WriterOf(None, b - 1, false, Ready, true), [Item], false, Future(0, (0, Item)), [(0, Item)])
  }

  lemma ReachOneSent(p: Policy, b: u32)
    requires b >= 1
    ensures Reachable(p, OneSent(b))
  {
    ReachOneTaken(p, b);
    ReachSolo(p, OneTaken(b), PollReadyOf(0, StillPending), OneSent(b));
  }

  function TwoTaken(b: u32): World
    requires b >= 1
  {
    Solo(WriterOf(Some([]), b - 1, false, Ready, false), [Item, Item], false, Future(0, (0, Item)), [(0, Item)])
  }

  /** The second item is handed over as well; its flush is pending, so the writer keeps the lock. */
  function FlushPendingWorld(b: u32): World
    requires b >= 2
  {
    Solo(WriterOf(None, b - 2, true, Flush, false), [Item, Item], true, Future(0, (0, Item)), [(0, Item), (0, Item)])
  }

  lemma ReachTwoTaken(p: Policy, b: u32)
    requires b >= 2
    ensures Reachable(p, TwoTaken(b)) && Reachable(p, FlushPendingWorld(b))
  {
    ReachOneSent(p, b);
    ReachSolo(p, OneSent(b), SendOf(0, []), TwoTaken(b));
    ReachSolo(p, TwoTaken(b), PollFlushOf(0, Done(0), StillPending), FlushPendingWorld(b));
  }

  /** A transport whose future has failed; the half whose flush found out is done with it. */
  lemma ReachBroken(p: Policy) returns (w: World)
    requires p.errors
    ensures Reachable(p, w) && !w.locked && w.sink.Empty? && |w.agents| == 1 && w.agents[0].half.WriteHalf?
    ensures !w.panicked
  {
    ReachTwoTaken(p, 2);
    w := ReachNext(p, FlushPendingWorld(2), PollFlushOf(0, Broke, Broke));
  }

  /** Another half joins a broken transport. */
  predicate BrokenPair(w: World, half: Half) {
    !w.panicked && !w.locked && w.sink.Empty? && |w.agents| == 2 && w.agents[1].half == half
  }

  lemma BrokenJoins(p: Policy, w: World) returns (w': World)
    requires Reachable(p, w) && !w.locked && w.sink.Empty? && |w.agents| == 1 && w.agents[0].half.WriteHalf?
    requires !w.panicked
    ensures Reachable(p, w') && BrokenPair(w', WriterOf(None, 1, false, Ready, true))
  {
    w' := ReachNext(p, w, JoinWriter(true, 1));
    assert w'.agents[1] == Agent(FreshWriter(true, 1), []);
    w' := ReachNext(p, w', PollReadyOf(1, StillPending));
  }

  lemma BrokenTakes(p: Policy, w: World) returns (w': World)
    requires Reachable(p, w) && BrokenPair(w, WriterOf(None, 1, false, Ready, true))
    ensures Reachable(p, w') && BrokenPair(w', WriterOf(Some([]), 1, false, Ready, false))
  {
    w' := ReachNext(p, w, SendOf(1, []));
  }

  /** It sends its first item the way `SinkExt::send` does. */
  lemma BrokenPanics(p: Policy, w: World) returns (w': World)
    requires Reachable(p, w) && !w.locked && w.sink.Empty? && |w.agents| == 1 && w.agents[0].half.WriteHalf?
    requires !w.panicked
    ensures Reachable(p, w') && w'.panicked
  {
    w' := BrokenJoins(p, w);
    w' := BrokenTakes(p, w');
    w' := ReachNext(p, w', PollFlushOf(1, StillPending, StillPending));
  }

  ghost predicate NeverPanics(p: Policy) {
    forall w :: Reachable(p, w) ==> !w.panicked
  }

  /** The transport never panics exactly if its futures never fail: after a failure it still answers Ready. */
  lemma NeverPanicsExactly(p: Policy)
    ensures NeverPanics(p) <==> !p.errors
  {
    if p.errors {
      var w := ReachBroken(p);
      w := BrokenPanics(p, w);
    } else {
      forall w | Reachable(p, w) ensures !w.panicked { ContractKept(p, w); }
    }
  }

  // ---------- The owner lets go ----------

  /** The owner's task polls what it polled before; the transport completes what it is asked to. */
  function Repoll(u: nat, h: Half, state: nat): Step
    requires !h.Gone?
  {
    if h.ReadHalf? then PollNextOf(u, Done(state))
    else if h.Actor? then ActorPoll(u, Done(state), Done(state))
    else if h.last.Ready? then PollReadyOf(u, Done(state))
    else PollFlushOf(u, Done(state), Done(state))
  }

  /** The future that polled the half was dropped, and nobody has polled the half since. */
  predicate Abandoned(h: Half) {
    (h.ReadHalf? && h.cancelled) || (h.WriteHalf? && h.last.Cancelled?)
  }

  /** The owner's task is still there to poll, and that poll gives the lock back. */
  predicate Releases(p: Policy, w: World, u: nat, state: nat)
    requires u < |w.agents| && !w.agents[u].half.Gone?
  {
    !Abandoned(w.agents[u].half) &&
    match Next(p, w, Repoll(u, w.agents[u].half, state))
    case None => false
    case Some(w') => u < |w'.agents| && !Holding(w'.agents[u].half) && !w'.locked
  }

  ghost predicate NeverStuck(p: Policy) {
    forall w, u: nat, state: nat ::
      Reachable(p, w) && !w.panicked && u < |w.agents| && Holding(w.agents[u].half) ==> Releases(p, w, u, state)
  }

  /** The owner is still after something that needs only the transport. */
  predicate Prompt(p: Policy, h: Half) {
    match h
    case ReadHalf(r, updates, target, _, cancelled) =>
      && !cancelled
      && (r.holding ==> r.connected && r.chunk.Some? && updates && r.readCnt > target)
    case WriteHalf(wr, tracks, last, _) => !last.Cancelled? && (wr.holding && last.Ready? ==> WriterAsks(wr, tracks))
    case Actor(slot, busy, creating, leaked) =>
      && (slot.holding && !leaked ==> busy)
      && (!p.creates ==> !creating && !leaked)
    case Gone => true
  }

  /** Halves are not diverted from the lock once they have asked for it. */
  predicate Attentive(p: Policy) {
    !p.closes && !p.cancels && !p.eager && !p.zeroUpdates
  }

  predicate Wellbehaved(p: Policy) {
    Attentive(p) && !(p.errors && p.creates)
  }

  lemma PromptRead(p: Policy, w: World, u: nat, answer: Answer<nat>)
    requires u < |w.agents| && w.agents[u].half.ReadHalf? && w.agents[u].half.reader.readCnt < U32_MAX
    requires Prompt(p, w.agents[u].half)
    ensures |PollRead(w, u, answer).agents| == |w.agents| && Prompt(p, PollRead(w, u, answer).agents[u].half)
  {
    var h := w.agents[u].half;
    if !ReaderAsks(h.reader, h.updates, h.target) {
      assert PollNext(h.reader, h.updates, h.target, LockPending).reader.holding == h.reader.holding;
    }
  }

  lemma PromptReady(p: Policy, w: World, u: nat, answer: Answer<nat>)
    requires u < |w.agents| && w.agents[u].half.WriteHalf?
    requires var h := w.agents[u].half; Prompt(p, h) && !(h.writer.holding && h.last.Flush?)
    ensures |PollWriteReady(w, u, answer).agents| == |w.agents|
    ensures Prompt(p, PollWriteReady(w, u, answer).agents[u].half)
  {
  }

  lemma PromptStep(p: Policy, w: World, step: Step)
    requires !Joins(step) && step.u < |w.agents|
    requires !step.Close? && !step.Cancel? && (step.Continue? ==> step.credit > 0)
    requires step.ActorSend? ==> p.creates || !step.creating
    requires step.PollReadyOf? ==> !(Held(w.agents[step.u].half) && w.agents[step.u].half.last.Flush?)
    requires var h := w.agents[step.u].half; Prompt(p, h) && NextOf(w, h, step).Some?
    ensures var w' := NextOf(w, w.agents[step.u].half, step).value;
      |w'.agents| == |w.agents| && Prompt(p, w'.agents[step.u].half)
  {
    var h := w.agents[step.u].half;
    if step.PollNextOf? && h.ReadHalf? {
      PromptRead(p, w, step.u, step.answer);
    } else if step.PollReadyOf? && h.WriteHalf? {
      PromptReady(p, w, step.u, step.answer);
    } else if step.PollFlushOf? && h.WriteHalf? {
      PromptFlush(p, w, step.u, step.first, step.second);
    } else if step.ActorPoll? && h.Actor? {
      PromptActor(p, w, step.u, step.first, step.second);
    }
  }

  lemma PromptFlush(p: Policy, w: World, u: nat, first: Answer<nat>, second: Answer<nat>)
    requires u < |w.agents| && w.agents[u].half.WriteHalf? && Prompt(p, w.agents[u].half)
    ensures Prompt(p, PollWriteFlush(w, u, first, second).agents[u].half)
  {
  }

  lemma PromptActor(p: Policy, w: World, u: nat, first: Answer<nat>, second: Answer<nat>)
    requires u < |w.agents| && w.agents[u].half.Actor? && Prompt(p, w.agents[u].half) && w.agents[u].half.busy
    ensures Prompt(p, PollActor(w, u, first, second).agents[u].half)
  {
    var h := w.agents[u].half;
    if GetsLock(w, h.slot.holding) {
      var (w1, reply) :=
        if h.slot.chunk.Some? then Offer(w, u, h.slot.holding, Data(h.slot.chunk.value), first) else (w, Accepted);
      if !w1.panicked { PromptRest(p, w1, u, reply, second); }
    }
  }

  lemma PromptRest(p: Policy, w: World, u: nat, reply: Reply, second: Answer<nat>)
    requires u < |w.agents| && w.agents[u].half.Actor? && Prompt(p, w.agents[u].half) && w.agents[u].half.busy
    ensures Prompt(p, ActorRest(w, u, reply, second).agents[u].half)
  {
    var h := w.agents[u].half;
    var flush := if reply.Accepted? then Settle(w, second).1 else Flushed;
    PromptAfter(p, h, reply, flush);
    assert ActorRest(w, u, reply, second).agents[u].half == ActorAfter(h, PollFlush(h.slot, false, reply, flush));
  }

  lemma PromptAfter(p: Policy, h: Half, reply: Reply, flush: FlushReply)
    requires h.Actor? && Prompt(p, h) && h.busy
    ensures Prompt(p, ActorAfter(h, PollFlush(h.slot, false, reply, flush)))
  {
  }

  lemma PromptNext(p: Policy, w: World, step: Step, u: nat)
    requires Attentive(p) && Next(p, w, step).Some? && u < |Next(p, w, step).value.agents|
    requires u < |w.agents| ==> Prompt(p, w.agents[u].half)
    ensures Prompt(p, Next(p, w, step).value.agents[u].half)
  {
    if !Joins(step) {
      ElsewhereUnchanged(w, step, u);
      if step.u == u { PromptStep(p, w, step); }
    }
  }

  lemma ElsewhereUnchanged(w: World, step: Step, v: nat)
    requires !Joins(step) && step.u < |w.agents|
    requires NextOf(w, w.agents[step.u].half, step).Some?
    ensures var w' := NextOf(w, w.agents[step.u].half, step).value;
      |w'.agents| == |w.agents| && (v < |w.agents| && v != step.u ==> w'.agents[v] == w.agents[v])
  {
  }

  lemma {:induction false} ExecPrompt(p: Policy, w: World, steps: seq<Step>)
    requires Attentive(p) && Exec(p, w, steps).Some?
    requires forall u :: 0 <= u < |w.agents| ==> Prompt(p, w.agents[u].half)
    ensures var w' := Exec(p, w, steps).value; forall u :: 0 <= u < |w'.agents| ==> Prompt(p, w'.agents[u].half)
    decreases |steps|
  {
    if steps != [] {
      var w1 := Next(p, w, steps[0]).value;
      forall u | 0 <= u < |w1.agents| ensures Prompt(p, w1.agents[u].half) { PromptNext(p, w, steps[0], u); }
      ExecPrompt(p, w1, steps[1..]);
    }
  }

  lemma PromptReleases(p: Policy, w: World, owner: Option<nat>, u: nat, state: nat)
    requires Wellbehaved(p) && Safe(w, owner) && !w.panicked && (!p.errors ==> w.failed == 0)
    requires u < |w.agents| && Holding(w.agents[u].half) && Prompt(p, w.agents[u].half)
    ensures Releases(p, w, u, state)
  {
    assert AgentOk(w, owner, u);
  }

  /** The owner of the lock does not get to give it back: it is starved, or nobody polls it. */
  predicate Asleep(h: Half) {
    Starved(h) || (Holding(h) && Abandoned(h))
  }

  /** The owner is after something the transport cannot give: its stream is closed, it waits for credit, or it is an
      actor that failed to create a stream and went on to other things. */
  predicate Starved(h: Half) {
    match h
    case ReadHalf(r, _, _, _, _) => r.holding && !r.connected
    case WriteHalf(wr, tracks, last, _) => wr.holding && !last.Flush? && (!wr.connected || (tracks && wr.credit == 0))
    case Actor(slot, busy, _, _) => slot.holding && !busy
    case Gone => false
  }

  /** A reader has sent one update, which the transport still works on, and has one more chunk to read. */
  function UpdateSent(): World {
    Solo(ReaderOf([[]], None, 0, 0, false), [Update(1)], false, Future(0, (0, Update(1))), [(0, Update(1))])
  }

  function FirstArrived(): World {
    Solo(ReaderOf([[]], None, 0, 0, false), [], false, Value(0), [])
  }

  /** The actor delivers an empty chunk to a reader with room for it. */
  lemma ArriveOne(p: Policy, credit: u32, given: seq<Message>, sink: IteratorState<nat, Entry>, entered: seq<Entry>)
    requires credit > 0
    ensures var w := Solo(ReaderOf([], None, 0, credit, false), given, false, sink, entered);
      && Next(p, w, Arrive(0, [])).Some?
      && SameSolo(Next(p, w, Arrive(0, [])).value,
                  Solo(ReaderOf([[]], None, 0, credit - 1, false), given, false, sink, entered))
  {
    var one: seq<Bytes> := [[]];
    assert [] + one == one && given + [] == given;
  }

  lemma ReachFirstArrived(p: Policy)
    ensures Reachable(p, FirstArrived())
  {
    ReachInit(p);
    var w := Solo(ReaderOf([], None, 0, 1, false), [], false, Value(0), []);
    ReachSolo(p, Init(), JoinReader(true, 1), w);
    ArriveOne(p, 1, [], Value(0), []);
    ReachSolo(p, w, Arrive(0, []), FirstArrived());
  }

  lemma ReachUpdateSent(p: Policy)
    ensures Reachable(p, UpdateSent())
  {
    ReachFirstArrived(p);
    var w1 := FirstArrived();
    var one: seq<Bytes> := [[]];
    assert one[1..] == [];
    ReachSolo(p, w1, PollNextOf(0, StillPending), FirstRead());
    ReachSecondArrived(p);
  }

  function FirstRead(): World {
    Solo(ReaderOf([], None, 0, 1, false), [Update(1)], false, Future(0, (0, Update(1))), [(0, Update(1))])
  }

  lemma ReachSecondArrived(p: Policy)
    requires Reachable(p, FirstRead())
    ensures Reachable(p, UpdateSent())
  {
    ArriveOne(p, 1, [Update(1)], Future(0, (0, Update(1))), [(0, Update(1))]);
    ReachSolo(p, FirstRead(), Arrive(0, []), UpdateSent());
  }

  /** The reader wants to send another update and waits for the transport with the lock. */
  function ReadPending(): World {
    UpdateSent().(agents := [Agent(ReaderOf([], Some([]), 1, 0, true), [Update(1)])], locked := true)
  }

  lemma ReachReadPending(p: Policy)
    ensures Reachable(p, ReadPending())
  {
    ReachUpdateSent(p);
    var one: seq<Bytes> := [[]];
    assert one[1..] == [];
    ReachSolo(p, UpdateSent(), PollNextOf(0, StillPending), ReadPending());
  }

  lemma ClosedReaderKeepsLock(p: Policy) returns (w: World)
    requires p.closes
    ensures Reachable(p, w) && !w.panicked && |w.agents| == 1 && Asleep(w.agents[0].half) && !Releases(p, w, 0, 0)
    ensures !w.agents[0].half.Actor?
  {
    ReachReadPending(p);
    w := ReachNext(p, ReadPending(), Close(0));
  }

  function ReaderOf(queue: seq<Bytes>, chunk: Option<Bytes>, readCnt: u32, credit: u32, holding: bool): Half {
    ReadHalf(Reader(true, queue, chunk, readCnt, credit, holding), true, 0, Some(1), false)
  }

  /** A writer that waits for credit and has the lock. */
  function Parked(): Half {
    WriteHalf(Writer(true, None, 0, true, true), true, Ready, false)
  }

  lemma EagerWriterKeepsLock(p: Policy) returns (w: World)
    requires p.eager
    ensures Reachable(p, w) && !w.panicked && |w.agents| == 1 && Asleep(w.agents[0].half) && !Releases(p, w, 0, 0)
    ensures !w.agents[0].half.Actor?
  {
    ReachTwoTaken(p, 2);
    w := Solo(Parked(), [Item, Item], true, Future(0, (0, Item)), [(0, Item), (0, Item)]);
    ReachSolo(p, FlushPendingWorld(2), PollReadyOf(0, StillPending), w);
  }

  /** A writer has asked `poll_ready` to hand over its second item, which waits for the transport with the lock. */
  function ReadyPending(): World {
    TwoTaken(2).(agents := [Agent(WriterOf(Some([]), 1, true, Ready, false), [Item, Item])], locked := true)
  }

  lemma ReachReadyPending(p: Policy)
    ensures Reachable(p, ReadyPending())
  {
    ReachTwoTaken(p, 2);
    ReachSolo(p, TwoTaken(2), PollReadyOf(0, StillPending), ReadyPending());
  }

  lemma ZeroUpdateKeepsLock(p: Policy) returns (w: World)
    requires p.zeroUpdates
    ensures Reachable(p, w) && !w.panicked && |w.agents| == 1 && Asleep(w.agents[0].half) && !Releases(p, w, 0, 0)
    ensures !w.agents[0].half.Actor?
  {
    ReachReadyPending(p);
    w := ReadyPending().(agents := [Agent(WriterOf(Some([]), 0, true, Ready, false), [Item, Item])]);
    ReachSolo(p, ReadyPending(), Continue(0, 0), w);
  }

  /** A flush is cancelled while it has the lock, and the half is kept. */
  lemma CancelledFlushKeepsLock(p: Policy) returns (w: World)
    requires p.cancels
    ensures Reachable(p, w) && !w.panicked && |w.agents| == 1 && Asleep(w.agents[0].half) && !Releases(p, w, 0, 0)
    ensures !w.agents[0].half.Actor?
  {
    ReachTwoTaken(p, 2);
    w := ReachNext(p, FlushPendingWorld(2), Cancel(0));
  }

  /** An actor is about to send a Connect packet, and has handed it over and waits for the flush. */
  function CreateTaken(): World {
    Solo(ActorOf(Some([]), false, true, false), [Data([])], false, Value(0), [])
  }

  function CreateSent(): World {
    Solo(ActorOf(None, true, true, false), [Data([])], true, Future(0, (0, Data([]))), [(0, Data([]))])
  }

  lemma ReachCreateTaken(p: Policy)
    requires p.creates
    ensures Reachable(p, CreateTaken())
  {
    ReachInit(p);
    var w := Solo(FreshActor, [], false, Value(0), []);
    ReachSolo(p, Init(), JoinActor, w);
    ReachSolo(p, w, ActorSend(0, [], true), CreateTaken());
  }

  lemma ReachCreateSent(p: Policy)
    requires p.creates
    ensures Reachable(p, CreateSent())
  {
    ReachCreateTaken(p);
    ReachSolo(p, CreateTaken(), ActorPoll(0, StillPending, StillPending), CreateSent());
  }

  lemma CreationFails(p: Policy)
    requires p.errors
    ensures Next(p, CreateSent(), ActorPoll(0, Broke, Broke)) ==
            Option.Some(CreateSent().(agents := [Agent(ActorOf(None, true, false, true), [Data([])])], sink := Empty,
                                      failed := 1))
  {
    var given := [Data([])];
    assert given + [] == given;
    assert Next(p, CreateSent(), ActorPoll(0, Broke, Broke)).value.agents ==
           [Agent(ActorOf(None, true, false, true), given)];
  }

  lemma FailedCreationKeepsLock(p: Policy) returns (w: World)
    requires p.errors && p.creates
    ensures Reachable(p, w) && !w.panicked && |w.agents| == 1 && Asleep(w.agents[0].half) && !Releases(p, w, 0, 0)
  {
    ReachCreateSent(p);
    CreationFails(p);
    w := ReachNext(p, CreateSent(), ActorPoll(0, Broke, Broke));
  }

  function ActorOf(chunk: Option<Bytes>, holding: bool, busy: bool, leaked: bool): Half {
    Actor(Writer(true, chunk, 0, false, holding), busy, true, leaked)
  }

  /** The owner of the lock always gets to release it by polling again, once the transport completes, exactly if
      streams are not closed under their halves, no operation is cancelled, `poll_ready` is not called while a flush
      is pending, no credit of 0 is advertised, and no transport failure hits an actor that creates streams. */
  lemma NeverStuckExactly(p: Policy)
    ensures NeverStuck(p) <==> Wellbehaved(p)
  {
    if Wellbehaved(p) {
      forall w, u: nat, state: nat | Reachable(p, w) && !w.panicked && u < |w.agents| && Holding(w.agents[u].half)
        ensures Releases(p, w, u, state)
      {
        var steps :| Exec(p, Init(), steps) == Option.Some(w);
        ExecPrompt(p, Init(), steps);
        var owner := ReachableSafe(p, w);
        ContractKept(p, w);
        PromptReleases(p, w, owner, u, state);
      }
    } else if p.closes {
      var w := ClosedReaderKeepsLock(p);
    } else if p.cancels {
      var w := CancelledFlushKeepsLock(p);
    } else if p.eager {
      var w := EagerWriterKeepsLock(p);
    } else if p.zeroUpdates {
      var w := ZeroUpdateKeepsLock(p);
    } else {
      var w := FailedCreationKeepsLock(p);
    }
  }

  // ---------- Standing still ----------

  /** The step does not wake the owner: no credit for it, no flush or new packet by it, and it is not dropped; and if
      it is not starved, it is not polled at all. */
  predicate LeavesAsleep(starved: bool, u: nat, step: Step) {
    Joins(step) || step.u != u ||
    ( && !step.ActorSend? && !step.Continue? && !step.PollFlushOf? && !step.Drop?
      && (!starved ==> !step.PollNextOf? && !step.PollReadyOf?))
  }

  /** Why the owner sleeps. */
  predicate AsleepBy(starved: bool, h: Half) {
    if starved then Starved(h) else Holding(h) && Abandoned(h)
  }

  /** The transport is as before, and so is the lock. */
  predicate Untouched(w: World, w': World) {
    w'.locked == w.locked && w'.entered == w.entered && w'.sink == w.sink && w'.panicked == w.panicked
  }

  lemma OwnerSleepsOn(w: World, step: Step, starved: bool)
    requires !Joins(step) && step.u < |w.agents| && AsleepBy(starved, w.agents[step.u].half)
    requires LeavesAsleep(starved, step.u, step) && NextOf(w, w.agents[step.u].half, step).Some?
    ensures var w' := NextOf(w, w.agents[step.u].half, step).value;
      Untouched(w, w') && step.u < |w'.agents| && AsleepBy(starved, w'.agents[step.u].half)
  {
    if w.agents[step.u].half.WriteHalf? { WriterSleepsOn(w, step, starved); }
  }

  lemma WriterSleepsOn(w: World, step: Step, starved: bool)
    requires !Joins(step) && step.u < |w.agents| && AsleepBy(starved, w.agents[step.u].half)
    requires w.agents[step.u].half.WriteHalf?
    requires LeavesAsleep(starved, step.u, step) && NextOf(w, w.agents[step.u].half, step).Some?
    ensures var w' := NextOf(w, w.agents[step.u].half, step).value;
      Untouched(w, w') && step.u < |w'.agents| && AsleepBy(starved, w'.agents[step.u].half)
  {
  }

  lemma OthersAreBlocked(w: World, step: Step)
    requires !Joins(step) && step.u < |w.agents| && w.locked && !Holding(w.agents[step.u].half)
    requires NextOf(w, w.agents[step.u].half, step).Some?
    ensures var w' := NextOf(w, w.agents[step.u].half, step).value;
      Untouched(w, w') && step.u < |w'.agents| && !Holding(w'.agents[step.u].half)
  {
    var h := w.agents[step.u].half;
    if h.ReadHalf? && !step.Drop? { ReaderIsBlocked(w, step); }
    if h.WriteHalf? && !step.Drop? { WriterIsBlocked(w, step); }
  }

  lemma ReaderIsBlocked(w: World, step: Step)
    requires !Joins(step) && step.u < |w.agents| && w.locked && !Holding(w.agents[step.u].half)
    requires w.agents[step.u].half.ReadHalf? && NextRead(w, w.agents[step.u].half, step).Some?
    ensures var w' := NextRead(w, w.agents[step.u].half, step).value;
      Untouched(w, w') && step.u < |w'.agents| && !Holding(w'.agents[step.u].half)
  {
  }

  lemma WriterIsBlocked(w: World, step: Step)
    requires !Joins(step) && step.u < |w.agents| && w.locked && !Holding(w.agents[step.u].half)
    requires w.agents[step.u].half.WriteHalf? && NextWrite(w, w.agents[step.u].half, step).Some?
    ensures var w' := NextWrite(w, w.agents[step.u].half, step).value;
      Untouched(w, w') && step.u < |w'.agents| && !Holding(w'.agents[step.u].half)
  {
  }

  lemma AsleepNext(p: Policy, w: World, step: Step, u: nat, starved: bool)
    requires u < |w.agents| && w.locked && AsleepBy(starved, w.agents[u].half) && LeavesAsleep(starved, u, step)
    requires Next(p, w, step).Some?
    requires forall v :: 0 <= v < |w.agents| && v != u ==> !Holding(w.agents[v].half)
    ensures var w' := Next(p, w, step).value;
      && Untouched(w, w') && u < |w'.agents| && AsleepBy(starved, w'.agents[u].half)
      && forall v :: 0 <= v < |w'.agents| && v != u ==> !Holding(w'.agents[v].half)
  {
    if !Joins(step) {
      if step.u == u { OwnerSleepsOn(w, step, starved); } else { OthersAreBlocked(w, step); }
      forall v | 0 <= v < |w.agents| && v != step.u
        ensures var w' := Next(p, w, step).value; |w'.agents| == |w.agents| && w'.agents[v] == w.agents[v]
      {
        ElsewhereUnchanged(w, step, v);
      }
    }
  }

  lemma {:induction false} StaysAsleep(p: Policy, w: World, steps: seq<Step>, u: nat, starved: bool)
    requires u < |w.agents| && w.locked && AsleepBy(starved, w.agents[u].half) && Exec(p, w, steps).Some?
    requires forall v :: 0 <= v < |w.agents| && v != u ==> !Holding(w.agents[v].half)
    requires forall i :: 0 <= i < |steps| ==> LeavesAsleep(starved, u, steps[i])
    ensures var w' := Exec(p, w, steps).value;
      && Untouched(w, w') && u < |w'.agents| && AsleepBy(starved, w'.agents[u].half)
    decreases |steps|
  {
    if steps != [] {
      AsleepNext(p, w, steps[0], u, starved);
      StaysAsleep(p, Next(p, w, steps[0]).value, steps[1..], u, starved);
    }
  }

  /** While the owner of the lock sleeps, nothing gets through: whatever the others do and however long. */
  lemma StandsStill(p: Policy, w: World, steps: seq<Step>, u: nat)
    requires Reachable(p, w) && u < |w.agents| && Asleep(w.agents[u].half) && Exec(p, w, steps).Some?
    requires forall i :: 0 <= i < |steps| ==> LeavesAsleep(Starved(w.agents[u].half), u, steps[i])
    ensures var w' := Exec(p, w, steps).value;
      Untouched(w, w') && u < |w'.agents| && Asleep(w'.agents[u].half)
  {
    ContractKept(p, w);
    StaysAsleep(p, w, steps, u, Starved(w.agents[u].half));
  }

  /** A send ends with the actor idle and its packet gone, whether it was sent or lost; the lock is given back unless a
      Connect packet was lost. Until then the actor is busy. */
  lemma SendEnds(h: Half, reply: Reply, flush: FlushReply)
    requires h.Actor? && !h.slot.holding && !h.leaked && h.busy
    ensures var o := PollFlush(h.slot, false, reply, flush);
      var after := ActorAfter(h, o);
      && (after.busy <==> o.result.WritePending?)
      && (!o.result.WritePending? ==> after.slot.chunk.None? && after.slot.holding == after.leaked)
      && (after.leaked <==> o.result.WriteFailed? && h.creating)
  {
  }
}
