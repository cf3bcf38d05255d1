/** Which states the asynchronous function behind the transport is called on. */
module TransportStates {
  import opened Common
  import opened FlowSpec
  import opened UnfoldSink
  import opened TransportSystem
  import opened TransportContract

  /** What the `k`-th call should get: the initial state, or what the future of the payload before it returned. */
  function StateFor(results: seq<nat>, k: nat): nat
    requires k <= |results|
  {
    if k == 0 then 0 else results[k - 1]
  }

  /** Each call got the state the one before it returned, and the next call will. */
  predicate Chained(w: World) {
    && |w.ran| == |w.entered| == |w.results| + w.failed + (if w.sink.Future? then 1 else 0)
    && w.failed == (if w.sink.Empty? then 1 else 0)
    && (forall k :: 0 <= k < |w.ran| ==> k <= |w.results| && w.ran[k] == StateFor(w.results, k))
    && (w.sink.Value? ==> w.sink.state == StateFor(w.results, |w.results|))
  }

  /** The two worlds have the same transport. */
  predicate SameTransport(w: World, w': World) {
    && w'.sink == w.sink && w'.entered == w.entered && w'.ran == w.ran && w'.results == w.results
    && w'.failed == w.failed
  }

  lemma SameChained(w: World, w': World)
    requires Chained(w) && SameTransport(w, w')
    ensures Chained(w')
  {
  }

  lemma SettleChained(w: World, answer: Answer<nat>)
    requires Chained(w)
    ensures Chained(Settle(w, answer).0)
  {
    if w.sink.Future? && answer.Done? {
      var w' := Settle(w, answer).0;
      forall k | 0 <= k < |w'.ran| ensures w'.ran[k] == StateFor(w'.results, k) {
        assert w.ran[k] == StateFor(w.results, k);
      }
    }
  }

  lemma EnterChained(w: World, u: nat, m: Message)
    requires Chained(w)
    ensures Chained(Enter(w, u, m))
  {
  }

  lemma OfferChained(w: World, u: nat, holding: bool, m: Message, answer: Answer<nat>)
    requires Chained(w)
    ensures Chained(Offer(w, u, holding, m, answer).0)
  {
    SettleChained(w, answer);
    EnterChained(Settle(w, answer).0, u, m);
  }

  lemma ReadChained(w: World, u: nat, answer: Answer<nat>)
    requires Chained(w) && u < |w.agents| && w.agents[u].half.ReadHalf? && w.agents[u].half.reader.readCnt < U32_MAX
    ensures Chained(PollRead(w, u, answer))
  {
    var r := w.agents[u].half.reader;
    OfferChained(w, u, r.holding, Update(SatAdd(r.credit, Counted(r))), answer);
  }

  lemma AfterReadySame(w: World, u: nat, reply: Reply)
    requires u < |w.agents| && w.agents[u].half.WriteHalf?
    ensures SameTransport(w, AfterReady(w, u, reply))
  {
  }

  lemma ReadyChained(w: World, u: nat, answer: Answer<nat>)
    requires Chained(w) && u < |w.agents| && w.agents[u].half.WriteHalf?
    ensures Chained(PollWriteReady(w, u, answer))
  {
    var h := w.agents[u].half;
    if WriterAsks(h.writer, h.tracks) {
      OfferChained(w, u, h.writer.holding, Data(h.writer.chunk.value), answer);
      var (w1, reply) := Offer(w, u, h.writer.holding, Data(h.writer.chunk.value), answer);
      AfterReadySame(w1, u, reply);
    }
  }

  lemma FlushRestChained(w: World, u: nat, reply: Reply, second: Answer<nat>)
    requires Chained(w) && u < |w.agents| && w.agents[u].half.WriteHalf?
    ensures Chained(FlushRest(w, u, reply, second))
  {
    SettleChained(w, second);
    var w2 := if reply.Accepted? then Settle(w, second).0 else w;
    assert SameTransport(w2, FlushRest(w, u, reply, second));
    SameChained(w2, FlushRest(w, u, reply, second));
  }

  lemma FlushChained(w: World, u: nat, first: Answer<nat>, second: Answer<nat>)
    requires Chained(w) && u < |w.agents| && w.agents[u].half.WriteHalf?
    ensures Chained(PollWriteFlush(w, u, first, second))
  {
    var wr := w.agents[u].half.writer;
    if GetsLock(w, wr.holding) {
      var w1, reply := w, Accepted;
      if wr.chunk.Some? {
        OfferChained(w, u, wr.holding, Data(wr.chunk.value), first);
        w1 := Offer(w, u, wr.holding, Data(wr.chunk.value), first).0;
        reply := Offer(w, u, wr.holding, Data(wr.chunk.value), first).1;
      }
      FlushRestChained(w1, u, reply, second);
    }
  }

  lemma ActorRestChained(w: World, u: nat, reply: Reply, second: Answer<nat>)
    requires Chained(w) && u < |w.agents| && w.agents[u].half.Actor?
    ensures Chained(ActorRest(w, u, reply, second))
  {
    SettleChained(w, second);
    var w2 := if reply.Accepted? then Settle(w, second).0 else w;
    assert SameTransport(w2, ActorRest(w, u, reply, second));
    SameChained(w2, ActorRest(w, u, reply, second));
  }

  lemma ActorChained(w: World, u: nat, first: Answer<nat>, second: Answer<nat>)
    requires Chained(w) && u < |w.agents| && w.agents[u].half.Actor?
    ensures Chained(PollActor(w, u, first, second))
  {
    var slot := w.agents[u].half.slot;
    if GetsLock(w, slot.holding) {
      var w1, reply := w, Accepted;
      if slot.chunk.Some? {
        OfferChained(w, u, slot.holding, Data(slot.chunk.value), first);
        w1 := Offer(w, u, slot.holding, Data(slot.chunk.value), first).0;
        reply := Offer(w, u, slot.holding, Data(slot.chunk.value), first).1;
      }
      ActorRestChained(w1, u, reply, second);
    }
  }

  /** A step that polls nothing leaves the transport alone. */
  lemma OthersChained(p: Policy, w: World, step: Step)
    requires Next(p, w, step).Some?
    requires !step.PollNextOf? && !step.PollReadyOf? && !step.PollFlushOf? && !step.ActorPoll?
    ensures SameTransport(w, Next(p, w, step).value)
  {
  }

  lemma ChainedNext(p: Policy, w: World, step: Step)
    requires Chained(w) && Next(p, w, step).Some?
    ensures Chained(Next(p, w, step).value)
  {
    match step
    case PollNextOf(u, answer) => ReadChained(w, u, answer);
    case PollReadyOf(u, answer) => ReadyChained(w, u, answer);
    case PollFlushOf(u, first, second) => FlushChained(w, u, first, second);
    case ActorPoll(u, first, second) => ActorChained(w, u, first, second);
    case _ => OthersChained(p, w, step);
  }

  lemma {:induction false} ExecChained(p: Policy, w: World, steps: seq<Step>)
    requires Chained(w) && Exec(p, w, steps).Some?
    ensures Chained(Exec(p, w, steps).value)
    decreases |steps|
  {
    if steps != [] {
      ChainedNext(p, w, steps[0]);
      ExecChained(p, Next(p, w, steps[0]).value, steps[1..]);
    }
  }

  /** In every run the function is called on the initial state first, and on every later payload with exactly the state
      that the future of the payload before it has returned; no future that failed is followed by a call. */
  lemma StatesAreThreaded(p: Policy, w: World)
    requires Reachable(p, w)
    ensures |w.ran| == |w.entered| <= |w.results| + 1
    ensures forall k :: 0 <= k < |w.ran| ==> w.ran[k] == if k == 0 then 0 else w.results[k - 1]
  {
    var steps :| Exec(p, Init(), steps) == Option.Some(w);
    ExecChained(p, Init(), steps);
  }
}
