/** Exactly when every wakeup of the transport lock gets somewhere, with the runs in which one is wasted. */
module WakeLimits {
  import opened Common
  import opened FlowSpec
  import opened UnfoldSink
  import opened TransportSystem
  import opened TransportContract
  import opened WakeSystem

  lemma {:induction false} RunConcat(c: Care, s: Sched, first: seq<(Step, Option<nat>)>, rest: seq<(Step, Option<nat>)>)
    requires WakeSystem.Exec(c, s, first).Some?
    ensures WakeSystem.Exec(c, s, first + rest) == WakeSystem.Exec(c, WakeSystem.Exec(c, s, first).value, rest)
    decreases |first|
  {
    if first == [] {
      assert first + rest == rest;
    } else {
      assert (first + rest)[1..] == first[1..] + rest;
      RunConcat(c, WakeSystem.Next(c, s, first[0].0, first[0].1).value, first[1..], rest);
    }
  }

  lemma Step1(c: Care, s: Sched, step: Step, pick: Option<nat>) returns (s': Sched)
    requires WakeSystem.Reachable(c, s) && WakeSystem.Next(c, s, step, pick).Some?
    ensures s' == WakeSystem.Next(c, s, step, pick).value && WakeSystem.Reachable(c, s')
  {
    s' := WakeSystem.Next(c, s, step, pick).value;
    var before :| WakeSystem.Exec(c, WakeSystem.Init(), before) == Option.Some(s);
    RunConcat(c, WakeSystem.Init(), before, [(step, pick)]);
    assert [(step, pick)][1..] == [];
  }

  /** A step that is not about the lock. */
  lemma PlainStep(c: Care, s: Sched, step: Step, w': World) returns (s': Sched)
    requires WakeSystem.Reachable(c, s) && !Polls(step) && !step.Drop? && !step.Cancel?
    requires TransportSystem.Next(c.policy, s.world, step) == Option.Some(w') && !w'.panicked
    ensures s' == Sched(w', s.slab) && WakeSystem.Reachable(c, s')
  {
    PlainNext(c, s, step, w');
    s' := Step1(c, s, step, None);
  }

  lemma PlainNext(c: Care, s: Sched, step: Step, w': World)
    requires !Polls(step) && !step.Drop? && !step.Cancel?
    requires TransportSystem.Next(c.policy, s.world, step) == Option.Some(w') && !w'.panicked
    ensures WakeSystem.Next(c, s, step, None) == Option.Some(Sched(w', s.slab))
  {
  }

  /** A poll that does not ask for the lock, of a half that was woken or is not queued. */
  lemma QuietPollNext(c: Care, s: Sched, step: Step, w': World)
    requires Polls(step) && step.u < |s.world.agents| && !Consults(s.world.agents[step.u].half, step)
    requires Careful(c, s, step) && (step.u in s.slab ==> s.slab[step.u].Alerted?)
    requires TransportSystem.Next(c.policy, s.world, step) == Option.Some(w') && !w'.panicked
    ensures WakeSystem.Next(c, s, step, None) ==
            Option.Some(Sched(w', if step.u in s.slab then s.slab[step.u := Spent] else s.slab))
  {
  }

  // ---------- Two halves ----------

  /** A writing half without credit tracking at various points. */
  const Idle := FreshWriter(false, 0)
  const Flushing := WriteHalf(Writer(true, None, 0, false, true), false, Flush, false)
  const Flushed0 := WriteHalf(Writer(true, None, 0, false, false), false, Flush, false)

  /** Two halves, none of them an actor; the transport works on something exactly while the lock is held. */
  predicate Pair(s: Sched, a: Half, b: Half, locked: bool, slab: map<nat, Ticket>) {
    && |s.world.agents| == 2 && s.world.agents[0].half == a && s.world.agents[1].half == b && !a.Actor? && !b.Actor?
    && s.world.locked == locked && s.slab == slab && !s.world.panicked
    && (if locked then s.world.sink.Future? else s.world.sink.Value?)
  }

  lemma TwoJoin(c: Care, b: Half, join: Step) returns (s: Sched)
    requires (join.JoinWriter? && b == FreshWriter(join.tracks, join.bufferSize)) ||
             (join.JoinReader? && b == FreshReader(join.updates, join.bufferSize))
    ensures WakeSystem.Reachable(c, s) && Pair(s, Idle, b, false, map[])
  {
    s := OneJoins(c);
    JoinNext(c.policy, s.world, b, join);
    s := PlainStep(c, s, join, s.world.(agents := s.world.agents + [Agent(b, [])]));
  }

  lemma JoinNext(p: Policy, w: World, b: Half, join: Step)
    requires !w.panicked && ActorsIdle(w)
    requires (join.JoinWriter? && b == FreshWriter(join.tracks, join.bufferSize)) ||
             (join.JoinReader? && b == FreshReader(join.updates, join.bufferSize))
    ensures TransportSystem.Next(p, w, join) == Option.Some(w.(agents := w.agents + [Agent(b, [])]))
  {
  }

  lemma OneJoins(c: Care) returns (s: Sched)
    ensures WakeSystem.Reachable(c, s)
    ensures s == Sched(TransportSystem.Init().(agents := [Agent(Idle, [])]), map[])
  {
    var s0, join := WakeSystem.Init(), JoinWriter(false, 0);
    assert WakeSystem.Exec(c, s0, []) == Option.Some(s0);
    JoinNext(c.policy, s0.world, Idle, join);
    assert s0.world.agents + [Agent(Idle, [])] == [Agent(Idle, [])];
    s := PlainStep(c, s0, join, s0.world.(agents := [Agent(Idle, [])]));
  }

  const IdleReady := WriteHalf(Writer(true, None, 0, false, false), false, Ready, true)
  const Stored := WriteHalf(Writer(true, Some([]), 0, false, false), false, Ready, false)

  lemma FirstSends(c: Care, s: Sched, b: Half) returns (s': Sched)
    requires WakeSystem.Reachable(c, s) && Pair(s, Idle, b, false, map[])
    ensures WakeSystem.Reachable(c, s') && Pair(s', Stored, b, false, map[])
  {
    var w1 := ReadyNext(c.policy, s.world);
    QuietPollNext(c, s, PollReadyOf(0, StillPending), w1);
    var s1 := Step1(c, s, PollReadyOf(0, StillPending), None);
    var w2 := StoreNext(c.policy, w1);
    s' := PlainStep(c, s1, SendOf(0, []), w2);
  }

  lemma ReadyNext(p: Policy, w: World) returns (w': World)
    requires |w.agents| > 0 && w.agents[0].half == Idle && !w.panicked
    ensures TransportSystem.Next(p, w, PollReadyOf(0, StillPending)) == Option.Some(w')
    ensures w' == Put(w, 0, IdleReady, [], w.locked)
  {
    w' := Put(w, 0, IdleReady, [], w.locked);
  }

  lemma StoreNext(p: Policy, w: World) returns (w': World)
    requires |w.agents| > 0 && w.agents[0].half == IdleReady && !w.panicked
    ensures TransportSystem.Next(p, w, SendOf(0, [])) == Option.Some(w')
    ensures w' == Put(w, 0, Stored, [Data([])], w.locked)
  {
    w' := Put(w, 0, Stored, [Data([])], w.locked);
  }

  lemma FlushTakes(w: World)
    requires |w.agents| == 2 && w.agents[0].half == Stored && !w.locked && w.sink.Value? && !w.panicked
    ensures var w' := PollWriteFlush(w, 0, StillPending, StillPending);
      && w'.agents[0].half == Flushing && w'.locked && w'.sink.Future? && !w'.panicked
  {
  }

  /** The first half sends an item and waits for the flush, with the lock. */
  lemma FirstHolds(c: Care, s: Sched, b: Half) returns (s': Sched)
    requires WakeSystem.Reachable(c, s) && Pair(s, Idle, b, false, map[])
    ensures WakeSystem.Reachable(c, s') && Pair(s', Flushing, b, true, map[])
  {
    var s1 := FirstSends(c, s, b);
    s' := FirstFlushes(c, s1, b);
  }

  lemma FirstFlushes(c: Care, s: Sched, b: Half) returns (s': Sched)
    requires WakeSystem.Reachable(c, s) && Pair(s, Stored, b, false, map[])
    ensures WakeSystem.Reachable(c, s') && Pair(s', Flushing, b, true, map[])
  {
    FlushTakes(s.world);
    var step := PollFlushOf(0, StillPending, StillPending);
    assert TransportSystem.Next(c.policy, s.world, step) ==
           Option.Some(PollWriteFlush(s.world, 0, StillPending, StillPending));
    s' := Step1(c, s, step, None);
  }

  // ---------- The actor waits as well ----------

  const Waiting := Actor(Writer(true, Some([]), 0, false, false), true, false, false)

  /** The lock is free again, the second half was woken, and an actor sleeps in the queue. */
  predicate Woken(s: Sched, b: Half, t: Ticket) {
    && |s.world.agents| == 3 && s.world.agents[0].half == Flushed0 && s.world.agents[1].half == b
    && s.world.agents[2].half == Waiting
    && !s.world.locked && !s.world.panicked && s.world.sink.Value? && s.slab == map[1 := t, 2 := Asleep]
  }

  lemma ActorQueues(c: Care, s: Sched, b: Half) returns (s': Sched)
    requires WakeSystem.Reachable(c, s) && Pair(s, Flushing, b, true, map[1 := Asleep])
    ensures WakeSystem.Reachable(c, s') && Trio(s', b, map[1 := Asleep, 2 := Asleep])
  {
    var s1 := ActorBegins(c, s, b);
    s' := ActorAsks(c, s1, b);
  }

  predicate Trio(s: Sched, b: Half, slab: map<nat, Ticket>) {
    && |s.world.agents| == 3 && s.world.agents[0].half == Flushing && s.world.agents[1].half == b
    && s.world.agents[2].half == Waiting && s.slab == slab
    && s.world.locked && !s.world.panicked && s.world.sink.Future?
  }

  lemma ActorBegins(c: Care, s: Sched, b: Half) returns (s': Sched)
    requires WakeSystem.Reachable(c, s) && Pair(s, Flushing, b, true, map[1 := Asleep])
    ensures WakeSystem.Reachable(c, s') && Trio(s', b, map[1 := Asleep])
  {
    var w1 := s.world.(agents := s.world.agents + [Agent(FreshActor, [])]);
    var s1 := PlainStep(c, s, JoinActor, w1);
    var w2 := BeginNext(c.policy, w1);
    s' := PlainStep(c, s1, ActorSend(2, [], false), w2);
  }

  lemma BeginNext(p: Policy, w: World) returns (w': World)
    requires |w.agents| == 3 && w.agents[2] == Agent(FreshActor, []) && !w.panicked
    ensures TransportSystem.Next(p, w, ActorSend(2, [], false)) == Option.Some(w')
    ensures w' == Put(w, 2, Waiting, [Data([])], w.locked)
  {
    w' := Put(w, 2, Waiting, [Data([])], w.locked);
  }

  lemma ActorAsks(c: Care, s: Sched, b: Half) returns (s': Sched)
    requires WakeSystem.Reachable(c, s) && Trio(s, b, map[1 := Asleep])
    ensures WakeSystem.Reachable(c, s') && Trio(s', b, map[1 := Asleep, 2 := Asleep])
  {
    var step := ActorPoll(2, StillPending, StillPending);
    assert PollActor(s.world, 2, StillPending, StillPending) == s.world;
    assert TransportSystem.Next(c.policy, s.world, step) == Option.Some(s.world);
    s' := Step1(c, s, step, None);
  }

  lemma FlushEnds(w: World)
    requires |w.agents| == 3 && w.agents[0].half == Flushing && w.locked && w.sink.Future? && !w.panicked
    ensures var w' := PollWriteFlush(w, 0, Done(0), Done(0));
      && w'.agents[0].half == Flushed0 && !w'.locked && w'.sink.Value? && !w'.panicked
  {
  }

  lemma WakesSecond(c: Care, s: Sched, b: Half) returns (s': Sched)
    requires WakeSystem.Reachable(c, s) && Pair(s, Flushing, b, true, map[1 := Asleep])
    ensures WakeSystem.Reachable(c, s') && Woken(s', b, Alerted)
  {
    var s1 := ActorQueues(c, s, b);
    s' := FirstUnlocks(c, s1, b);
  }

  /** The owner flushes, gives the lock back and wakes the second half. */
  lemma UnlockNext(c: Care, s: Sched, step: Step, w': World)
    requires TransportSystem.Next(c.policy, s.world, step) == Option.Some(w') && step.PollFlushOf? && step.u == 0
    requires |s.world.agents| == |w'.agents| == 3 && s.world.agents[0].half == Flushing
    requires w'.agents[0].half == Flushed0 && !w'.panicked
    requires s.slab == map[1 := Asleep, 2 := Asleep]
    ensures WakeSystem.Next(c, s, step, Some(1)) == Option.Some(Sched(w', map[1 := Alerted, 2 := Asleep]))
  {
    assert Queued(s, step) == s.slab;
    assert s.slab[1 := Alerted] == map[1 := Alerted, 2 := Asleep];
  }

  lemma FirstUnlocks(c: Care, s: Sched, b: Half) returns (s': Sched)
    requires WakeSystem.Reachable(c, s) && Trio(s, b, map[1 := Asleep, 2 := Asleep])
    ensures WakeSystem.Reachable(c, s') && Woken(s', b, Alerted)
  {
    FlushEnds(s.world);
    var step := PollFlushOf(0, Done(0), Done(0));
    var w' := PollWriteFlush(s.world, 0, Done(0), Done(0));
    assert TransportSystem.Next(c.policy, s.world, step) == Option.Some(w');
    UnlockNext(c, s, step, w');
    s' := Step1(c, s, step, Some(1));
  }

  // ---------- Wasted wakeups ----------

  lemma SpentIsLost(s: Sched, b: Half)
    requires Woken(s, b, Spent)
    ensures Lost(s)
  {
    assert Waits(s, 2, Asleep);
  }

  /** The woken half is polled without asking for the lock. */
  lemma SkipLoses(c: Care, s: Sched, b: Half, step: Step, b': Half) returns (s': Sched)
    requires WakeSystem.Reachable(c, s) && Woken(s, b, Alerted) && Polls(step) && step.u == 1 && Careful(c, s, step)
    requires !Consults(b, step)
    requires TransportSystem.Next(c.policy, s.world, step) == Option.Some(Put(s.world, 1, b', [], false))
    ensures WakeSystem.Reachable(c, s') && Woken(s', b', Spent) && Lost(s')
  {
    QuietPollNext(c, s, step, Put(s.world, 1, b', [], false));
    s' := Step1(c, s, step, None);
    SpentIsLost(s', b');
  }

  /** A half that waits to flush an empty slot is dropped after it was woken. */
  lemma DroppedHalfLoses(c: Care) returns (s: Sched)
    requires c.drops
    ensures WakeSystem.Reachable(c, s) && Lost(s)
  {
    s := TwoJoin(c, Idle, JoinWriter(false, 0));
    s := FirstHolds(c, s, Idle);
    s := SecondFlushes(c, s, Idle);
    s := WakesSecond(c, s, Flushed0);
    s := DropLoses(c, s);
  }

  /** A half that does not own the lock is dropped. */
  lemma DropNext(c: Care, s: Sched, u: nat)
    requires u < |s.world.agents| && !s.world.panicked && (c.drops || u !in s.slab)
    requires !s.world.agents[u].half.Gone? && !Holding(s.world.agents[u].half)
    ensures WakeSystem.Next(c, s, Drop(u), None) ==
            Option.Some(Sched(Put(s.world, u, Gone, [], s.world.locked), s.slab))
  {
  }

  lemma DropLoses(c: Care, s: Sched) returns (s': Sched)
    requires c.drops && WakeSystem.Reachable(c, s) && Woken(s, Flushed0, Alerted)
    ensures WakeSystem.Reachable(c, s') && Lost(s')
  {
    DropNext(c, s, 1);
    s' := Step1(c, s, Drop(1), None);
    assert Waits(s', 2, Asleep);
  }

  const Cancelled0 := WriteHalf(Writer(true, None, 0, false, false), false, Cancelled, false)

  /** A flush that was woken is cancelled, and the half is kept: nobody takes the lock. */
  lemma CancelledHalfLoses(c: Care) returns (s: Sched)
    requires c.policy.cancels
    ensures WakeSystem.Reachable(c, s) && Lost(s) && Woken(s, Cancelled0, Spent)
  {
    s := TwoJoin(c, Idle, JoinWriter(false, 0));
    s := FirstHolds(c, s, Idle);
    s := SecondFlushes(c, s, Idle);
    s := WakesSecond(c, s, Flushed0);
    s := CancelLoses(c, s);
  }

  lemma CancelNext(c: Care, s: Sched)
    requires c.policy.cancels && Woken(s, Flushed0, Alerted)
    ensures WakeSystem.Next(c, s, Cancel(1), None) ==
            Option.Some(Sched(Put(s.world, 1, Cancelled0, [], false), s.slab[1 := Spent]))
  {
  }

  lemma CancelLoses(c: Care, s: Sched) returns (s': Sched)
    requires c.policy.cancels && WakeSystem.Reachable(c, s) && Woken(s, Flushed0, Alerted)
    ensures WakeSystem.Reachable(c, s') && Lost(s') && Woken(s', Cancelled0, Spent)
  {
    CancelNext(c, s);
    s' := Step1(c, s, Cancel(1), None);
    SpentIsLost(s', Cancelled0);
  }

  /** The second half asks for the lock to flush. */
  lemma SecondFlushes(c: Care, s: Sched, b: Half) returns (s': Sched)
    requires WakeSystem.Reachable(c, s) && Pair(s, Flushing, b, true, map[]) && b.WriteHalf? && !b.writer.holding
    ensures WakeSystem.Reachable(c, s') && Pair(s', Flushing, b.(last := Flush), true, map[1 := Asleep])
  {
    s' := Step1(c, s, PollFlushOf(1, StillPending, StillPending), None);
  }

  // ---------- A closed reader ----------

  function ReaderAt(connected: bool, queue: seq<Bytes>, chunk: Option<Bytes>, readCnt: u32, credit: u32): Half {
    ReadHalf(Reader(connected, queue, chunk, readCnt, credit, false), true, 0, Some(1), false)
  }

  /** A reading half has a chunk that makes a Continue packet due. */
  lemma ReaderReady(c: Care) returns (s: Sched)
    ensures WakeSystem.Reachable(c, s) && Pair(s, Flushing, ReaderAt(true, [[]], None, 0, 0), true, map[])
  {
    s := TwoJoin(c, ReaderAt(true, [], None, 0, 1), JoinReader(true, 1));
    var one: seq<Bytes> := [[]];
    assert [] + one == one;
    s := Step1(c, s, Arrive(1, []), None);
    s := FirstHolds(c, s, ReaderAt(true, [[]], None, 0, 0));
  }

  /** A poll that asks for the lock in vain. */
  lemma VainNext(c: Care, s: Sched, step: Step, w': World)
    requires Polls(step) && step.u < |s.world.agents| && Consults(s.world.agents[step.u].half, step)
    requires !GetsLock(s.world, Holding(s.world.agents[step.u].half)) && Careful(c, s, step)
    requires TransportSystem.Next(c.policy, s.world, step) == Option.Some(w') && !w'.panicked
    ensures WakeSystem.Next(c, s, step, None) == Option.Some(Sched(w', s.slab[step.u := Asleep]))
  {
  }

  lemma ReaderAsksInVain(c: Care, s: Sched) returns (s': Sched)
    requires WakeSystem.Reachable(c, s) && Pair(s, Flushing, ReaderAt(true, [[]], None, 0, 0), true, map[])
    ensures WakeSystem.Reachable(c, s')
    ensures Pair(s', Flushing, ReaderAt(true, [], Some([]), 1, 0), true, map[1 := Asleep])
  {
    var one: seq<Bytes> := [[]];
    assert one[1..] == [];
    var w' := Put(s.world, 1, ReaderAt(true, [], Some([]), 1, 0), [], s.world.locked);
    assert TransportSystem.Next(c.policy, s.world, PollNextOf(1, StillPending)) == Option.Some(w');
    VainNext(c, s, PollNextOf(1, StillPending), w');
    s' := Step1(c, s, PollNextOf(1, StillPending), None);
  }

  lemma ReaderCloses(c: Care, s: Sched) returns (s': Sched)
    requires c.policy.closes && WakeSystem.Reachable(c, s)
    requires Pair(s, Flushing, ReaderAt(true, [], Some([]), 1, 0), true, map[1 := Asleep])
    ensures WakeSystem.Reachable(c, s')
    ensures Pair(s', Flushing, ReaderAt(false, [], Some([]), 1, 0), true, map[1 := Asleep])
  {
    var w' := Put(s.world, 1, ReaderAt(false, [], Some([]), 1, 0), [], s.world.locked);
    assert TransportSystem.Next(c.policy, s.world, Close(1)) == Option.Some(w');
    s' := PlainStep(c, s, Close(1), w');
  }

  /** A reading half whose stream is closed while it waits for the lock returns without asking for it. */
  lemma ClosedHalfLoses(c: Care) returns (s: Sched)
    requires c.policy.closes
    ensures WakeSystem.Reachable(c, s) && Lost(s)
  {
    s := ReaderReady(c);
    s := ReaderAsksInVain(c, s);
    var closed := ReaderAt(false, [], Some([]), 1, 0);
    s := ReaderCloses(c, s);
    s := WakesSecond(c, s, closed);
    s := SkipLoses(c, s, closed, PollNextOf(1, StillPending), closed);
  }

  // ---------- A writer without credit ----------

  function WriterAt(chunk: Option<Bytes>, credit: u32, parked: bool, last: Operation, ready: bool): Half {
    WriteHalf(Writer(true, chunk, credit, parked, false), true, last, ready)
  }

  /** A tracked writing half with one unit of credit has taken an item. */
  lemma SecondSends(c: Care) returns (s: Sched)
    ensures WakeSystem.Reachable(c, s) && Pair(s, Idle, WriterAt(Some([]), 1, false, Ready, false), false, map[])
  {
    s := TwoJoin(c, WriterAt(None, 1, false, Ready, false), JoinWriter(true, 1));
    s := SecondIsReady(c, s);
    var w' := SecondStores(c.policy, s.world);
    s := PlainStep(c, s, SendOf(1, []), w');
  }

  lemma SecondStores(p: Policy, w: World) returns (w': World)
    requires |w.agents| > 1 && w.agents[1].half == WriterAt(None, 1, false, Ready, true) && !w.panicked
    ensures TransportSystem.Next(p, w, SendOf(1, [])) == Option.Some(w')
    ensures w' == Put(w, 1, WriterAt(Some([]), 1, false, Ready, false), [Data([])], w.locked)
  {
    w' := Put(w, 1, WriterAt(Some([]), 1, false, Ready, false), [Data([])], w.locked);
  }

  lemma SecondIsReady(c: Care, s: Sched) returns (s': Sched)
    requires WakeSystem.Reachable(c, s) && Pair(s, Idle, WriterAt(None, 1, false, Ready, false), false, map[])
    ensures WakeSystem.Reachable(c, s') && Pair(s', Idle, WriterAt(None, 1, false, Ready, true), false, map[])
  {
    var w' := Put(s.world, 1, WriterAt(None, 1, false, Ready, true), [], s.world.locked);
    assert TransportSystem.Next(c.policy, s.world, PollReadyOf(1, StillPending)) == Option.Some(w');
    QuietPollNext(c, s, PollReadyOf(1, StillPending), w');
    s' := Step1(c, s, PollReadyOf(1, StillPending), None);
  }

  lemma FlushSpends(w: World)
    requires |w.agents| == 2 && w.agents[1].half == WriterAt(Some([]), 1, false, Ready, false)
    requires !w.locked && w.sink.Value? && !w.panicked
    ensures var w' := PollWriteFlush(w, 1, StillPending, Done(0));
      && w'.agents[1].half == WriterAt(None, 0, false, Flush, false) && !w'.locked && w'.sink.Value? && !w'.panicked
  {
  }

  /** It flushes the item, which uses up its credit, and later waits for the lock to flush again. */
  lemma SecondSpends(c: Care) returns (s: Sched)
    ensures WakeSystem.Reachable(c, s)
    ensures Pair(s, Flushing, WriterAt(None, 0, false, Flush, false), true, map[1 := Asleep])
  {
    s := SecondSends(c);
    FlushSpends(s.world);
    var step := PollFlushOf(1, StillPending, Done(0));
    assert TransportSystem.Next(c.policy, s.world, step) ==
           Option.Some(PollWriteFlush(s.world, 1, StillPending, Done(0)));
    s := Step1(c, s, step, None);
    s := FirstHolds(c, s, WriterAt(None, 0, false, Flush, false));
    s := SecondFlushes(c, s, WriterAt(None, 0, false, Flush, false));
  }

  /** `poll_ready` of a writing half without credit waits for credit. */
  lemma CreditlessNext(p: Policy, w: World, chunk: Option<Bytes>, last: Operation)
    requires |w.agents| > 1 && w.agents[1].half == WriterAt(chunk, 0, false, last, false) && !w.panicked
    ensures TransportSystem.Next(p, w, PollReadyOf(1, StillPending)) ==
            Option.Some(Put(w, 1, WriterAt(chunk, 0, true, Ready, false), [], w.locked))
  {
  }

  lemma CreditlessLoses(c: Care, s: Sched, chunk: Option<Bytes>, last: Operation) returns (s': Sched)
    requires WakeSystem.Reachable(c, s) && Woken(s, WriterAt(chunk, 0, false, last, false), Alerted)
    requires last.Flush? ==> c.policy.eager
    ensures WakeSystem.Reachable(c, s') && Lost(s') && Woken(s', WriterAt(chunk, 0, true, Ready, false), Spent)
  {
    var step := PollReadyOf(1, StillPending);
    CreditlessNext(c.policy, s.world, chunk, last);
    s' := SkipLoses(c, s, WriterAt(chunk, 0, false, last, false), step, WriterAt(chunk, 0, true, Ready, false));
  }

  /** A writing half without credit is polled by `poll_ready` while it waits for the lock to flush. */
  lemma EagerHalfLoses(c: Care) returns (s: Sched)
    requires c.policy.eager
    ensures WakeSystem.Reachable(c, s) && Lost(s) && Woken(s, WriterAt(None, 0, true, Ready, false), Spent)
  {
    s := SecondSpends(c);
    s := WakesSecond(c, s, WriterAt(None, 0, false, Flush, false));
    s := CreditlessLoses(c, s, None, Flush);
  }

  lemma SecondAsks(c: Care, s: Sched) returns (s': Sched)
    requires WakeSystem.Reachable(c, s) && Pair(s, Flushing, WriterAt(Some([]), 1, false, Ready, false), true, map[])
    ensures WakeSystem.Reachable(c, s')
    ensures Pair(s', Flushing, WriterAt(Some([]), 1, false, Ready, false), true, map[1 := Asleep])
  {
    s' := Step1(c, s, PollReadyOf(1, StillPending), None);
  }

  lemma CreditIsZeroed(c: Care, s: Sched) returns (s': Sched)
    requires c.policy.zeroUpdates && WakeSystem.Reachable(c, s)
    requires Pair(s, Flushing, WriterAt(Some([]), 1, false, Ready, false), true, map[1 := Asleep])
    ensures WakeSystem.Reachable(c, s')
    ensures Pair(s', Flushing, WriterAt(Some([]), 0, false, Ready, false), true, map[1 := Asleep])
  {
    var w' := Put(s.world, 1, WriterAt(Some([]), 0, false, Ready, false), [], s.world.locked);
    assert TransportSystem.Next(c.policy, s.world, Continue(1, 0)) == Option.Some(w');
    s' := PlainStep(c, s, Continue(1, 0), w');
  }

  lemma ZeroedWaits(c: Care) returns (s: Sched)
    requires c.policy.zeroUpdates
    ensures WakeSystem.Reachable(c, s)
    ensures Pair(s, Flushing, WriterAt(Some([]), 0, false, Ready, false), true, map[1 := Asleep])
  {
    s := SecondSends(c);
    s := FirstHolds(c, s, WriterAt(Some([]), 1, false, Ready, false));
    s := SecondAsks(c, s);
    s := CreditIsZeroed(c, s);
  }

  /** A writing half loses its credit while it waits for the lock in `poll_ready`. */
  lemma ZeroedHalfLoses(c: Care) returns (s: Sched)
    requires c.policy.zeroUpdates
    ensures WakeSystem.Reachable(c, s) && Lost(s) && Woken(s, WriterAt(Some([]), 0, true, Ready, false), Spent)
  {
    s := ZeroedWaits(c);
    s := WakesSecond(c, s, WriterAt(Some([]), 0, false, Ready, false));
    s := CreditlessLoses(c, s, Some([]), Ready);
  }

  // ---------- Exactly when ----------

  /** No wakeup is ever wasted exactly if halves are not dropped while they wait for the lock, no operation is
      cancelled, streams are not closed under their halves, `poll_ready` is not called while a flush is pending, and no
      credit of 0 is advertised. */
  lemma WakeupKeptExactly(c: Care)
    ensures WakeupKept(c) <==> !c.drops && Attentive(c.policy)
  {
    if c.drops {
      var s := DroppedHalfLoses(c);
    } else if c.policy.closes {
      var s := ClosedHalfLoses(c);
    } else if c.policy.cancels {
      var s := CancelledHalfLoses(c);
    } else if c.policy.eager {
      var s := EagerHalfLoses(c);
    } else if c.policy.zeroUpdates {
      var s := ZeroedHalfLoses(c);
    } else {
      forall s | WakeSystem.Reachable(c, s) ensures !Lost(s) {
        var run :| WakeSystem.Exec(c, WakeSystem.Init(), run) == Option.Some(s);
        ExecSteady(c, WakeSystem.Init(), None, run);
        if v :| v in s.slab && s.slab[v].Alerted? { assert Waits(s, v, Alerted); }
      }
    }
  }

  // ---------- Deadlock on a free lock ----------

  /** What can happen while all tasks are polled only when they are woken and nobody gives up: a poll of a task in the
      lock's queue needs its wakeup, and a half whose task waits for credit, or whose operation was cancelled, is left
      alone. */
  predicate WakeDriven(s: Sched, step: Step) {
    && !step.Drop? && !step.Cancel? && !step.JoinActor?
    && (!Joins(step) && step.u < |s.world.agents| ==>
          && !(Polls(step) && step.u in s.slab && !s.slab[step.u].Alerted?)
          && !(LeftAlone(s.world.agents[step.u].half) && Polls(step)))
  }

  predicate LeftAlone(h: Half) {
    Abandoned(h) || (h.WriteHalf? && h.writer.parked)
  }

  predicate Dead(s: Sched) {
    && |s.world.agents| == 3 && s.world.agents[0].half == Gone && s.world.agents[2].half == Waiting
    && s.world.agents[1].half.WriteHalf? && LeftAlone(s.world.agents[1].half) && !s.world.agents[1].half.ready
    && !s.world.locked && !s.world.panicked && s.slab == map[1 := Spent, 2 := Asleep]
  }

  lemma FirstLeaves(c: Care, s: Sched, b: Half) returns (s': Sched)
    requires WakeSystem.Reachable(c, s) && Woken(s, b, Spent) && b.WriteHalf? && LeftAlone(b) && !b.ready
    ensures WakeSystem.Reachable(c, s') && Dead(s')
  {
    DropNext(c, s, 0);
    s' := Step1(c, s, Drop(0), None);
  }

  lemma NothingHappens(c: Care, s: Sched, step: Step, pick: Option<nat>)
    requires Dead(s) && WakeDriven(s, step)
    ensures WakeSystem.Next(c, s, step, pick).None?
  {
    assert s.world.agents[2].half.busy;
    assert !ActorsIdle(s.world);
  }

  /** The lock is free, the actor sleeps in its queue with a packet to send, the only other half waits for credit the
      actor would have to deliver, or is not polled any more, and nothing can happen. */
  lemma FreeLockDeadlock(c: Care) returns (s: Sched)
    requires c.policy.cancels || c.policy.eager || c.policy.zeroUpdates
    ensures WakeSystem.Reachable(c, s) && !s.world.locked && Waits(s, 2, Asleep) && s.world.agents[2].half == Waiting
    ensures forall step, pick :: WakeDriven(s, step) ==> WakeSystem.Next(c, s, step, pick).None?
  {
    var b;
    if c.policy.cancels {
      b := Cancelled0;
      s := CancelledHalfLoses(c);
    } else if c.policy.eager {
      b := WriterAt(None, 0, true, Ready, false);
      s := EagerHalfLoses(c);
    } else {
      b := WriterAt(Some([]), 0, true, Ready, false);
      s := ZeroedHalfLoses(c);
    }
    s := FirstLeaves(c, s, b);
    forall step, pick | WakeDriven(s, step) ensures WakeSystem.Next(c, s, step, pick).None? {
      NothingHappens(c, s, step, pick);
    }
  }
}
