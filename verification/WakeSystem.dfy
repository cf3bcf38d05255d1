/** The shared transport together with the waiting queue of its lock: which tasks are woken, and when a wakeup is
    wasted.  One step is one poll; the choice of the waiter that an unlock wakes is left open. */
module WakeSystem {
  import opened Common
  import opened FlowSpec
  import opened UnfoldSink
  import opened TransportSystem
  import opened TransportContract

  /** The slab entry of a half: sleeping; woken, and the task has not run since; woken, and the wakeup used up. */
  datatype Ticket = Asleep | Alerted | Spent

  datatype Sched = Sched(world: World, slab: map<nat, Ticket>)

  /** `drops` says that halves may be dropped while they are on the slab. */
  datatype Care = Care(policy: Policy, drops: bool)

  predicate Polls(step: Step) {
    step.PollNextOf? || step.PollReadyOf? || step.PollFlushOf? || step.ActorPoll?
  }

  /** The poll gets as far as `poll_lock`. */
  predicate Consults(h: Half, step: Step)
    requires Polls(step)
  {
    match step
    case PollNextOf(_, _) => h.ReadHalf? && ReaderAsks(h.reader, h.updates, h.target)
    case PollReadyOf(_, _) => h.WriteHalf? && WriterAsks(h.writer, h.tracks)
    case _ => true
  }

  /** A poll of a reading half depends on what the lock and the transport answer exactly if it asks for the lock: the
      stream is open and a Continue packet is due. */
  lemma ReaderConsultsExactly(r: Reader, updates: bool, target: u32)
    requires r.readCnt < U32_MAX
    ensures (exists x, y :: PollNext(r, updates, target, x) != PollNext(r, updates, target, y)) <==>
      ReaderAsks(r, updates, target)
  {
    if ReaderAsks(r, updates, target) {
      assert PollNext(r, updates, target, LockPending).result.ReadPending?;
      assert PollNext(r, updates, target, Accepted).result.Chunk?;
    }
  }

  /** The same for `poll_ready` of a writing half: the actor is there, there is credit if it is tracked, and an item
      is stored. */
  lemma WriterConsultsExactly(wr: Writer, tracks: bool)
    ensures (exists x, y :: PollReady(wr, tracks, x) != PollReady(wr, tracks, y)) <==> WriterAsks(wr, tracks)
  {
    if WriterAsks(wr, tracks) {
      assert PollReady(wr, tracks, LockPending).result.WritePending?;
      assert PollReady(wr, tracks, Accepted).result.WriteReady?;
    }
  }

  /** `poll_flush` always asks for the lock. */
  lemma FlushConsults(wr: Writer, tracks: bool)
    ensures PollFlush(wr, tracks, LockPending, Flushed) != PollFlush(wr, tracks, Accepted, Flushed)
  {
  }

  /** A half whose stream was closed asks for the lock neither by reading nor by `poll_ready`. */
  lemma ClosedNeverAsks(p: Policy, w: World, u: nat, answer: Answer<nat>)
    requires TransportSystem.Next(p, w, Close(u)).Some?
    ensures var h := TransportSystem.Next(p, w, Close(u)).value.agents[u].half;
      !Consults(h, PollNextOf(u, answer)) && !Consults(h, PollReadyOf(u, answer))
  {
  }

  /** Nobody polls a half whose operation was cancelled until its caller starts another one. */
  lemma CancelledIsAbandoned(p: Policy, w: World, u: nat)
    requires TransportSystem.Next(p, w, Cancel(u)).Some?
    ensures var w' := TransportSystem.Next(p, w, Cancel(u)).value;
      && !Abandoned(w.agents[u].half) && Abandoned(w'.agents[u].half)
      && Holding(w'.agents[u].half) == Holding(w.agents[u].half) && w'.locked == w.locked
  {
  }

  // ---------- The machine ----------

  /** The slab after a poll, before any wakeup: the entry is removed with the lock, renewed without it, and a wakeup is
      used up if the task runs and does not ask for the lock, because the poll does not or because it is cancelled. */
  function Queued(s: Sched, step: Step): map<nat, Ticket> {
    if step.Cancel? && step.u in s.slab && s.slab[step.u].Alerted? then s.slab[step.u := Spent]
    else if !Polls(step) || step.u >= |s.world.agents| then s.slab
    else
      var h := s.world.agents[step.u].half;
      if Consults(h, step) then
        if GetsLock(s.world, Holding(h)) then s.slab - {step.u} else s.slab[step.u := Asleep]
      else if step.u in s.slab && s.slab[step.u].Alerted? then s.slab[step.u := Spent]
      else s.slab
  }

  /** The step gives the lock back. */
  predicate Unlocks(w: World, step: Step, w': World) {
    !Joins(step) && step.u < |w.agents| == |w'.agents| && !w'.panicked && !Holding(w'.agents[step.u].half) &&
    var h := w.agents[step.u].half;
    if step.Drop? then Holding(h) else Polls(step) && Consults(h, step) && GetsLock(w, Holding(h))
  }

  /** The waiter an unlock wakes: any sleeping one, and none only if there is none. */
  predicate Picks(slab: map<nat, Ticket>, pick: Option<nat>) {
    if pick.Some? then pick.value in slab && slab[pick.value].Asleep?
    else forall v :: v in slab ==> !slab[v].Asleep?
  }

  predicate Careful(c: Care, s: Sched, step: Step) {
    match step
    case Drop(u) => c.drops || u !in s.slab
    case PollReadyOf(u, _) =>
      c.policy.eager || !(u < |s.world.agents| && u in s.slab && s.world.agents[u].half.WriteHalf? &&
                          s.world.agents[u].half.last.Flush?)
    case _ => true
  }

  function Next(c: Care, s: Sched, step: Step, pick: Option<nat>): Option<Sched> {
    if !Careful(c, s, step) then None
    else
      match TransportSystem.Next(c.policy, s.world, step)
      case None => None
      case Some(w') =>
        var slab := if w'.panicked then s.slab else Queued(s, step);
        if !Unlocks(s.world, step, w') then (if pick.None? then Some(Sched(w', slab)) else None)
        else if !Picks(slab, pick) then None
        else Some(Sched(w', if pick.Some? then slab[pick.value := Alerted] else slab))
  }

  function Exec(c: Care, s: Sched, run: seq<(Step, Option<nat>)>): Option<Sched>
    decreases |run|
  {
    if run == [] then Some(s)
    else
      match Next(c, s, run[0].0, run[0].1)
      case None => None
      case Some(s') => Exec(c, s', run[1..])
  }

  function Init(): Sched {
    Sched(TransportSystem.Init(), map[])
  }

  ghost predicate Reachable(c: Care, s: Sched) {
    exists run :: Exec(c, Init(), run) == Option.Some(s)
  }

  // ---------- Wakeups ----------

  /** The half has this entry, and a task that polls it when it is woken. */
  predicate Waits(s: Sched, u: nat, t: Ticket) {
    && u in s.slab && s.slab[u] == t && u < |s.world.agents|
    && !s.world.agents[u].half.Gone? && !Abandoned(s.world.agents[u].half)
  }

  /** The lock is free, somebody sleeps in its queue, and no task that would take the lock was woken. */
  ghost predicate Lost(s: Sched) {
    !s.world.locked && (exists u :: Waits(s, u, Asleep)) && forall v :: !Waits(s, v, Alerted)
  }

  ghost predicate WakeupKept(c: Care) {
    forall s :: Reachable(c, s) ==> !Lost(s)
  }

  /** A queued half asks for the lock again whenever it is polled. */
  predicate Insists(h: Half) {
    match h
    case ReadHalf(r, updates, target, _, cancelled) =>
      !cancelled && r.connected && r.chunk.Some? && updates && r.readCnt > target
    case WriteHalf(wr, tracks, last, _) => !last.Cancelled? && (last.Ready? ==> WriterAsks(wr, tracks))
    case Actor(_, busy, _, _) => busy
    case Gone => false
  }

  ghost predicate Steady(s: Sched) {
    && (forall u :: u in s.slab ==> u < |s.world.agents| && Insists(s.world.agents[u].half) && !s.slab[u].Spent?)
    && (!s.world.locked && (exists u :: u in s.slab && s.slab[u].Asleep?) ==>
          exists v :: v in s.slab && s.slab[v].Alerted?)
  }

  /** A poll that asks for the lock in vain leaves a half that asks again. */
  lemma VainPollInsists(p: Policy, w: World, step: Step)
    requires Polls(step) && TransportSystem.Next(p, w, step).Some? && step.u < |w.agents|
    requires Consults(w.agents[step.u].half, step) && !GetsLock(w, Holding(w.agents[step.u].half))
    ensures var w' := TransportSystem.Next(p, w, step).value;
      |w'.agents| == |w.agents| && w'.locked && !w'.panicked && Insists(w'.agents[step.u].half)
  {
  }

  /** A half that asks again goes on to do so, whatever else happens to it. */
  lemma InsistsOn(p: Policy, w: World, step: Step)
    requires Attentive(p) && TransportSystem.Next(p, w, step).Some? && !Joins(step) && !Polls(step) && !step.Drop?
    requires Insists(w.agents[step.u].half)
    ensures var w' := TransportSystem.Next(p, w, step).value;
      |w'.agents| == |w.agents| && Insists(w'.agents[step.u].half)
  {
  }

  lemma InsistsConsults(c: Care, s: Sched, step: Step)
    requires Attentive(c.policy) && Careful(c, s, step) && TransportSystem.Next(c.policy, s.world, step).Some?
    requires Polls(step) && step.u in s.slab && Insists(s.world.agents[step.u].half)
    ensures Consults(s.world.agents[step.u].half, step)
  {
  }

  /** Steps that do not poll change neither the lock nor the agents of others. */
  lemma QuietStep(p: Policy, w: World, step: Step)
    requires TransportSystem.Next(p, w, step).Some? && !Polls(step) && !step.Drop?
    ensures var w' := TransportSystem.Next(p, w, step).value;
      w'.locked == w.locked && !w'.panicked && |w'.agents| >= |w.agents|
  {
  }

  lemma OtherAgent(p: Policy, w: World, step: Step, v: nat)
    requires TransportSystem.Next(p, w, step).Some? && v < |w.agents| && (Joins(step) || v != step.u)
    ensures var w' := TransportSystem.Next(p, w, step).value; v < |w'.agents| && w'.agents[v] == w.agents[v]
  {
    if !Joins(step) { ElsewhereUnchanged(w, step, v); }
  }

  /** What happens to the slab, by whether the step gives the lock back. */
  lemma SlabAfter(c: Care, s: Sched, step: Step, pick: Option<nat>, s': Sched)
    requires Next(c, s, step, pick) == Some(s')
    ensures TransportSystem.Next(c.policy, s.world, step) == Option.Some(s'.world) && Careful(c, s, step)
    ensures var slab := if s'.world.panicked then s.slab else Queued(s, step);
      if Unlocks(s.world, step, s'.world)
      then Picks(slab, pick) && s'.slab == (if pick.Some? then slab[pick.value := Alerted] else slab)
      else pick.None? && s'.slab == slab
  {
  }

  /** A half that is queued after its own poll has asked for the lock in vain. */
  lemma QueuedPoll(c: Care, s: Sched, step: Step)
    requires Attentive(c.policy) && !c.drops && Steady(s) && Careful(c, s, step) && Polls(step)
    requires TransportSystem.Next(c.policy, s.world, step).Some? && step.u in Queued(s, step)
    ensures step.u < |s.world.agents| && Consults(s.world.agents[step.u].half, step)
    ensures !GetsLock(s.world, Holding(s.world.agents[step.u].half)) && Queued(s, step)[step.u].Asleep?
  {
    if step.u in s.slab { InsistsConsults(c, s, step); }
  }

  /** Every entry, before any wakeup, belongs to a half that asks again. */
  lemma QueuedInsists(c: Care, s: Sched, step: Step, w': World, v: nat)
    requires Attentive(c.policy) && !c.drops && Steady(s) && Careful(c, s, step) && !w'.panicked
    requires TransportSystem.Next(c.policy, s.world, step) == Option.Some(w') && v in Queued(s, step)
    ensures v < |w'.agents| && Insists(w'.agents[v].half) && !Queued(s, step)[v].Spent?
  {
    if Joins(step) || v != step.u {
      OtherAgent(c.policy, s.world, step, v);
    } else if Polls(step) {
      QueuedPoll(c, s, step);
      VainPollInsists(c.policy, s.world, step);
    } else {
      InsistsOn(c.policy, s.world, step);
    }
  }

  /** Every entry of the new slab belongs to a half that asks again. */
  lemma SlabInsists(c: Care, s: Sched, step: Step, pick: Option<nat>, v: nat)
    requires Attentive(c.policy) && !c.drops && Steady(s) && Next(c, s, step, pick).Some?
    requires v in Next(c, s, step, pick).value.slab
    ensures var s' := Next(c, s, step, pick).value;
      v < |s'.world.agents| && Insists(s'.world.agents[v].half) && !s'.slab[v].Spent?
  {
    var s' := Next(c, s, step, pick).value;
    SlabAfter(c, s, step, pick, s');
    if s'.world.panicked {
      PanicKeepsAgents(c.policy, s.world, step);
    } else {
      QueuedInsists(c, s, step, s'.world, v);
    }
  }

  lemma PanicKeepsAgents(p: Policy, w: World, step: Step)
    requires TransportSystem.Next(p, w, step).Some? && TransportSystem.Next(p, w, step).value.panicked
    ensures TransportSystem.Next(p, w, step).value == w.(panicked := true)
  {
  }

  lemma QuietPoll(p: Policy, w: World, step: Step)
    requires Polls(step) && TransportSystem.Next(p, w, step).Some? && step.u < |w.agents|
    requires !Consults(w.agents[step.u].half, step)
    ensures var w' := TransportSystem.Next(p, w, step).value; w'.locked == w.locked && !w'.panicked
  {
  }

  /** The same for a poll: it gave the lock back, or did not ask for it. */
  lemma FreeAfterPoll(c: Care, s: Sched, step: Step, w': World)
    requires Attentive(c.policy) && !c.drops && Steady(s) && Careful(c, s, step) && Polls(step)
    requires TransportSystem.Next(c.policy, s.world, step) == Option.Some(w') && !w'.locked && !w'.panicked
    requires step.u < |s.world.agents| == |w'.agents| && !Holding(w'.agents[step.u].half)
    ensures Unlocks(s.world, step, w') || (!s.world.locked && Queued(s, step) == s.slab)
  {
    if !Consults(s.world.agents[step.u].half, step) {
      if step.u in s.slab { InsistsConsults(c, s, step); }
      QuietPoll(c.policy, s.world, step);
    } else if !GetsLock(s.world, Holding(s.world.agents[step.u].half)) {
      VainPollInsists(c.policy, s.world, step);
    }
  }

  /** A step that ends with the lock free either was not about the lock at all, or has just given it back. */
  lemma FreeAfter(c: Care, s: Sched, owner: Option<nat>, step: Step)
    requires Attentive(c.policy) && !c.drops && Steady(s) && Safe(s.world, owner) && Careful(c, s, step)
    requires TransportSystem.Next(c.policy, s.world, step).Some?
    requires var w' := TransportSystem.Next(c.policy, s.world, step).value; !w'.locked && !w'.panicked
    ensures var w' := TransportSystem.Next(c.policy, s.world, step).value;
      Unlocks(s.world, step, w') || (!s.world.locked && Queued(s, step) == s.slab)
  {
    var w := s.world;
    var w' := TransportSystem.Next(c.policy, w, step).value;
    if Joins(step) || (!Polls(step) && !step.Drop?) {
      QuietStep(c.policy, w, step);
    } else {
      FreeMeansReleased(c.policy, w, owner, step);
      if Polls(step) { FreeAfterPoll(c, s, step, w'); }
    }
  }

  lemma FreeMeansReleased(p: Policy, w: World, owner: Option<nat>, step: Step)
    requires Safe(w, owner) && TransportSystem.Next(p, w, step).Some? && (Polls(step) || step.Drop?)
    requires var w' := TransportSystem.Next(p, w, step).value; !w'.locked && !w'.panicked
    ensures var w' := TransportSystem.Next(p, w, step).value;
      step.u < |w.agents| == |w'.agents| && !Holding(w'.agents[step.u].half)
    ensures w.locked ==> owner.Some?
    ensures step.Drop? && w.locked ==> owner == Option.Some(step.u)
  {
    StepHolds(p, w, owner, step);
    assert AgentOk(w, owner, step.u);
  }

  lemma SteadyNext(c: Care, s: Sched, owner: Option<nat>, step: Step, pick: Option<nat>)
    requires Attentive(c.policy) && !c.drops && Steady(s) && Safe(s.world, owner) && Next(c, s, step, pick).Some?
    ensures Steady(Next(c, s, step, pick).value)
  {
    var s' := Next(c, s, step, pick).value;
    forall v | v in s'.slab ensures v < |s'.world.agents| && Insists(s'.world.agents[v].half) && !s'.slab[v].Spent? {
      SlabInsists(c, s, step, pick, v);
    }
    if s'.world.panicked {
      PanicKeepsAgents(c.policy, s.world, step);
    } else if !s'.world.locked {
      FreeAfter(c, s, owner, step);
      if Unlocks(s.world, step, s'.world) && pick.Some? { assert s'.slab[pick.value].Alerted?; }
    }
  }

  lemma {:induction false} ExecSteady(c: Care, s: Sched, owner: Option<nat>, run: seq<(Step, Option<nat>)>)
    requires Attentive(c.policy) && !c.drops && Steady(s) && Safe(s.world, owner) && Exec(c, s, run).Some?
    ensures Steady(Exec(c, s, run).value)
    decreases |run|
  {
    if run != [] {
      SteadyNext(c, s, owner, run[0].0, run[0].1);
      var owner' := SafeNext(c.policy, s.world, owner, run[0].0);
      ExecSteady(c, Next(c, s, run[0].0, run[0].1).value, owner', run[1..]);
    }
  }
}
