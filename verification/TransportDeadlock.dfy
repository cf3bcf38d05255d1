/** The actor waits for the lock, and the owner of the lock waits for the actor. */
module TransportDeadlock {
  import opened Common
  import opened FlowSpec
  import opened UnfoldSink
  import opened TransportSystem
  import opened TransportContract

  predicate SendingActor(h: Half) {
    h.Actor? && h.busy && !h.slot.holding
  }

  /** A half sleeps with the lock while an actor wants the lock to send a packet. */
  predicate DeadlockOf(w: World, u: nat, a: nat) {
    u < |w.agents| && Asleep(w.agents[u].half) && DeadlockBy(Starved(w.agents[u].half), w, u, a)
  }

  predicate DeadlockBy(starved: bool, w: World, u: nat, a: nat) {
    && u < |w.agents| && !w.agents[u].half.Actor? && AsleepBy(starved, w.agents[u].half)
    && a < |w.agents| && SendingActor(w.agents[a].half)
  }

  /** Neither of the two is given up or roused: the actor is not dropped; the half is not dropped and does not turn to
      flushing, and if it is not starved it is not polled.  The peer may send what it likes. */
  predicate Patient(starved: bool, u: nat, a: nat, step: Step) {
    && !(step.PollFlushOf? && step.u == u) && !(step.Drop? && (step.u == u || step.u == a))
    && (!starved ==> !((step.PollNextOf? || step.PollReadyOf?) && step.u == u))
  }

  lemma ActorStaysBlocked(w: World, step: Step)
    requires !Joins(step) && step.u < |w.agents| && w.locked && SendingActor(w.agents[step.u].half) && !step.Drop?
    requires NextOf(w, w.agents[step.u].half, step).Some?
    ensures var w' := NextOf(w, w.agents[step.u].half, step).value;
      step.u < |w'.agents| && SendingActor(w'.agents[step.u].half)
  {
  }

  lemma DeadlockNext(p: Policy, w: World, step: Step, u: nat, a: nat, starved: bool)
    requires Next(p, w, step).Some? && DeadlockBy(starved, w, u, a) && w.locked && Patient(starved, u, a, step)
    requires forall v :: 0 <= v < |w.agents| && v != u ==> !Holding(w.agents[v].half)
    ensures var w' := Next(p, w, step).value;
      && DeadlockBy(starved, w', u, a) && Untouched(w, w')
      && forall v :: 0 <= v < |w'.agents| && v != u ==> !Holding(w'.agents[v].half)
  {
    assert !ActorsIdle(w);
    AsleepNext(p, w, step, u, starved);
    if !Joins(step) {
      ElsewhereUnchanged(w, step, u);
      ElsewhereUnchanged(w, step, a);
      if step.u == a { ActorStaysBlocked(w, step); }
    }
  }

  lemma {:induction false} DeadlockStays(p: Policy, w: World, steps: seq<Step>, u: nat, a: nat, starved: bool)
    requires Exec(p, w, steps).Some? && DeadlockBy(starved, w, u, a) && w.locked
    requires forall v :: 0 <= v < |w.agents| && v != u ==> !Holding(w.agents[v].half)
    requires forall i :: 0 <= i < |steps| ==> Patient(starved, u, a, steps[i])
    ensures var w' := Exec(p, w, steps).value; DeadlockBy(starved, w', u, a) && Untouched(w, w')
    decreases |steps|
  {
    if steps != [] {
      DeadlockNext(p, w, steps[0], u, a, starved);
      DeadlockStays(p, Next(p, w, steps[0]).value, steps[1..], u, a, starved);
    }
  }

  /** A deadlock is for good: whatever all the others do and the peer sends, however long, no packet is sent and no
      credit gets through, unless one of the two is given up or roused. */
  lemma DeadlockForGood(p: Policy, w: World, steps: seq<Step>, u: nat, a: nat)
    requires Reachable(p, w) && DeadlockOf(w, u, a) && Exec(p, w, steps).Some?
    requires forall i :: 0 <= i < |steps| ==> Patient(Starved(w.agents[u].half), u, a, steps[i])
    ensures var w' := Exec(p, w, steps).value; DeadlockOf(w', u, a) && Untouched(w, w')
  {
    ContractKept(p, w);
    DeadlockStays(p, w, steps, u, a, Starved(w.agents[u].half));
  }

  ghost predicate NeverDeadlocks(p: Policy) {
    forall w, u: nat, a: nat :: Reachable(p, w) ==> !DeadlockOf(w, u, a)
  }

  /** An actor that begins to send while a half sleeps with the lock. */
  lemma ActorRunsInto(p: Policy, w: World) returns (w': World)
    requires Reachable(p, w) && !w.panicked && |w.agents| == 1 && !w.agents[0].half.Actor? && Asleep(w.agents[0].half)
    ensures Reachable(p, w') && DeadlockOf(w', 0, 1)
  {
    w' := ReachNext(p, w, JoinActor);
    assert w'.agents[0] == w.agents[0] && w'.agents[1] == Agent(FreshActor, []);
    w' := ReachNext(p, w', ActorSend(1, [], false));
  }

  /** There is no such deadlock exactly if streams are not closed under their halves, no operation is cancelled,
      `poll_ready` is not called while a flush is pending, and no credit of 0 is advertised. */
  lemma NeverDeadlocksExactly(p: Policy)
    ensures NeverDeadlocks(p) <==> Attentive(p)
  {
    if Attentive(p) {
      forall w, u: nat, a: nat | Reachable(p, w) ensures !DeadlockOf(w, u, a) {
        var steps :| Exec(p, Init(), steps) == Option.Some(w);
        ExecPrompt(p, Init(), steps);
        assert u < |w.agents| ==> Prompt(p, w.agents[u].half);
      }
    } else {
      var w;
      if p.closes {
        w := ClosedReaderKeepsLock(p);
      } else if p.cancels {
        w := CancelledFlushKeepsLock(p);
      } else if p.eager {
        w := EagerWriterKeepsLock(p);
      } else {
        w := ZeroUpdateKeepsLock(p);
      }
      var w' := ActorRunsInto(p, w);
      assert DeadlockOf(w', 0, 1);
    }
  }
}
