/** The guard-less asynchronous mutex of `LockedSink`, as a state machine.

    Every access to shared memory is one step: each `swap` on the flag, each section
    under the waiters mutex, the store of `false` (made while the mutex is held), and
    each wake of a task.  Any number of handles and guards take steps in any order.  */
module LockProtocol {
  import opened Common

  type ActorId = nat
  type Key = nat

  /** A slab entry.  A waker is identified by the handle it was registered for. */
  datatype Waiter = Sleeping(waker: ActorId) | Woken

  datatype Phase =
    | Idle                     // outside any call, not queued
    | Parked                   // the last `poll_lock` returned Pending
    | Joining                  // lost the first swap, has to register
    | Rechecking               // registered, has to make the second swap
    | Requeuing                // lost the second swap, has to register again
    | Won                      // a swap returned false, an own slab entry is still to be removed
    | Holding                  // `locked` is set; for a guard: it is outstanding
    | Releasing                // inside `unlock`, before the store
    | Scanning                 // stored false, holds the waiters mutex
    | Waking(target: ActorId)  // took a waker from the slab, has to call it

  /** `guard` marks a `LockedSinkHandle` or `LockedSinkGuard`; `dying` a value whose drop is running. */
  datatype Actor = Actor(guard: bool, phase: Phase, pos: Option<Key>, notified: bool, dying: bool)

  datatype Lock = Lock(
    flag: bool,
    waiters: map<Key, Waiter>,
    mutex: Option<ActorId>,
    actors: map<ActorId, Actor>,
    nextId: ActorId)

  const FreshHandle := Actor(false, Idle, None, false, false)

  /** `LockedSink::new`: one handle, nothing locked. */
  const Init := Lock(false, map[], None, map[0 := FreshHandle], 1)

  datatype Step =
    | Clone                         // a new handle on the same sink
    | Poll(a: ActorId)              // first swap of `poll_lock`
    | Join(a: ActorId, key: Key)    // add to the slab, or update the entry it already has
    | Recheck(a: ActorId)           // second swap
    | Requeue(a: ActorId)           // update the entry, return Pending
    | Collect(a: ActorId)           // remove the own entry if any, return Ready
    | Detach(a: ActorId)            // `get_handle` / `get_guard`
    | Unlock(a: ActorId)            // `LockedSink::unlock` on a locked handle
    | Drop(a: ActorId)              // the value is dropped
    | Store(a: ActorId)             // lock the waiters, store false
    | Pick(a: ActorId, key: Key)    // `get_next` finds the entry `key`
    | PickNone(a: ActorId)          // `get_next` finds nothing
    | Notify(a: ActorId)            // call the waker
    | Skip(a: ActorId)              // the task is polled, but does not ask for the lock

  predicate At(s: Lock, a: ActorId, phase: Phase) {
    a in s.actors && s.actors[a].phase == phase
  }

  predicate Queued(s: Lock, a: ActorId) {
    a in s.actors && s.actors[a].pos.Some?
  }

  function Set(s: Lock, a: ActorId, x: Actor): Lock {
    s.(actors := s.actors[a := x])
  }

  /** An `unlock` call that has nothing left to do returns; a dropped value disappears. */
  function Return(s: Lock, a: ActorId): Lock
    requires a in s.actors
  {
    if s.actors[a].dying then s.(actors := s.actors - {a})
    else Set(s, a, s.actors[a].(phase := Idle))
  }

  function Swap(s: Lock, a: ActorId, x: Actor, lost: Phase): Lock {
    if s.flag then Set(s, a, x.(phase := lost)) else Set(s.(flag := true), a, x.(phase := Won))
  }

  function WakeTarget(s: Lock, t: ActorId): Lock {
    if t in s.actors then Set(s, t, s.actors[t].(notified := true)) else s
  }

  /** How handles are used: `abandon` says that a queued one may be dropped, `skip` that the task of a queued one may
      be polled without getting as far as `poll_lock`. */
  datatype Usage = Usage(abandon: bool, skip: bool)

  const Careful := Usage(false, false)

  /** One step, or None when it is not enabled. */
  function Next(s: Lock, step: Step, usage: Usage): Option<Lock> {
    match step
    case Clone =>
      Some(s.(actors := s.actors[s.nextId := FreshHandle], nextId := s.nextId + 1))
    case Poll(a) =>
      if (At(s, a, Idle) || At(s, a, Parked)) && !s.actors[a].guard
      then Some(Swap(s, a, s.actors[a].(notified := false), Joining)) else None
    case Join(a, key) =>
      if At(s, a, Joining) && s.mutex.None? &&
         (if s.actors[a].pos.Some? then s.actors[a].pos.value == key else key !in s.waiters)
      then Some(Set(s.(waiters := s.waiters[key := Sleeping(a)]), a,
                    s.actors[a].(phase := Rechecking, pos := Option.Some(key)))) else None
    case Recheck(a) =>
      if At(s, a, Rechecking) then Some(Swap(s, a, s.actors[a], Requeuing)) else None
    case Requeue(a) =>
      if At(s, a, Requeuing) && s.mutex.None? && Queued(s, a)
      then Some(Set(s.(waiters := s.waiters[s.actors[a].pos.value := Sleeping(a)]), a,
                    s.actors[a].(phase := Parked))) else None
    case Collect(a) =>
      if At(s, a, Won) && (s.actors[a].pos.None? || s.mutex.None?)
      then Some(Set(s.(waiters := if s.actors[a].pos.Some? then s.waiters - {s.actors[a].pos.value} else s.waiters),
                    a, s.actors[a].(phase := Holding, pos := Option.None))) else None
    case Detach(a) =>
      if At(s, a, Holding) && !s.actors[a].guard
      then Some(s.(actors := s.actors[a := s.actors[a].(phase := Idle)]
                                     [s.nextId := FreshHandle.(guard := true, phase := Holding)],
                   nextId := s.nextId + 1)) else None
    case Unlock(a) =>
      if At(s, a, Holding) && !s.actors[a].guard then Some(Set(s, a, s.actors[a].(phase := Releasing))) else None
    case Drop(a) =>
      if At(s, a, Holding) then Some(Set(s, a, s.actors[a].(phase := Releasing, dying := true)))
      else if At(s, a, Idle) || (At(s, a, Parked) && usage.abandon) then Some(s.(actors := s.actors - {a}))
      else None
    case Store(a) =>
      if At(s, a, Releasing) && s.mutex.None?
      then Some(Set(s.(flag := false, mutex := Option.Some(a)), a, s.actors[a].(phase := Scanning))) else None
    case Pick(a, key) =>
      if At(s, a, Scanning) && key in s.waiters && s.waiters[key].Sleeping? &&
         (forall k :: k in s.waiters && k < key ==> s.waiters[k].Woken?)
      then Some(Set(s.(waiters := s.waiters[key := Woken], mutex := Option.None), a,
                    s.actors[a].(phase := Waking(s.waiters[key].waker)))) else None
    case PickNone(a) =>
      if At(s, a, Scanning) && (forall k :: k in s.waiters ==> s.waiters[k].Woken?)
      then Some(Return(s.(mutex := Option.None), a)) else None
    case Notify(a) =>
      if a in s.actors && s.actors[a].phase.Waking?
      then Some(Return(WakeTarget(s, s.actors[a].phase.target), a)) else None
    case Skip(a) =>
      if At(s, a, Parked) && usage.skip then Some(Set(s, a, s.actors[a].(notified := false))) else None
  }

  /** Executes a whole interleaving. */
  function Exec(s: Lock, steps: seq<Step>, usage: Usage): Option<Lock>
    decreases |steps|
  {
    if steps == [] then Some(s) else
    var n := Next(s, steps[0], usage);
    if n.None? then None else Exec(n.value, steps[1..], usage)
  }

  // ---------- Mutual exclusion ----------

  predicate Owns(x: Actor) {
    x.phase.Won? || x.phase.Holding? || x.phase.Releasing?
  }

  /** Everyone who may touch the sink or is bound to store `false`. */
  function Owners(s: Lock): set<ActorId> {
    set a | a in s.actors && Owns(s.actors[a])
  }

  /** Which fields go with which point of the code. */
  predicate WellFormed(x: Actor) {
    && (x.phase.Idle? || x.phase.Holding? || x.phase.Releasing? || x.phase.Scanning? || x.phase.Waking? ==> x.pos.None?)
    && (x.phase.Parked? || x.phase.Rechecking? || x.phase.Requeuing? ==> x.pos.Some?)
    && (x.dying ==> x.phase.Releasing? || x.phase.Scanning? || x.phase.Waking?)
    && (x.guard ==> x.phase.Holding? || x.dying)
  }

  predicate KeyValid(s: Lock, a: ActorId) {
    Queued(s, a) ==>
      && s.actors[a].pos.value in s.waiters
      && (s.waiters[s.actors[a].pos.value].Sleeping? ==> s.waiters[s.actors[a].pos.value].waker == a)
  }

  predicate Distinct(s: Lock, a: ActorId, b: ActorId) {
    Queued(s, a) && Queued(s, b) && s.actors[a].pos == s.actors[b].pos ==> a == b
  }

  predicate Fits(s: Lock, a: ActorId) {
    a in s.actors ==> a < s.nextId && WellFormed(s.actors[a])
  }

  predicate Roles(s: Lock, owner: Option<ActorId>, a: ActorId) {
    a in s.actors ==>
      && (s.actors[a].phase.Scanning? <==> s.mutex == Option.Some(a))
      && (Owns(s.actors[a]) <==> owner == Option.Some(a))
  }

  ghost predicate SafeBy(s: Lock, owner: Option<ActorId>) {
    && (forall a :: Fits(s, a) && Roles(s, owner, a))
    && (forall a :: KeyValid(s, a))
    && (forall a, b :: Distinct(s, a, b))
    && Scalars(s, owner)
  }

  function OwnerAfter(s: Lock, step: Step, owner: Option<ActorId>): Option<ActorId> {
    match step
    case Poll(a) => if s.flag then owner else Some(a)
    case Recheck(a) => if s.flag then owner else Some(a)
    case Detach(a) => Some(s.nextId)
    case Store(a) => None
    case _ => owner
  }

  predicate Scalars(s: Lock, owner: Option<ActorId>) {
    && (owner.Some? ==> owner.value in s.actors && owner.value < s.nextId)
    && (s.mutex.Some? ==> s.mutex.value in s.actors && s.mutex.value < s.nextId)
    && (s.flag <==> owner.Some?)
  }

  lemma FitsNext(s: Lock, step: Step, usage: Usage, a: ActorId)
    requires Next(s, step, usage).Some?
    requires Fits(s, a)
    ensures Fits(Next(s, step, usage).value, a)
  {
    if step.Clone? || step.Detach? || step.Notify? || a != step.a {
      OthersFit(s, step, usage, a);
    }
  }

  lemma OthersFit(s: Lock, step: Step, usage: Usage, a: ActorId)
    requires Next(s, step, usage).Some? && Fits(s, a)
    requires step.Clone? || step.Detach? || step.Notify? || a != step.a
    ensures Fits(Next(s, step, usage).value, a)
  {
  }

  lemma RolesNext(s: Lock, step: Step, usage: Usage, owner: Option<ActorId>, a: ActorId)
    requires Next(s, step, usage).Some?
    requires Scalars(s, owner) && Fits(s, a) && Roles(s, owner, a) && (!step.Clone? ==> Roles(s, owner, step.a))
    ensures Roles(Next(s, step, usage).value, OwnerAfter(s, step, owner), a)
  {
  }

  lemma ScalarsNext(s: Lock, step: Step, usage: Usage, owner: Option<ActorId>)
    requires Next(s, step, usage).Some?
    requires Scalars(s, owner) && (!step.Clone? ==> Fits(s, step.a) && Roles(s, owner, step.a))
    ensures Scalars(Next(s, step, usage).value, OwnerAfter(s, step, owner))
  {
  }

  lemma KeyValidNext(s: Lock, step: Step, usage: Usage, a: ActorId)
    requires Next(s, step, usage).Some?
    requires KeyValid(s, a) && (!step.Clone? ==> Fits(s, step.a) && KeyValid(s, step.a) && Distinct(s, step.a, a))
    ensures KeyValid(Next(s, step, usage).value, a)
  {
  }

  lemma DistinctNext(s: Lock, step: Step, usage: Usage, a: ActorId, b: ActorId)
    requires Next(s, step, usage).Some?
    requires KeyValid(s, a) && KeyValid(s, b) && Distinct(s, a, b)
    ensures Distinct(Next(s, step, usage).value, a, b)
  {
  }

  // ---------- No lost wakeup ----------

  /** The waker of `h` was called since its last poll, or somebody is about to call it. */
  ghost predicate Alerted(s: Lock, h: ActorId) {
    h in s.actors && (s.actors[h].notified || exists b :: At(s, b, Waking(h)))
  }

  /** `h` is bound to look at the flag, or at the waiters, again. */
  ghost predicate Active(s: Lock, h: ActorId) {
    || At(s, h, Scanning)
    || At(s, h, Joining)
    || At(s, h, Rechecking)
    || (Queued(s, h) && Alerted(s, h))
  }

  ghost predicate HasOwner(s: Lock, k: Key) {
    k in s.waiters ==> exists a :: a in s.actors && s.actors[a].pos == Option.Some(k)
  }

  ghost predicate Answered(s: Lock, h: ActorId) {
    (Queued(s, h) && KeyValid(s, h) && !At(s, h, Joining) && !At(s, h, Won) &&
     s.waiters[s.actors[h].pos.value].Woken?) ==> Alerted(s, h)
  }

  ghost predicate Moving(s: Lock) {
    !s.flag && (exists k :: k in s.waiters && s.waiters[k].Sleeping?) ==> exists h :: Active(s, h)
  }

  lemma NotifiedNext(s: Lock, step: Step, h: ActorId)
    requires Next(s, step, Careful).Some? && Fits(s, h) && Queued(s, h) && s.actors[h].notified && step != Poll(h)
    ensures h in Next(s, step, Careful).value.actors && Next(s, step, Careful).value.actors[h].notified
  {
  }

  /** A wake that is still to be made stays to be made until it is. */
  lemma WakingNext(s: Lock, step: Step, b: ActorId, h: ActorId)
    requires Next(s, step, Careful).Some? && Fits(s, b) && Fits(s, h) && Queued(s, h) && At(s, b, Waking(h))
    ensures var s' := Next(s, step, Careful).value;
      At(s', b, Waking(h)) || (h in s'.actors && s'.actors[h].notified)
  {
    assert b != h;
  }

  lemma AlertedNext(s: Lock, step: Step, h: ActorId)
    requires Next(s, step, Careful).Some? && forall a :: Fits(s, a)
    requires Alerted(s, h) && step != Poll(h) && Queued(s, h)
    ensures Alerted(Next(s, step, Careful).value, h)
  {
    assert Fits(s, h);
    if s.actors[h].notified {
      NotifiedNext(s, step, h);
    } else {
      var b :| At(s, b, Waking(h));
      assert Fits(s, b);
      WakingNext(s, step, b, h);
      StaysPresent(s, step, h);
    }
  }

  lemma StaysPresent(s: Lock, step: Step, h: ActorId)
    requires Next(s, step, Careful).Some? && Fits(s, h) && Queued(s, h)
    ensures h in Next(s, step, Careful).value.actors
  {
  }

  lemma HasOwnerNext(s: Lock, step: Step, k: Key)
    requires Next(s, step, Careful).Some? && HasOwner(s, k)
    requires forall a :: Fits(s, a)
    ensures HasOwner(Next(s, step, Careful).value, k)
  {
    var s' := Next(s, step, Careful).value;
    if k in s.waiters && k in s'.waiters {
      var a :| a in s.actors && s.actors[a].pos == Option.Some(k);
      assert Fits(s, a);
      assert a in s'.actors && s'.actors[a].pos == Option.Some(k);
    } else if k in s'.waiters {
      assert s'.actors[step.a].pos == Option.Some(k);
    }
  }

  lemma AnsweredNext(s: Lock, step: Step, owner: Option<ActorId>, h: ActorId)
    requires Next(s, step, Careful).Some? && Answered(s, h)
    requires SafeBy(s, owner)
    ensures Answered(Next(s, step, Careful).value, h)
  {
    assert Fits(s, h) && KeyValid(s, h);
    if Queued(s, h) && Alerted(s, h) && step != Poll(h) {
      AlertedNext(s, step, h);
    } else if step.Pick? && Queued(s, h) && step.key == s.actors[h].pos.value {
      assert At(Next(s, step, Careful).value, step.a, Waking(h));
    } else if Queued(s, h) && !step.Clone? && step.a == h {
      OwnStepAnswered(s, step, h);
    } else if Queued(s, h) {
      OthersStepAnswered(s, step, h);
    }
  }

  lemma OwnStepAnswered(s: Lock, step: Step, h: ActorId)
    requires Next(s, step, Careful).Some? && Answered(s, h) && Fits(s, h) && KeyValid(s, h) && Queued(s, h)
    requires !step.Clone? && step.a == h && (Alerted(s, h) ==> step == Poll(h))
    ensures Answered(Next(s, step, Careful).value, h)
  {
  }

  lemma OthersStepAnswered(s: Lock, step: Step, h: ActorId)
    requires Next(s, step, Careful).Some? && Answered(s, h) && Fits(s, h) && KeyValid(s, h) && Queued(s, h)
    requires !Alerted(s, h)
    requires (step.Clone? || step.a != h) && !(step.Pick? && step.key == s.actors[h].pos.value)
    requires !step.Clone? ==> Fits(s, step.a) && Distinct(s, step.a, h)
    ensures Answered(Next(s, step, Careful).value, h)
  {
  }

  ghost predicate Live(s: Lock) {
    && (forall k :: HasOwner(s, k))
    && (forall h :: Answered(s, h))
    && Moving(s)
  }

  lemma ActiveNext(s: Lock, step: Step, owner: Option<ActorId>, w: ActorId)
    requires Next(s, step, Careful).Some? && !Next(s, step, Careful).value.flag
    requires SafeBy(s, owner) && Active(s, w) && !s.flag && !step.Pick? && !step.PickNone?
    ensures Active(Next(s, step, Careful).value, w)
  {
    assert Fits(s, w);
    if Queued(s, w) && Alerted(s, w) {
      AlertedNext(s, step, w);
    }
  }

  lemma MovingNext(s: Lock, step: Step, owner: Option<ActorId>)
    requires Next(s, step, Careful).Some?
    requires SafeBy(s, owner) && Live(s)
    ensures Moving(Next(s, step, Careful).value)
  {
    var s' := Next(s, step, Careful).value;
    assert step.Collect? ==> Roles(s, owner, step.a);
    if k :| !s'.flag && k in s'.waiters && s'.waiters[k].Sleeping? {
      if s.flag {
        assert Active(s', step.a);
      } else if step.Join? {
        assert Active(s', step.a);
      } else if step.Pick? {
        assert HasOwner(s, step.key);
        var t :| t in s.actors && s.actors[t].pos == Option.Some(step.key);
        assert KeyValid(s, t) && Fits(s, step.a);
        assert At(s', step.a, Waking(t));
        assert Active(s', t);
      } else if step.Requeue? && Alerted(s, step.a) {
        AlertedNext(s, step, step.a);
        assert Active(s', step.a);
      } else {
        assert step.Requeue? ==> Answered(s, step.a) && KeyValid(s, step.a);
        var w :| Active(s, w);
        ActiveNext(s, step, owner, w);
      }
    }
  }

  lemma SafeNext(s: Lock, step: Step, usage: Usage, owner: Option<ActorId>)
    requires Next(s, step, usage).Some? && SafeBy(s, owner)
    ensures SafeBy(Next(s, step, usage).value, OwnerAfter(s, step, owner))
  {
    var s', owner' := Next(s, step, usage).value, OwnerAfter(s, step, owner);
    forall a ensures Fits(s', a) && Roles(s', owner', a) && KeyValid(s', a) {
      FitsNext(s, step, usage, a);
      RolesNext(s, step, usage, owner, a);
      KeyValidNext(s, step, usage, a);
    }
    forall a, b ensures Distinct(s', a, b) {
      DistinctNext(s, step, usage, a, b);
    }
    ScalarsNext(s, step, usage, owner);
  }

  lemma LiveNext(s: Lock, step: Step, owner: Option<ActorId>)
    requires Next(s, step, Careful).Some? && SafeBy(s, owner) && Live(s)
    ensures Live(Next(s, step, Careful).value)
  {
    var s' := Next(s, step, Careful).value;
    forall k ensures HasOwner(s', k) { HasOwnerNext(s, step, k); }
    forall h ensures Answered(s', h) { AnsweredNext(s, step, owner, h); }
    MovingNext(s, step, owner);
  }

  lemma {:induction false} ExecSafe(s: Lock, steps: seq<Step>, usage: Usage, owner: Option<ActorId>)
      returns (owner': Option<ActorId>)
    requires SafeBy(s, owner) && Exec(s, steps, usage).Some?
    ensures SafeBy(Exec(s, steps, usage).value, owner')
    ensures usage == Careful && Live(s) ==> Live(Exec(s, steps, usage).value)
    decreases |steps|
  {
    if steps == [] {
      owner' := owner;
    } else {
      SafeNext(s, steps[0], usage, owner);
      if usage == Careful && Live(s) { LiveNext(s, steps[0], owner); }
      owner' := ExecSafe(Next(s, steps[0], usage).value, steps[1..], usage, OwnerAfter(s, steps[0], owner));
    }
  }

  /** `s` is the result of some interleaving from a fresh sink. */
  ghost predicate Reachable(s: Lock, usage: Usage) {
    exists steps :: Exec(Init, steps, usage) == Option.Some(s)
  }

  lemma ReachableSafe(s: Lock, usage: Usage) returns (owner: Option<ActorId>)
    requires Reachable(s, usage)
    ensures SafeBy(s, owner)
    ensures usage == Careful ==> Live(s)
  {
    var steps :| Exec(Init, steps, usage) == Option.Some(s);
    assert SafeBy(Init, None) && Live(Init);
    owner := ExecSafe(Init, steps, usage, None);
  }

  /** In every interleaving, with or without abandoned waiters, the sink has exactly one owner while the
      flag is set and none otherwise, at most one thread is inside the waiters mutex, and no handle keeps
      a slab key that is gone or that another handle has.  */
  lemma MutualExclusion(s: Lock, usage: Usage)
    requires Reachable(s, usage)
    ensures |Owners(s)| == (if s.flag then 1 else 0)
    ensures forall a, b :: At(s, a, Scanning) && At(s, b, Scanning) ==> a == b
    ensures forall a :: Queued(s, a) ==> s.actors[a].pos.value in s.waiters
    ensures forall a, b :: Queued(s, a) && Queued(s, b) && a != b ==> s.actors[a].pos != s.actors[b].pos
  {
    var owner := ReachableSafe(s, usage);
    forall a | Queued(s, a) ensures s.actors[a].pos.value in s.waiters { assert KeyValid(s, a); }
    forall a, b | Queued(s, a) && Queued(s, b) && a != b ensures s.actors[a].pos != s.actors[b].pos {
      assert Distinct(s, a, b);
    }
    forall a, b | At(s, a, Scanning) && At(s, b, Scanning) ensures a == b {
      assert Roles(s, owner, a) && Roles(s, owner, b);
    }
    assert Owners(s) == if owner.Some? then {owner.value} else {} by {
      forall a ensures a in Owners(s) <==> owner == Option.Some(a) { assert Roles(s, owner, a); }
    }
  }

  /** In every interleaving in which no queued handle is dropped and every poll of a queued one asks for the lock:
      while the lock is free and a handle is parked, some unlocker still has to scan the waiters, or some handle is
      before its swap, or some queued handle is notified, and will ask for the lock when it is polled. */
  lemma NoLostWakeup(s: Lock, h: ActorId)
    requires Reachable(s, Careful) && !s.flag && At(s, h, Parked)
    ensures exists w :: Active(s, w)
  {
    var owner := ReachableSafe(s, Careful);
    assert Fits(s, h) && KeyValid(s, h) && Answered(s, h);
    if s.waiters[s.actors[h].pos.value].Woken? {
      assert Active(s, h);
    }
  }

  /** Nobody is in the middle of a call. */
  predicate Quiescent(s: Lock) {
    forall a :: a in s.actors ==> s.actors[a].phase.Idle? || s.actors[a].phase.Parked? || s.actors[a].phase.Holding?
  }

  /** With the waiters mutex free, a parked handle that polls a free lock holds it after two steps. */
  lemma TakeFreeLock(s: Lock, w: ActorId, owner: Option<ActorId>) returns (s': Lock)
    requires SafeBy(s, owner) && At(s, w, Parked) && !s.flag && s.mutex.None?
    ensures Exec(s, [Poll(w), Collect(w)], Careful) == Option.Some(s')
    ensures At(s', w, Holding) && s'.flag && s.actors[w].pos.Some?
    ensures s'.waiters == s.waiters - {s.actors[w].pos.value} && |s'.waiters| == |s.waiters| - 1
  {
    assert Fits(s, w) && KeyValid(s, w);
    var m := Next(s, Poll(w), Careful).value;
    s' := Next(m, Collect(w), Careful).value;
    ExecAppend(s, [], s, Poll(w), Careful);
    ExecAppend(s, [Poll(w)], m, Collect(w), Careful);
    assert [Poll(w), Collect(w)] == [Poll(w)] + [Collect(w)];
    assert s.waiters.Keys == s'.waiters.Keys + {s.actors[w].pos.value};
  }

  /** `w` has won the lock, and will have no slab entry once it has collected it. */
  predicate WonBy(s: Lock, w: ActorId, pos: Option<Key>) {
    At(s, w, Won) && s.actors[w].pos == pos && s.flag
  }

  /** A poll of a free lock makes the handle its only owner at once, whoever is scanning the waiters. */
  lemma PollFreeLock(s: Lock, w: ActorId, usage: Usage) returns (s': Lock)
    requires Reachable(s, usage) && !s.flag && (At(s, w, Idle) || At(s, w, Parked)) && !s.actors[w].guard
    ensures Next(s, Poll(w), usage) == Option.Some(s')
    ensures WonBy(s', w, s.actors[w].pos) && Owners(s') == {w} && s'.waiters == s.waiters
  {
    var owner := ReachableSafe(s, usage);
    s' := Next(s, Poll(w), usage).value;
    SafeNext(s, Poll(w), usage, owner);
    forall a ensures a in Owners(s') <==> a == w { assert Roles(s', Option.Some(w), a); }
  }

  lemma WonNext(s: Lock, step: Step, w: ActorId, pos: Option<Key>, usage: Usage, owner: Option<ActorId>)
    requires SafeBy(s, owner) && WonBy(s, w, pos) && Next(s, step, usage).Some? && (step.Clone? || step.a != w)
    ensures WonBy(Next(s, step, usage).value, w, pos)
  {
    assert Fits(s, w) && Roles(s, owner, w);
    if !step.Clone? { assert Fits(s, step.a) && Roles(s, owner, step.a); }
  }

  /** Nothing the others do takes the lock from the winner, and as soon as the waiters mutex is free it can finish its
      call: it then holds the lock and its slab entry is gone. */
  lemma {:induction false} WinnerCollects(s: Lock, steps: seq<Step>, w: ActorId, pos: Option<Key>, usage: Usage,
                                          s': Lock)
    requires Reachable(s, usage) && WonBy(s, w, pos) && Exec(s, steps, usage) == Option.Some(s')
    requires forall i :: 0 <= i < |steps| ==> steps[i].Clone? || steps[i].a != w
    ensures WonBy(s', w, pos)
    ensures s'.mutex.None? ==>
      var held := Next(s', Collect(w), usage);
      && held.Some? && At(held.value, w, Holding) && held.value.actors[w].pos.None?
      && (pos.Some? ==> held.value.waiters == s'.waiters - {pos.value})
    decreases |steps|
  {
    if steps != [] {
      var owner := ReachableSafe(s, usage);
      WonNext(s, steps[0], w, pos, usage, owner);
      var m := Next(s, steps[0], usage).value;
      ReachNext(s, steps[0], m, usage);
      WinnerCollects(m, steps[1..], w, pos, usage, s');
    }
  }

  lemma LeastSleeping(waiters: map<Key, Waiter>, k: Key) returns (least: Key)
    requires k in waiters && waiters[k].Sleeping?
    ensures least in waiters && waiters[least].Sleeping?
    ensures forall j :: j in waiters && j < least ==> waiters[j].Woken?
    decreases k
  {
    if j :| j in waiters && j < k && waiters[j].Sleeping? {
      least := LeastSleeping(waiters, j);
    } else {
      least := k;
    }
  }

  /** Whoever holds the waiters mutex can give it back in its next step. */
  lemma ScannerReleases(s: Lock, b: ActorId, usage: Usage) returns (step: Step, s': Lock)
    requires At(s, b, Scanning)
    ensures !step.Clone? && step.a == b && Next(s, step, usage) == Option.Some(s') && s'.mutex.None?
  {
    if k :| k in s.waiters && s.waiters[k].Sleeping? {
      var least := LeastSleeping(s.waiters, k);
      step := Pick(b, least);
    } else {
      step := PickNone(b);
    }
    s' := Next(s, step, usage).value;
  }

  /** A scan wakes at most one entry, and there is no choice which: no other entry can be picked, and none is left
      asleep if nothing is picked. */
  lemma ScanIsDetermined(s: Lock, b: ActorId, k: Key, usage: Usage)
    requires Next(s, Pick(b, k), usage).Some?
    ensures forall j :: j != k ==> Next(s, Pick(b, j), usage).None?
    ensures Next(s, PickNone(b), usage).None?
    ensures forall j :: j in s.waiters && s.waiters[j].Sleeping? ==> k <= j
    ensures var s' := Next(s, Pick(b, k), usage).value; s'.waiters[k].Woken? && s'.waiters - {k} == s.waiters - {k}
  {
  }

  /** When all calls have returned, the lock is free and somebody is parked, then a parked handle has
      been notified, and polling it makes it the owner and removes its slab entry.  */
  lemma NotifiedHandleAcquires(s: Lock, h: ActorId) returns (w: ActorId, s': Lock)
    requires Reachable(s, Careful) && !s.flag && At(s, h, Parked) && Quiescent(s)
    ensures At(s, w, Parked) && s.actors[w].notified && s.actors[w].pos.Some?
    ensures Exec(s, [Poll(w), Collect(w)], Careful) == Option.Some(s')
    ensures At(s', w, Holding) && s'.waiters == s.waiters - {s.actors[w].pos.value}
  {
    NoLostWakeup(s, h);
    var owner := ReachableSafe(s, Careful);
    w :| Active(s, w);
    assert Fits(s, w) && At(s, w, Parked);
    assert Roles(s, owner, if s.mutex.Some? then s.mutex.value else h);
    s' := TakeFreeLock(s, w, owner);
  }

  // ---------- What a dropped waiter costs ----------

  ghost predicate WakeupLost(s: Lock) {
    !s.flag && (exists h :: At(s, h, Parked)) && !exists w :: Active(s, w)
  }

  ghost predicate WakeupGuaranteed(usage: Usage) {
    forall s :: Reachable(s, usage) ==> !WakeupLost(s)
  }

  lemma {:induction false} ExecAppend(s0: Lock, steps: seq<Step>, s: Lock, step: Step, usage: Usage)
    requires Exec(s0, steps, usage) == Option.Some(s)
    ensures Exec(s0, steps + [step], usage) == Next(s, step, usage)
    decreases |steps|
  {
    if steps == [] {
      assert [step][1..] == [];
    } else {
      assert (steps + [step])[1..] == steps[1..] + [step];
      ExecAppend(Next(s0, steps[0], usage).value, steps[1..], s, step, usage);
    }
  }

  lemma {:induction false} ExecConcat(s: Lock, first: seq<Step>, rest: seq<Step>, usage: Usage)
    requires Exec(s, first, usage).Some?
    ensures Exec(s, first + rest, usage) == Exec(Exec(s, first, usage).value, rest, usage)
    decreases |first|
  {
    if first == [] {
      assert first + rest == rest;
    } else {
      assert (first + rest)[1..] == first[1..] + rest;
      ExecConcat(Next(s, first[0], usage).value, first[1..], rest, usage);
    }
  }

  lemma ReachNext(s: Lock, step: Step, s': Lock, usage: Usage)
    requires Reachable(s, usage) && Next(s, step, usage) == Option.Some(s')
    ensures Reachable(s', usage)
  {
    var steps :| Exec(Init, steps, usage) == Option.Some(s);
    ExecAppend(Init, steps, s, step, usage);
  }

  /** A handle that polls a held lock undisturbed ends up parked. */
  lemma ParkAlone(s: Lock, a: ActorId, key: Key, s': Lock, usage: Usage)
    requires Reachable(s, usage) && s.flag && s.mutex.None? && key !in s.waiters && At(s, a, Idle)
    requires s.actors[a] == FreshHandle
    requires s' == Set(s.(waiters := s.waiters[key := Sleeping(a)]), a,
                       FreshHandle.(phase := Parked, pos := Option.Some(key)))
    ensures Reachable(s', usage)
  {
    var joining := Set(s, a, FreshHandle.(phase := Joining));
    var rechecking := Set(joining.(waiters := s.waiters[key := Sleeping(a)]), a,
                          FreshHandle.(phase := Rechecking, pos := Option.Some(key)));
    var requeuing := Set(rechecking, a, FreshHandle.(phase := Requeuing, pos := Option.Some(key)));
    assert s'.actors == requeuing.actors[a := FreshHandle.(phase := Parked, pos := Option.Some(key))];
    assert s'.waiters == requeuing.waiters[key := Sleeping(a)];
    ReachNext(s, Poll(a), joining, usage);
    ReachNext(joining, Join(a, key), rechecking, usage);
    ReachNext(rechecking, Recheck(a), requeuing, usage);
    ReachNext(requeuing, Requeue(a), s', usage);
  }

  /** Handle 0 at `phase`, handles 1 and 2 on the slab, in this order, and parked. */
  function ThreeHandles(flag: bool, phase: Phase, mutex: Option<ActorId>): Lock {
    Lock(flag, map[0 := Sleeping(1), 1 := Sleeping(2)], mutex,
         map[0 := FreshHandle.(phase := phase),
             1 := FreshHandle.(phase := Parked, pos := Option.Some(0)),
             2 := FreshHandle.(phase := Parked, pos := Option.Some(1))], 3)
  }

  /** Three handles, the first of which has the lock. */
  lemma HeldReachable(usage: Usage) returns (held: Lock)
    ensures Reachable(held, usage) && held.flag && held.waiters == map[] && held.mutex.None? && held.nextId == 3
    ensures held.actors == map[0 := FreshHandle.(phase := Holding), 1 := FreshHandle, 2 := FreshHandle]
  {
    assert Exec(Init, [], usage) == Option.Some(Init);
    var two := Init.(actors := Init.actors[1 := FreshHandle], nextId := 2);
    var three := two.(actors := two.actors[2 := FreshHandle], nextId := 3);
    var won := Set(three.(flag := true), 0, FreshHandle.(phase := Won));
    held := Set(won, 0, FreshHandle.(phase := Holding));
    ReachNext(Init, Clone, two, usage);
    ReachNext(two, Clone, three, usage);
    ReachNext(three, Poll(0), won, usage);
    ReachNext(won, Collect(0), held, usage);
  }

  lemma TwoQueuedReachable(usage: Usage)
    ensures Reachable(ThreeHandles(true, Holding, None), usage)
  {
    var held := HeldReachable(usage);
    var one := Set(held.(waiters := map[0 := Sleeping(1)]), 1, FreshHandle.(phase := Parked, pos := Option.Some(0)));
    assert one.waiters == held.waiters[0 := Sleeping(1)];
    ParkAlone(held, 1, 0, one, usage);
    ParkAlone(one, 2, 1, ThreeHandles(true, Holding, None), usage);
  }

  /** Two actors: 0 at `phase`, and 2, parked; entry 0 of the slab has lost its handle. */
  function Orphaned(flag: bool, phase: Phase, mutex: Option<ActorId>, first: Waiter): Lock {
    Lock(flag, map[0 := first, 1 := Sleeping(2)], mutex,
         map[0 := FreshHandle.(phase := phase), 2 := FreshHandle.(phase := Parked, pos := Option.Some(1))], 3)
  }

  lemma OrphanedSteps(skip: bool)
    ensures Next(ThreeHandles(true, Holding, None), Drop(1), Usage(true, skip)) ==
            Option.Some(Orphaned(true, Holding, None, Sleeping(1)))
    ensures Next(Orphaned(true, Holding, None, Sleeping(1)), Unlock(0), Usage(true, skip)) ==
            Option.Some(Orphaned(true, Releasing, None, Sleeping(1)))
    ensures Next(Orphaned(true, Releasing, None, Sleeping(1)), Store(0), Usage(true, skip)) ==
            Option.Some(Orphaned(false, Scanning, Option.Some(0), Sleeping(1)))
  {
    OrphanedDrop(skip);
    OrphanedUnlock(skip);
    assert Orphaned(true, Releasing, None, Sleeping(1)).actors[0 := FreshHandle.(phase := Scanning)] ==
           Orphaned(false, Scanning, Option.Some(0), Sleeping(1)).actors;
  }

  lemma OrphanedDrop(skip: bool)
    ensures Next(ThreeHandles(true, Holding, None), Drop(1), Usage(true, skip)) ==
            Option.Some(Orphaned(true, Holding, None, Sleeping(1)))
  {
    assert ThreeHandles(true, Holding, None).actors - {1} == Orphaned(true, Holding, None, Sleeping(1)).actors;
  }

  lemma OrphanedUnlock(skip: bool)
    ensures Next(Orphaned(true, Holding, None, Sleeping(1)), Unlock(0), Usage(true, skip)) ==
            Option.Some(Orphaned(true, Releasing, None, Sleeping(1)))
  {
    assert Orphaned(true, Holding, None, Sleeping(1)).actors[0 := FreshHandle.(phase := Releasing)] ==
           Orphaned(true, Releasing, None, Sleeping(1)).actors;
  }

  lemma OrphanedPick(skip: bool)
    ensures Next(Orphaned(false, Scanning, Option.Some(0), Sleeping(1)), Pick(0, 0), Usage(true, skip)) ==
            Option.Some(Orphaned(false, Waking(1), None, Woken))
  {
    var s, s' := Orphaned(false, Scanning, Option.Some(0), Sleeping(1)), Orphaned(false, Waking(1), None, Woken);
    assert s.waiters[0 := Woken] == s'.waiters;
    assert s.actors[0 := FreshHandle.(phase := Waking(1))] == s'.actors;
  }

  lemma OrphanedNotify(skip: bool)
    ensures Next(Orphaned(false, Waking(1), None, Woken), Notify(0), Usage(true, skip)) ==
            Option.Some(Orphaned(false, Idle, None, Woken))
  {
    assert Orphaned(false, Waking(1), None, Woken).actors[0 := FreshHandle] ==
           Orphaned(false, Idle, None, Woken).actors;
  }

  lemma OrphanedScans(skip: bool)
    ensures Reachable(Orphaned(false, Scanning, Option.Some(0), Sleeping(1)), Usage(true, skip))
  {
    TwoQueuedReachable(Usage(true, skip));
    OrphanedSteps(skip);
    var usage, held := Usage(true, skip), Orphaned(true, Holding, None, Sleeping(1));
    var releasing := Orphaned(true, Releasing, None, Sleeping(1));
    ReachNext(ThreeHandles(true, Holding, None), Drop(1), held, usage);
    ReachNext(held, Unlock(0), releasing, usage);
    ReachNext(releasing, Store(0), Orphaned(false, Scanning, Option.Some(0), Sleeping(1)), usage);
  }

  /** Handle 1 is dropped and 0 unlocks: the only wakeup goes to 1, and 2 stays parked on a free lock. */
  lemma DroppedWaiterLosesWakeup(skip: bool) returns (s: Lock)
    ensures Reachable(s, Usage(true, skip)) && WakeupLost(s)
  {
    OrphanedScans(skip);
    OrphanedPick(skip);
    OrphanedNotify(skip);
    s := Orphaned(false, Idle, None, Woken);
    var scanning := Orphaned(false, Scanning, Option.Some(0), Sleeping(1));
    var waking := Orphaned(false, Waking(1), None, Woken);
    ReachNext(scanning, Pick(0, 0), waking, Usage(true, skip));
    ReachNext(waking, Notify(0), s, Usage(true, skip));
    OrphanedIsLost();
  }

  lemma OrphanedIsLost()
    ensures WakeupLost(Orphaned(false, Idle, None, Woken))
  {
    assert At(Orphaned(false, Idle, None, Woken), 2, Parked);
  }

  // ---------- What a wasted wakeup costs ----------

  /** Handle 0 at `phase`; entry 0 of the slab, of handle 1, is `first`; handle 1 is notified or not; 2 is parked. */
  function Unlocked(phase: Phase, mutex: Option<ActorId>, first: Waiter, notified: bool): Lock {
    Lock(false, map[0 := first, 1 := Sleeping(2)], mutex,
         map[0 := FreshHandle.(phase := phase),
             1 := FreshHandle.(phase := Parked, pos := Option.Some(0), notified := notified),
             2 := FreshHandle.(phase := Parked, pos := Option.Some(1))], 3)
  }

  lemma UnlockScans(usage: Usage)
    ensures Reachable(Unlocked(Scanning, Option.Some(0), Sleeping(1), false), usage)
  {
    ReleasingReachable(usage);
    StoreStarts(usage);
    ReachNext(ThreeHandles(true, Releasing, None), Store(0), Unlocked(Scanning, Option.Some(0), Sleeping(1), false),
              usage);
  }

  lemma ReleasingReachable(usage: Usage)
    ensures Reachable(ThreeHandles(true, Releasing, None), usage)
  {
    TwoQueuedReachable(usage);
    var s0, s1 := ThreeHandles(true, Holding, None), ThreeHandles(true, Releasing, None);
    assert s0.actors[0 := FreshHandle.(phase := Releasing)] == s1.actors;
    ReachNext(s0, Unlock(0), s1, usage);
  }

  lemma StoreStarts(usage: Usage)
    ensures Next(ThreeHandles(true, Releasing, None), Store(0), usage) ==
            Option.Some(Unlocked(Scanning, Option.Some(0), Sleeping(1), false))
  {
    assert ThreeHandles(true, Releasing, None).actors[0 := FreshHandle.(phase := Scanning)] ==
           Unlocked(Scanning, Option.Some(0), Sleeping(1), false).actors;
  }

  lemma UnlockNotifies(usage: Usage)
    ensures Reachable(Unlocked(Idle, None, Woken, true), usage)
  {
    UnlockScans(usage);
    var s2, s3 := Unlocked(Scanning, Option.Some(0), Sleeping(1), false), Unlocked(Waking(1), None, Woken, false);
    assert s2.waiters[0 := Woken] == s3.waiters && s2.actors[0 := FreshHandle.(phase := Waking(1))] == s3.actors;
    ReachNext(s2, Pick(0, 0), s3, usage);
    NotifyFirst(usage);
    ReachNext(s3, Notify(0), Unlocked(Idle, None, Woken, true), usage);
  }

  lemma NotifyFirst(usage: Usage)
    ensures Next(Unlocked(Waking(1), None, Woken, false), Notify(0), usage) ==
            Option.Some(Unlocked(Idle, None, Woken, true))
  {
    var s := Unlocked(Waking(1), None, Woken, false);
    var woken := s.actors[1 := s.actors[1].(notified := true)];
    assert woken[0 := FreshHandle] == Unlocked(Idle, None, Woken, true).actors;
  }

  /** Handle 0 unlocks and wakes 1, whose task does not ask for the lock this time: nobody is dropped, and 2 stays
      parked on a free lock. */
  lemma SkippingWaiterLosesWakeup(abandon: bool) returns (s: Lock)
    ensures Reachable(s, Usage(abandon, true)) && WakeupLost(s) && 1 in s.actors && 2 in s.actors
  {
    UnlockNotifies(Usage(abandon, true));
    SkipSpends(abandon);
    s := Unlocked(Idle, None, Woken, false);
    ReachNext(Unlocked(Idle, None, Woken, true), Skip(1), s, Usage(abandon, true));
    NobodyLooks();
  }

  lemma SkipSpends(abandon: bool)
    ensures Next(Unlocked(Idle, None, Woken, true), Skip(1), Usage(abandon, true)) ==
            Option.Some(Unlocked(Idle, None, Woken, false))
  {
    var before := Unlocked(Idle, None, Woken, true);
    assert before.actors[1 := before.actors[1].(notified := false)] == Unlocked(Idle, None, Woken, false).actors;
  }

  lemma NobodyLooks()
    ensures WakeupLost(Unlocked(Idle, None, Woken, false))
  {
    assert At(Unlocked(Idle, None, Woken, false), 2, Parked);
  }

  /** The wakeup guarantee holds over all interleavings exactly if no queued handle is dropped and every poll of a
      queued one asks for the lock. */
  lemma WakeupExactly(usage: Usage)
    ensures WakeupGuaranteed(usage) <==> !usage.abandon && !usage.skip
  {
    if usage.abandon {
      var s := DroppedWaiterLosesWakeup(usage.skip);
    } else if usage.skip {
      var s := SkippingWaiterLosesWakeup(usage.abandon);
    } else {
      forall s | Reachable(s, Careful) ensures !WakeupLost(s) {
        if WakeupLost(s) {
          var h :| At(s, h, Parked);
          NoLostWakeup(s, h);
        }
      }
    }
  }
}
