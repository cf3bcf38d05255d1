/** The objects behind the mutex (`WakerList`, `SinkState`, `LockedSink`), updated in place.

    A method here is a call that nobody interrupts.  The lemmas at the end show that each such
    call is one particular interleaving of the steps of `LockProtocol`.  */
module LockedSinkObjects {
  import opened Common
  import opened LockProtocol

  // ---------- Values the methods are specified with ----------

  predicate Asleep(w: map<Key, Waiter>, k: Key) {
    k in w && w[k].Sleeping?
  }

  predicate FirstAsleep(w: map<Key, Waiter>, k: Key) {
    Asleep(w, k) && forall i :: i in w && i < k ==> w[i].Woken?
  }

  /** What one handle sees: the shared flag and slab, its own key and whether it holds the lock. */
  datatype View = View(flag: bool, waiters: map<Key, Waiter>, pos: Option<Key>, locked: bool)

  /** `poll_lock` without interference; `key` is the slab key it gets if it has to join. */
  function PollAlone(v: View, waker: ActorId, key: Key): (View, bool) {
    if v.locked then (v, true)
    else if !v.flag then
      (View(true, if v.pos.Some? then v.waiters - {v.pos.value} else v.waiters, None, true), true)
    else
      var k := if v.pos.Some? then v.pos.value else key;
      (v.(waiters := v.waiters[k := Sleeping(waker)], pos := Some(k)), false)
  }

  // ---------- Objects ----------

  class WakerList {
    var slots: seq<Option<Waiter>>

    ghost function Entries(): map<Key, Waiter>
      reads this
    {
      map k: Key | k < |slots| && slots[k].Some? :: slots[k].value
    }

    constructor ()
      ensures Entries() == map[]
    {
      slots := [];
    }

    /** Registers a waker under a vacant key. */
    method Add(waker: ActorId) returns (key: Key)
      modifies this
      ensures key !in old(Entries())
      ensures Entries() == old(Entries())[key := Sleeping(waker)]
    {
      key := 0;
      while key < |slots| && slots[key].Some?
        invariant key <= |slots|
      {
        key := key + 1;
      }
      ghost var before := Entries();
      if key < |slots| {
        slots := slots[key := Some(Sleeping(waker))];
      } else {
        slots := slots + [Some(Sleeping(waker))];
      }
      assert Entries() == before[key := Sleeping(waker)];
    }

    /** The key must be on the slab: the code panics otherwise. */
    method Update(key: Key, waker: ActorId)
      requires key in Entries()
      modifies this
      ensures Entries() == old(Entries())[key := Sleeping(waker)]
    {
      ghost var before := Entries();
      slots := slots[key := Some(Sleeping(waker))];
      assert Entries() == before[key := Sleeping(waker)];
    }

    method Remove(key: Key)
      requires key in Entries()
      modifies this
      ensures Entries() == old(Entries()) - {key}
    {
      ghost var before := Entries();
      slots := slots[key := None];
      assert Entries() == before - {key};
    }

    /** Takes the waker of the first sleeping entry and marks the entry as woken. */
    method GetNext() returns (next: Option<ActorId>, ghost key: Key)
      modifies this
      ensures next.None? ==> Entries() == old(Entries()) && forall k :: k in Entries() ==> Entries()[k].Woken?
      ensures next.Some? ==>
        && FirstAsleep(old(Entries()), key)
        && next.value == old(Entries())[key].waker
        && Entries() == old(Entries())[key := Woken]
    {
      var i := 0;
      while i < |slots| && !(slots[i].Some? && slots[i].value.Sleeping?)
        invariant i <= |slots|
        invariant forall k :: k in Entries() && k < i ==> Entries()[k].Woken?
      {
        i := i + 1;
      }
      ghost var before := Entries();
      if i < |slots| {
        key := i;
        assert FirstAsleep(before, key);
        next := Some(slots[i].value.waker);
        slots := slots[i := Some(Woken)];
        assert Entries() == before[key := Woken];
      } else {
        next := None;
        key := 0;
      }
    }
  }

  datatype LockStatus = Joined(key: Key) | Waiting | Unlocked

  class SinkState {
    var locked: bool
    const waiters: WakerList

    constructor ()
      ensures !locked && fresh(waiters) && waiters.Entries() == map[]
    {
      locked := false;
      waiters := new WakerList();
    }

    method Lock(key: Option<Key>, waker: ActorId) returns (status: LockStatus)
      requires key.Some? ==> key.value in waiters.Entries()
      modifies this, waiters
      ensures locked
      ensures status.Unlocked? <==> !old(locked)
      ensures status.Waiting? <==> old(locked) && key.Some?
      ensures status.Unlocked? ==> waiters.Entries() == old(waiters.Entries())
      ensures status.Waiting? ==> waiters.Entries() == old(waiters.Entries())[key.value := Sleeping(waker)]
      ensures status.Joined? ==> status.key !in old(waiters.Entries()) &&
                                 waiters.Entries() == old(waiters.Entries())[status.key := Sleeping(waker)]
    {
      var oldState := locked;
      locked := true;
      if !oldState {
        status := Unlocked;
      } else if key.Some? {
        waiters.Update(key.value, waker);
        status := Waiting;
      } else {
        var pos := waiters.Add(waker);
        status := Joined(pos);
      }
    }

    /** Returns the task that gets woken. */
    method Unlock() returns (woken: Option<ActorId>, ghost key: Key)
      modifies this, waiters
      ensures !locked
      ensures woken.None? ==>
        && waiters.Entries() == old(waiters.Entries())
        && forall k :: k in waiters.Entries() ==> waiters.Entries()[k].Woken?
      ensures woken.Some? ==>
        && FirstAsleep(old(waiters.Entries()), key)
        && woken.value == old(waiters.Entries())[key].waker
        && waiters.Entries() == old(waiters.Entries())[key := Woken]
    {
      locked := false;
      woken, key := waiters.GetNext();
    }
  }

  class LockedSink {
    const inner: SinkState
    var pos: Option<Key>
    var locked: bool

    ghost function Seen(): View
      reads this, inner, inner.waiters
    {
      View(inner.locked, inner.waiters.Entries(), pos, locked)
    }

    ghost predicate Valid()
      reads this, inner, inner.waiters
    {
      && (pos.Some? ==> pos.value in inner.waiters.Entries())
      && (locked ==> pos.None? && inner.locked)
    }

    constructor ()
      ensures Valid() && Seen() == View(false, map[], None, false)
    {
      inner := new SinkState();
      pos := None;
      locked := false;
    }

    constructor Clone(other: LockedSink)
      ensures Valid() && inner == other.inner && pos == None && !locked
    {
      inner := other.inner;
      pos := None;
      locked := false;
    }

    method PollLock(waker: ActorId) returns (ready: bool, ghost key: Key)
      requires Valid()
      modifies this, inner, inner.waiters
      ensures Valid()
      ensures (Seen(), ready) == PollAlone(old(Seen()), waker, key)
      ensures !ready && old(pos).None? ==> key !in old(inner.waiters.Entries())
    {
      key := 0;
      if locked {
        ready := true;
        return;
      }
      var status := inner.Lock(pos, waker);
      match status
      case Unlocked =>
        if pos.Some? {
          inner.waiters.Remove(pos.value);
          pos := None;
        }
        locked := true;
        ready := true;
      case Joined(k) =>
        key := k;
        pos := Some(k);
        ready := Recheck(waker);
        assert inner.waiters.Entries() == old(inner.waiters.Entries())[k := Sleeping(waker)];
      case Waiting =>
        ready := Recheck(waker);
        assert inner.waiters.Entries() == old(inner.waiters.Entries())[old(pos.value) := Sleeping(waker)];
    }

    /** The second look at the flag: makes sure that no unlock was raced. */
    method Recheck(waker: ActorId) returns (ready: bool)
      requires Valid() && !locked && pos.Some?
      modifies this, inner, inner.waiters
      ensures Valid() && (Seen(), ready) == PollAlone(old(Seen()), waker, old(pos.value))
    {
      var status := inner.Lock(pos, waker);
      if status.Unlocked? {
        inner.waiters.Remove(pos.value);
        pos := None;
        locked := true;
        ready := true;
      } else {
        ready := false;
      }
    }

    method Unlock() returns (woken: Option<ActorId>, ghost key: Key)
      requires Valid()
      modifies this, inner, inner.waiters
      ensures Valid() && !locked && pos == old(pos)
      ensures !old(locked) ==> woken.None? && Seen() == old(Seen())
      ensures old(locked) && woken.None? ==>
        && Seen() == old(Seen()).(flag := false, locked := false)
        && forall k :: k in inner.waiters.Entries() ==> inner.waiters.Entries()[k].Woken?
      ensures old(locked) && woken.Some? ==>
        && FirstAsleep(old(inner.waiters.Entries()), key)
        && woken.value == old(inner.waiters.Entries())[key].waker
        && Seen() == View(false, old(inner.waiters.Entries())[key := Woken], None, false)
    {
      woken, key := None, 0;
      if locked {
        locked := false;
        woken, key := inner.Unlock();
      }
    }
  }

  // ---------- An uninterrupted call is an interleaving ----------

  function ViewOf(s: Lock, a: ActorId): View
    requires a in s.actors
  {
    View(s.flag, s.waiters, s.actors[a].pos, s.actors[a].phase.Holding?)
  }

  /** The steps `poll_lock` takes when nobody interferes. */
  function PollSteps(v: View, a: ActorId, key: Key): seq<Step> {
    if v.locked then []
    else if !v.flag then [Poll(a), Collect(a)]
    else [Poll(a), Join(a, if v.pos.Some? then v.pos.value else key), Recheck(a), Requeue(a)]
  }

  function UnlockSteps(a: ActorId, next: Option<Key>): seq<Step> {
    if next.Some? then [Unlock(a), Store(a), Pick(a, next.value), Notify(a)]
    else [Unlock(a), Store(a), PickNone(a)]
  }

  lemma ExecTwo(s: Lock, x: Step, y: Step)
    requires Next(s, x, Careful).Some?
    ensures Exec(s, [x, y], Careful) == Next(Next(s, x, Careful).value, y, Careful)
  {
    ExecAppend(s, [], s, x, Careful);
    ExecAppend(s, [x], Next(s, x, Careful).value, y, Careful);
    assert [x] + [y] == [x, y] && [] + [x] == [x];
  }

  lemma TakeAlone(s: Lock, a: ActorId) returns (s': Lock)
    requires (At(s, a, Idle) || At(s, a, Parked)) && !s.actors[a].guard && s.mutex.None? && !s.flag
    ensures Exec(s, [Poll(a), Collect(a)], Careful) == Some(s')
    ensures At(s', a, Holding) && ViewOf(s', a) == PollAlone(ViewOf(s, a), a, 0).0
    ensures s'.actors - {a} == s.actors - {a}
  {
    ExecTwo(s, Poll(a), Collect(a));
    s' := Next(Next(s, Poll(a), Careful).value, Collect(a), Careful).value;
  }

  /** The state after `Poll` and `Join` on a held lock, and after the whole poll. */
  function Enqueued(s: Lock, a: ActorId, key: Key, phase: Phase): Lock
    requires a in s.actors
  {
    Set(s.(waiters := s.waiters[key := Sleeping(a)]), a,
        s.actors[a].(phase := phase, pos := Some(key), notified := false))
  }

  lemma JoinAlone(s: Lock, a: ActorId, key: Key)
    requires (At(s, a, Idle) || At(s, a, Parked)) && !s.actors[a].guard && s.mutex.None? && s.flag
    requires if s.actors[a].pos.Some? then s.actors[a].pos.value == key else key !in s.waiters
    ensures Exec(s, [Poll(a), Join(a, key)], Careful) == Some(Enqueued(s, a, key, Rechecking))
  {
    ExecTwo(s, Poll(a), Join(a, key));
    var m := Next(s, Poll(a), Careful).value;
    assert m == Set(s, a, s.actors[a].(phase := Joining, notified := false));
    assert Next(m, Join(a, key), Careful).value.actors == Enqueued(s, a, key, Rechecking).actors;
  }

  lemma RecheckAlone(s: Lock, a: ActorId, key: Key)
    requires a in s.actors && s.mutex.None? && s.flag
    ensures Exec(Enqueued(s, a, key, Rechecking), [Recheck(a), Requeue(a)], Careful) ==
            Some(Enqueued(s, a, key, Parked))
  {
    var m := Enqueued(s, a, key, Rechecking);
    ExecTwo(m, Recheck(a), Requeue(a));
    var n := Next(m, Recheck(a), Careful).value;
    assert n == Set(m, a, m.actors[a].(phase := Requeuing));
    assert n.waiters[key := Sleeping(a)] == m.waiters;
    assert Next(n, Requeue(a), Careful).value.actors == Enqueued(s, a, key, Parked).actors;
  }

  lemma QueueAlone(s: Lock, a: ActorId, key: Key) returns (s': Lock)
    requires (At(s, a, Idle) || At(s, a, Parked)) && !s.actors[a].guard && s.mutex.None? && s.flag
    requires if s.actors[a].pos.Some? then s.actors[a].pos.value == key else key !in s.waiters
    ensures Exec(s, [Poll(a), Join(a, key), Recheck(a), Requeue(a)], Careful) == Some(s')
    ensures s' == Enqueued(s, a, key, Parked)
  {
    JoinAlone(s, a, key);
    RecheckAlone(s, a, key);
    s' := Enqueued(s, a, key, Parked);
    ExecConcat(s, [Poll(a), Join(a, key)], [Recheck(a), Requeue(a)], Careful);
    assert [Poll(a), Join(a, key), Recheck(a), Requeue(a)] == [Poll(a), Join(a, key)] + [Recheck(a), Requeue(a)];
  }

  /** A poll that runs undisturbed has the effect of `PollAlone` on what the
      handle sees, and leaves every other handle alone.  */
  lemma PollAloneIsARun(s: Lock, a: ActorId, key: Key) returns (s': Lock)
    requires s.mutex.None? && key !in s.waiters
    requires (At(s, a, Idle) || At(s, a, Parked) || At(s, a, Holding)) && !s.actors[a].guard
    ensures Exec(s, PollSteps(ViewOf(s, a), a, key), Careful) == Some(s')
    ensures a in s'.actors && ViewOf(s', a) == PollAlone(ViewOf(s, a), a, key).0
    ensures At(s', a, Holding) <==> PollAlone(ViewOf(s, a), a, key).1
    ensures s'.actors - {a} == s.actors - {a}
  {
    if ViewOf(s, a).locked {
      s' := s;
    } else if !s.flag {
      s' := TakeAlone(s, a);
    } else {
      s' := QueueAlone(s, a, if s.actors[a].pos.Some? then s.actors[a].pos.value else key);
    }
  }

  lemma StoreAlone(s: Lock, a: ActorId) returns (m: Lock)
    requires At(s, a, Holding) && !s.actors[a].guard && s.mutex.None?
    ensures Exec(s, [Unlock(a), Store(a)], Careful) == Some(m)
    ensures m == s.(flag := false, mutex := Some(a), actors := s.actors[a := s.actors[a].(phase := Scanning)])
  {
    ExecTwo(s, Unlock(a), Store(a));
    m := Next(Next(s, Unlock(a), Careful).value, Store(a), Careful).value;
  }

  lemma PickAlone(m: Lock, a: ActorId, key: Key) returns (s': Lock)
    requires At(m, a, Scanning) && !m.actors[a].dying && m.actors[a].pos.None? && FirstAsleep(m.waiters, key)
    ensures Exec(m, [Pick(a, key), Notify(a)], Careful) == Some(s')
    ensures At(s', a, Idle) && s'.mutex.None? && s'.flag == m.flag
    ensures s'.waiters == m.waiters[key := Woken] && s'.actors[a].pos.None?
    ensures m.waiters[key].waker in m.actors ==>
      m.waiters[key].waker in s'.actors && s'.actors[m.waiters[key].waker].notified
  {
    ExecTwo(m, Pick(a, key), Notify(a));
    s' := Next(Next(m, Pick(a, key), Careful).value, Notify(a), Careful).value;
  }

  /** The same for `unlock`: it hands a wakeup to the first sleeping entry, if there is one. */
  lemma UnlockAloneIsARun(s: Lock, a: ActorId, next: Option<Key>, usage: Usage) returns (s': Lock)
    requires Reachable(s, usage) && At(s, a, Holding) && !s.actors[a].guard && s.mutex.None?
    requires if next.Some? then FirstAsleep(s.waiters, next.value)
             else forall k :: k in s.waiters ==> s.waiters[k].Woken?
    ensures Exec(s, UnlockSteps(a, next), Careful) == Some(s')
    ensures At(s', a, Idle) && s'.mutex.None?
    ensures ViewOf(s', a) == View(false, if next.Some? then s.waiters[next.value := Woken] else s.waiters, None, false)
    ensures next.Some? && s.waiters[next.value].waker in s.actors ==>
      s.waiters[next.value].waker in s'.actors && s'.actors[s.waiters[next.value].waker].notified
  {
    var owner := ReachableSafe(s, usage);
    assert Fits(s, a);
    var m := StoreAlone(s, a);
    if next.Some? {
      s' := PickAlone(m, a, next.value);
      ExecConcat(s, [Unlock(a), Store(a)], [Pick(a, next.value), Notify(a)], Careful);
      assert UnlockSteps(a, next) == [Unlock(a), Store(a)] + [Pick(a, next.value), Notify(a)];
    } else {
      s' := PickNoneAlone(s, a, m);
    }
  }

  lemma PickNoneAlone(s: Lock, a: ActorId, m: Lock) returns (s': Lock)
    requires Exec(s, [Unlock(a), Store(a)], Careful) == Some(m) && At(m, a, Scanning) && !m.actors[a].dying
    requires forall k :: k in m.waiters ==> m.waiters[k].Woken?
    ensures Exec(s, UnlockSteps(a, None), Careful) == Some(s')
    ensures s' == m.(mutex := None, actors := m.actors[a := m.actors[a].(phase := Idle)])
  {
    ExecAppend(s, [Unlock(a), Store(a)], m, PickNone(a), Careful);
    s' := Next(m, PickNone(a), Careful).value;
    assert UnlockSteps(a, None) == [Unlock(a), Store(a)] + [PickNone(a)];
  }
}
