/** The waiting queue of the wake model is the slab of the lock: every poll of `WakeSystem` is an interleaving of the
    steps of `LockProtocol`, with the same flag, the same entries and the same tasks notified. */
module WakeLock {
  import opened Common
  import L = LockProtocol
  import O = LockedSinkObjects
  import T = TransportSystem
  import opened TransportContract
  import opened WakeSystem

  // ---------- What the lock sees of a half ----------

  datatype Standing = Without | With | Out

  /** The layout of the slab: the key of each half, and the half of each key. */
  datatype Layout = Layout(keys: map<nat, L.Key>, halves: map<L.Key, nat>)

  /** The flag, who owns the lock and who is gone, the entries of the slab and its layout. */
  datatype Queue = Queue(flag: bool, standing: seq<Standing>, slab: map<nat, Ticket>, layout: Layout)

  function StandingOf(h: T.Half): Standing {
    if h.Gone? then Out else if T.Holding(h) then With else Without
  }

  function Standings(w: T.World): (s: seq<Standing>)
    ensures |s| == |w.agents|
  {
    seq(|w.agents|, i requires 0 <= i < |w.agents| => StandingOf(w.agents[i].half))
  }

  function QueueOf(s: Sched, layout: Layout): Queue {
    Queue(s.world.locked, Standings(s.world), s.slab, layout)
  }

  predicate Keyed(slab: map<nat, Ticket>, layout: Layout) {
    && layout.keys.Keys == slab.Keys
    && (forall u :: u in layout.keys ==> layout.keys[u] in layout.halves && layout.halves[layout.keys[u]] == u)
    && (forall k :: k in layout.halves ==> layout.halves[k] in layout.keys && layout.keys[layout.halves[k]] == k)
  }

  function Given(layout: Layout, u: nat, key: L.Key): Layout {
    Layout(layout.keys[u := key], layout.halves[key := u])
  }

  function Vacated(layout: Layout, u: nat): Layout {
    if u in layout.keys then Layout(layout.keys - {u}, layout.halves - {layout.keys[u]}) else layout
  }

  /** One key for each entry; at most one owner, who has no entry. */
  predicate Sound(q: Queue) {
    && Keyed(q.slab, q.layout)
    && (forall u :: u in q.slab ==> u < |q.standing| && !q.standing[u].With?)
    && (forall u :: 0 <= u < |q.standing| && q.standing[u].With? ==> q.flag)
    && (forall u, v :: 0 <= u < |q.standing| && 0 <= v < |q.standing| && q.standing[u].With? && q.standing[v].With? ==>
          u == v)
  }

  /** Half `u` uses the handle `u + 1`; handle 0 stays with the multiplexor, which makes the others from it. */
  function WaiterOf(t: Ticket, u: nat): L.Waiter {
    if t.Asleep? then L.Sleeping(u + 1) else L.Woken
  }

  function HandleOf(standing: Standing, key: Option<L.Key>, notified: bool): L.Actor {
    L.Actor(false, if standing.With? then L.Holding else if key.Some? then L.Parked else L.Idle, key, notified, false)
  }

  function KeyOf(q: Queue, u: nat): Option<L.Key> {
    if u in q.layout.keys then Some(q.layout.keys[u]) else None
  }

  predicate IsAlerted(q: Queue, u: nat) {
    u in q.slab && q.slab[u].Alerted?
  }

  predicate Present(q: Queue, a: L.ActorId) {
    a == 0 || (a <= |q.standing| && !q.standing[a - 1].Out?)
  }

  function HandleAt(q: Queue, a: L.ActorId): L.Actor
    requires Present(q, a)
  {
    if a == 0 then L.FreshHandle else HandleOf(q.standing[a - 1], KeyOf(q, a - 1), IsAlerted(q, a - 1))
  }

  predicate HandleFits(q: Queue, l: L.Lock, a: L.ActorId) {
    (a in l.actors <==> Present(q, a)) && (a in l.actors ==> l.actors[a] == HandleAt(q, a))
  }

  predicate EntryFits(q: Queue, l: L.Lock, k: L.Key) {
    && (k in l.waiters <==> k in q.layout.halves)
    && (k in l.waiters && q.layout.halves[k] in q.slab ==>
          l.waiters[k] == WaiterOf(q.slab[q.layout.halves[k]], q.layout.halves[k]))
  }

  /** The lock has this queue, and nobody is inside a call. */
  ghost predicate Matches(q: Queue, l: L.Lock) {
    && l.flag == q.flag && l.mutex.None? && l.nextId == |q.standing| + 1
    && (forall k :: EntryFits(q, l, k))
    && (forall a :: HandleFits(q, l, a))
  }

  // ---------- What can happen to the queue ----------

  predicate Has(q: Queue, u: nat, standing: Standing) {
    u < |q.standing| && q.standing[u] == standing
  }

  function Taken(q: Queue, u: nat): Queue
    requires u < |q.standing|
  {
    Queue(true, q.standing[u := With], q.slab - {u}, Vacated(q.layout, u))
  }

  function Enqueued(q: Queue, u: nat, key: L.Key): Queue {
    q.(slab := q.slab[u := Asleep], layout := Given(q.layout, u, key))
  }

  function Wasted(q: Queue, u: nat): Queue {
    q.(slab := q.slab[u := Spent])
  }

  function Freed(q: Queue, u: nat, standing: Standing, pick: Option<nat>): Queue
    requires u < |q.standing|
  {
    Queue(false, q.standing[u := standing], if pick.Some? then q.slab[pick.value := Alerted] else q.slab, q.layout)
  }

  /** The lock wakes the sleeping entry with the least key. */
  predicate IsFirst(q: Queue, pick: Option<nat>)
    requires Keyed(q.slab, q.layout)
  {
    && Picks(q.slab, pick)
    && (pick.Some? ==> forall v :: v in q.slab && q.slab[v].Asleep? ==> q.layout.keys[pick.value] <= q.layout.keys[v])
  }

  lemma {:induction false} AnyUsage(l: L.Lock, steps: seq<L.Step>, usage: L.Usage)
    requires L.Exec(l, steps, L.Careful).Some?
    ensures L.Exec(l, steps, usage) == L.Exec(l, steps, L.Careful)
    decreases |steps|
  {
    if steps != [] {
      assert L.Next(l, steps[0], usage) == L.Next(l, steps[0], L.Careful);
      AnyUsage(L.Next(l, steps[0], usage).value, steps[1..], usage);
    }
  }

  lemma OneStep(l: L.Lock, step: L.Step, usage: L.Usage)
    ensures L.Exec(l, [step], usage) == L.Next(l, step, usage)
  {
    L.ExecAppend(l, [], l, step, usage);
    assert [] + [step] == [step];
  }

  // ---------- The lock on its own ----------

  lemma TakeLock(l: L.Lock, a: L.ActorId, usage: L.Usage)
    requires (L.At(l, a, L.Idle) || L.At(l, a, L.Parked)) && !l.actors[a].guard && l.mutex.None? && !l.flag
    ensures L.Exec(l, [L.Poll(a), L.Collect(a)], usage) == Some(LockTaken(l, a))
  {
    O.ExecTwo(l, L.Poll(a), L.Collect(a));
    AnyUsage(l, [L.Poll(a), L.Collect(a)], usage);
    var m := L.Next(l, L.Poll(a), L.Careful).value;
    assert L.Next(m, L.Collect(a), L.Careful).value.actors == LockTaken(l, a).actors;
  }

  function LockTaken(l: L.Lock, a: L.ActorId): L.Lock
    requires a in l.actors
  {
    var x := l.actors[a];
    L.Set(l.(flag := true, waiters := if x.pos.Some? then l.waiters - {x.pos.value} else l.waiters),
          a, x.(phase := L.Holding, pos := None, notified := false))
  }

  /** The lock is given back, the entry `next` is woken, and the handle is idle again, or gone if it was dropped. */
  function LockFreed(l: L.Lock, a: L.ActorId, next: Option<L.Key>, dying: bool): L.Lock
    requires a in l.actors && (next.Some? ==> O.Asleep(l.waiters, next.value))
  {
    var woken :=
      if next.None? then l.(flag := false)
      else L.WakeTarget(l.(flag := false, waiters := l.waiters[next.value := L.Woken]), l.waiters[next.value].waker);
    if dying then woken.(actors := woken.actors - {a}) else L.Set(woken, a, woken.actors[a].(phase := L.Idle))
  }

  function FreeSteps(a: L.ActorId, next: Option<L.Key>, dying: bool): seq<L.Step> {
    [if dying then L.Drop(a) else L.Unlock(a), L.Store(a)] +
    if next.Some? then [L.Pick(a, next.value), L.Notify(a)] else [L.PickNone(a)]
  }

  lemma StoreLock(l: L.Lock, a: L.ActorId, dying: bool)
    requires L.At(l, a, L.Holding) && !l.actors[a].guard && l.mutex.None?
    ensures L.Exec(l, [if dying then L.Drop(a) else L.Unlock(a), L.Store(a)], L.Careful) == Some(Scanning(l, a, dying))
  {
    var first := if dying then L.Drop(a) else L.Unlock(a);
    O.ExecTwo(l, first, L.Store(a));
    var m := L.Next(l, first, L.Careful).value;
    assert L.Next(m, L.Store(a), L.Careful).value.actors == Scanning(l, a, dying).actors;
  }

  function Scanning(l: L.Lock, a: L.ActorId, dying: bool): L.Lock
    requires a in l.actors
  {
    L.Set(l.(flag := false, mutex := Some(a)), a,
          l.actors[a].(phase := L.Scanning, dying := l.actors[a].dying || dying))
  }

  lemma PickLock(l: L.Lock, a: L.ActorId, key: L.Key, dying: bool)
    requires L.At(l, a, L.Holding) && !l.actors[a].dying && l.mutex.None?
    requires O.FirstAsleep(l.waiters, key) && l.waiters[key].waker != a
    ensures L.Exec(Scanning(l, a, dying), [L.Pick(a, key), L.Notify(a)], L.Careful) ==
            Some(LockFreed(l, a, Some(key), dying))
  {
    var m := Scanning(l, a, dying);
    O.ExecTwo(m, L.Pick(a, key), L.Notify(a));
    var n := Picked(l, a, key, dying);
    assert L.Next(m, L.Pick(a, key), L.Careful).value.actors == n.actors;
    NotifyLock(l, a, key, dying);
  }

  function Picked(l: L.Lock, a: L.ActorId, key: L.Key, dying: bool): L.Lock
    requires a in l.actors && O.Asleep(l.waiters, key)
  {
    L.Set(l.(flag := false, waiters := l.waiters[key := L.Woken], mutex := None), a,
          l.actors[a].(phase := L.Waking(l.waiters[key].waker), dying := l.actors[a].dying || dying))
  }

  lemma NotifyLock(l: L.Lock, a: L.ActorId, key: L.Key, dying: bool)
    requires L.At(l, a, L.Holding) && !l.actors[a].dying && l.mutex.None?
    requires O.Asleep(l.waiters, key) && l.waiters[key].waker != a
    ensures L.Next(Picked(l, a, key, dying), L.Notify(a), L.Careful) == Some(LockFreed(l, a, Some(key), dying))
  {
    var s' := L.Next(Picked(l, a, key, dying), L.Notify(a), L.Careful).value;
    assert s'.actors == LockFreed(l, a, Some(key), dying).actors;
  }

  lemma PickNoneLock(l: L.Lock, a: L.ActorId, dying: bool)
    requires L.At(l, a, L.Holding) && !l.actors[a].dying && l.mutex.None?
    requires forall k :: k in l.waiters ==> l.waiters[k].Woken?
    ensures L.Exec(Scanning(l, a, dying), [L.PickNone(a)], L.Careful) == Some(LockFreed(l, a, None, dying))
  {
    var m := Scanning(l, a, dying);
    OneStep(m, L.PickNone(a), L.Careful);
    assert L.Next(m, L.PickNone(a), L.Careful).value.actors == LockFreed(l, a, None, dying).actors;
  }

  lemma FreeLock(l: L.Lock, a: L.ActorId, next: Option<L.Key>, dying: bool, usage: L.Usage)
    requires L.At(l, a, L.Holding) && !l.actors[a].guard && !l.actors[a].dying && l.mutex.None?
    requires if next.Some? then O.FirstAsleep(l.waiters, next.value) && l.waiters[next.value].waker != a
             else forall k :: k in l.waiters ==> l.waiters[k].Woken?
    ensures L.Exec(l, FreeSteps(a, next, dying), usage) == Some(LockFreed(l, a, next, dying))
  {
    StoreLock(l, a, dying);
    if next.Some? { PickLock(l, a, next.value, dying); } else { PickNoneLock(l, a, dying); }
    L.ExecConcat(l, [if dying then L.Drop(a) else L.Unlock(a), L.Store(a)],
                 if next.Some? then [L.Pick(a, next.value), L.Notify(a)] else [L.PickNone(a)], L.Careful);
    AnyUsage(l, FreeSteps(a, next, dying), usage);
  }

  // ---------- What a change does to the match ----------

  /** The queues agree on every half but `u`. */
  ghost predicate AgreeOff(q: Queue, q': Queue, u: nat) {
    && |q'.standing| == |q.standing| && u < |q.standing|
    && (forall v :: 0 <= v < |q.standing| && v != u ==> q'.standing[v] == q.standing[v])
    && (forall v: nat :: v != u ==> KeyOf(q', v) == KeyOf(q, v))
    && (forall v: nat :: v != u ==> IsAlerted(q', v) == IsAlerted(q, v))
  }

  lemma HandleSame(q: Queue, q': Queue, u: nat, a: L.ActorId)
    requires AgreeOff(q, q', u) && a != u + 1
    ensures Present(q', a) == Present(q, a) && (Present(q, a) ==> HandleAt(q', a) == HandleAt(q, a))
  {
    if a > 0 {
      var v: nat := a - 1;
      assert KeyOf(q', v) == KeyOf(q, v) && IsAlerted(q', v) == IsAlerted(q, v);
    }
  }

  /** The other handles fit as before. */
  lemma OthersFit(q: Queue, l: L.Lock, q': Queue, l': L.Lock, u: nat)
    requires AgreeOff(q, q', u) && l'.actors - {u + 1} == l.actors - {u + 1}
    requires (forall a :: HandleFits(q, l, a)) && HandleFits(q', l', u + 1)
    ensures forall a :: HandleFits(q', l', a)
  {
    forall a ensures HandleFits(q', l', a) {
      if a != u + 1 {
        HandleSame(q, q', u, a);
        assert HandleFits(q, l, a);
        assert a in l'.actors <==> a in l'.actors - {u + 1};
        assert a in l.actors <==> a in l.actors - {u + 1};
        assert a in l.actors ==> l.actors[a] == (l.actors - {u + 1})[a];
        assert a in l'.actors ==> l'.actors[a] == (l'.actors - {u + 1})[a];
      }
    }
  }

  lemma EntrySet(q: Queue, l: L.Lock, u: nat, t: Ticket, key: L.Key, k: L.Key)
    requires Keyed(q.slab, q.layout) && EntryFits(q, l, k)
    requires if u in q.layout.keys then q.layout.keys[u] == key else key !in q.layout.halves
    ensures EntryFits(q.(slab := q.slab[u := t], layout := Given(q.layout, u, key)),
                      l.(waiters := l.waiters[key := WaiterOf(t, u)]), k)
  {
  }

  lemma EntryLess(q: Queue, l: L.Lock, u: nat, k: L.Key)
    requires Keyed(q.slab, q.layout) && EntryFits(q, l, k)
    ensures EntryFits(q.(slab := q.slab - {u}, layout := Vacated(q.layout, u)),
                      if u in q.layout.keys then l.(waiters := l.waiters - {q.layout.keys[u]}) else l, k)
  {
  }

  lemma KeyedSet(q: Queue, u: nat, t: Ticket, key: L.Key)
    requires Keyed(q.slab, q.layout)
    requires if u in q.layout.keys then q.layout.keys[u] == key else key !in q.layout.halves
    ensures Keyed(q.slab[u := t], Given(q.layout, u, key))
  {
  }

  // ---------- Runs of the lock ----------

  predicate ByHandle(steps: seq<L.Step>, a: L.ActorId) {
    forall i :: 0 <= i < |steps| ==> steps[i].Clone? || steps[i].a == a
  }

  /** The lock `l` gets to the queue `q` by steps of handle `a` alone. */
  ghost predicate Follows(l: L.Lock, steps: seq<L.Step>, usage: L.Usage, a: L.ActorId, q: Queue, l': L.Lock) {
    L.Exec(l, steps, usage) == Some(l') && ByHandle(steps, a) && Sound(q) && Matches(q, l')
  }

  lemma FollowsOn(l: L.Lock, first: seq<L.Step>, usage: L.Usage, a: L.ActorId, m: L.Lock, rest: seq<L.Step>, q: Queue,
                  l': L.Lock)
    requires L.Exec(l, first, usage) == Some(m) && ByHandle(first, a) && Follows(m, rest, usage, a, q, l')
    ensures Follows(l, first + rest, usage, a, q, l')
  {
    L.ExecConcat(l, first, rest, usage);
  }

  lemma JoinRun(q: Queue, l: L.Lock, a: L.ActorId, usage: L.Usage) returns (l': L.Lock)
    requires Sound(q) && Matches(q, l)
    ensures Follows(l, [L.Clone], usage, a, q.(standing := q.standing + [Without]), l')
  {
    var q' := q.(standing := q.standing + [Without]);
    OneStep(l, L.Clone, usage);
    l' := L.Next(l, L.Clone, usage).value;
    forall k ensures EntryFits(q', l', k) { assert EntryFits(q, l, k); }
    forall b ensures HandleFits(q', l', b) { assert HandleFits(q, l, b); }
  }

  lemma TakenSound(q: Queue, u: nat)
    requires Sound(q) && Has(q, u, Without) && !q.flag
    ensures Sound(Taken(q, u)) && AgreeOff(q, Taken(q, u), u)
  {
  }

  lemma TakenMatches(q: Queue, l: L.Lock, u: nat)
    requires Sound(q) && Matches(q, l) && Has(q, u, Without) && !q.flag && u + 1 in l.actors
    ensures Matches(Taken(q, u), LockTaken(l, u + 1))
  {
    var q', l' := Taken(q, u), LockTaken(l, u + 1);
    TakenSound(q, u);
    assert HandleFits(q, l, u + 1);
    OthersFit(q, l, q', l', u);
    forall k ensures EntryFits(q', l', k) {
      assert EntryFits(q, l, k);
      EntryLess(q, l, u, k);
    }
  }

  lemma TakeRun(q: Queue, l: L.Lock, u: nat, usage: L.Usage) returns (l': L.Lock)
    requires Sound(q) && Matches(q, l) && Has(q, u, Without) && !q.flag
    ensures Follows(l, [L.Poll(u + 1), L.Collect(u + 1)], usage, u + 1, Taken(q, u), l')
  {
    assert HandleFits(q, l, u + 1);
    TakeLock(l, u + 1, usage);
    TakenSound(q, u);
    TakenMatches(q, l, u);
    l' := LockTaken(l, u + 1);
  }

  lemma EnqueuedSound(q: Queue, u: nat, key: L.Key)
    requires Sound(q) && Has(q, u, Without)
    requires if u in q.layout.keys then q.layout.keys[u] == key else key !in q.layout.halves
    ensures Sound(Enqueued(q, u, key)) && AgreeOff(q, Enqueued(q, u, key), u)
  {
    KeyedSet(q, u, Asleep, key);
  }

  lemma EnqueuedMatches(q: Queue, l: L.Lock, u: nat, key: L.Key)
    requires Sound(q) && Matches(q, l) && Has(q, u, Without) && u + 1 in l.actors
    requires if u in q.layout.keys then q.layout.keys[u] == key else key !in q.layout.halves
    ensures Matches(Enqueued(q, u, key), O.Enqueued(l, u + 1, key, L.Parked))
  {
    var q', l' := Enqueued(q, u, key), O.Enqueued(l, u + 1, key, L.Parked);
    EnqueuedSound(q, u, key);
    assert HandleFits(q, l, u + 1);
    OthersFit(q, l, q', l', u);
    forall k ensures EntryFits(q', l', k) {
      assert EntryFits(q, l, k);
      EntrySet(q, l, u, Asleep, key, k);
    }
  }

  lemma WaitRun(q: Queue, l: L.Lock, u: nat, key: L.Key, usage: L.Usage) returns (l': L.Lock)
    requires Sound(q) && Matches(q, l) && Has(q, u, Without) && q.flag
    requires if u in q.layout.keys then q.layout.keys[u] == key else key !in q.layout.halves
    ensures Follows(l, [L.Poll(u + 1), L.Join(u + 1, key), L.Recheck(u + 1), L.Requeue(u + 1)], usage, u + 1,
                    Enqueued(q, u, key), l')
  {
    assert HandleFits(q, l, u + 1) && EntryFits(q, l, key);
    l' := O.QueueAlone(l, u + 1, key);
    AnyUsage(l, [L.Poll(u + 1), L.Join(u + 1, key), L.Recheck(u + 1), L.Requeue(u + 1)], usage);
    EnqueuedSound(q, u, key);
    EnqueuedMatches(q, l, u, key);
  }

  /** A woken task that leaves the lock alone. */
  lemma WasteRun(q: Queue, l: L.Lock, u: nat, usage: L.Usage) returns (l': L.Lock)
    requires Sound(q) && Matches(q, l) && Has(q, u, Without) && IsAlerted(q, u) && usage.skip
    ensures Follows(l, [L.Skip(u + 1)], usage, u + 1, Wasted(q, u), l')
  {
    assert HandleFits(q, l, u + 1);
    OneStep(l, L.Skip(u + 1), usage);
    l' := L.Next(l, L.Skip(u + 1), usage).value;
    assert AgreeOff(q, Wasted(q, u), u);
    OthersFit(q, l, Wasted(q, u), l', u);
    forall k ensures EntryFits(Wasted(q, u), l', k) { assert EntryFits(q, l, k); }
  }

  /** A half that does not own the lock is dropped. */
  lemma LeaveRun(q: Queue, l: L.Lock, u: nat, usage: L.Usage) returns (l': L.Lock)
    requires Sound(q) && Matches(q, l) && Has(q, u, Without) && (u in q.slab ==> usage.abandon)
    ensures Follows(l, [L.Drop(u + 1)], usage, u + 1, q.(standing := q.standing[u := Out]), l')
  {
    var q' := q.(standing := q.standing[u := Out]);
    assert HandleFits(q, l, u + 1);
    OneStep(l, L.Drop(u + 1), usage);
    l' := L.Next(l, L.Drop(u + 1), usage).value;
    OthersFit(q, l, q', l', u);
    forall k ensures EntryFits(q', l', k) { assert EntryFits(q, l, k); }
  }

  function NextKey(q: Queue, pick: Option<nat>): Option<L.Key>
    requires Keyed(q.slab, q.layout) && IsFirst(q, pick)
  {
    if pick.Some? then Some(q.layout.keys[pick.value]) else None
  }

  lemma FirstIsFirst(q: Queue, l: L.Lock, pick: Option<nat>)
    requires Sound(q) && Matches(q, l) && IsFirst(q, pick)
    ensures if pick.Some? then O.FirstAsleep(l.waiters, q.layout.keys[pick.value]) &&
                               l.waiters[q.layout.keys[pick.value]].waker == pick.value + 1
            else forall k :: k in l.waiters ==> l.waiters[k].Woken?
  {
    forall k | k in l.waiters && (pick.Some? ==> k < q.layout.keys[pick.value]) ensures l.waiters[k].Woken? {
      assert EntryFits(q, l, k);
    }
    if pick.Some? { assert EntryFits(q, l, q.layout.keys[pick.value]); }
  }

  lemma FreedSound(q: Queue, u: nat, standing: Standing, pick: Option<nat>)
    requires Sound(q) && Has(q, u, With) && !standing.With? && Picks(q.slab, pick)
    ensures Sound(Freed(q, u, standing, pick))
  {
  }

  lemma FreedEntry(q: Queue, l: L.Lock, u: nat, standing: Standing, pick: Option<nat>, k: L.Key)
    requires Sound(q) && Has(q, u, With) && IsFirst(q, pick) && u + 1 in l.actors && EntryFits(q, l, k)
    requires pick.Some? ==> O.Asleep(l.waiters, q.layout.keys[pick.value])
    ensures EntryFits(Freed(q, u, standing, pick), LockFreed(l, u + 1, NextKey(q, pick), standing.Out?), k)
  {
  }

  lemma FreedHandle(q: Queue, l: L.Lock, u: nat, standing: Standing, pick: Option<nat>, a: L.ActorId)
    requires Sound(q) && Has(q, u, With) && !standing.With? && IsFirst(q, pick) && u + 1 in l.actors
    requires HandleFits(q, l, a)
    requires pick.Some? ==> O.Asleep(l.waiters, q.layout.keys[pick.value]) &&
                            l.waiters[q.layout.keys[pick.value]].waker == pick.value + 1
    ensures HandleFits(Freed(q, u, standing, pick), LockFreed(l, u + 1, NextKey(q, pick), standing.Out?), a)
  {
  }

  /** The owner gives the lock back, and is dropped if it is `Out` afterwards. */
  lemma FreeRun(q: Queue, l: L.Lock, u: nat, standing: Standing, pick: Option<nat>, usage: L.Usage)
      returns (l': L.Lock)
    requires Sound(q) && Matches(q, l) && Has(q, u, With) && !standing.With? && IsFirst(q, pick)
    ensures Follows(l, FreeSteps(u + 1, NextKey(q, pick), standing.Out?), usage, u + 1, Freed(q, u, standing, pick), l')
  {
    assert HandleFits(q, l, u + 1);
    FirstIsFirst(q, l, pick);
    FreeLock(l, u + 1, NextKey(q, pick), standing.Out?, usage);
    l' := LockFreed(l, u + 1, NextKey(q, pick), standing.Out?);
    FreedSound(q, u, standing, pick);
    FreedMatches(q, l, u, standing, pick);
  }

  lemma FreedMatches(q: Queue, l: L.Lock, u: nat, standing: Standing, pick: Option<nat>)
    requires Sound(q) && Matches(q, l) && Has(q, u, With) && !standing.With? && IsFirst(q, pick) && u + 1 in l.actors
    requires pick.Some? ==> O.Asleep(l.waiters, q.layout.keys[pick.value]) &&
                            l.waiters[q.layout.keys[pick.value]].waker == pick.value + 1
    ensures Matches(Freed(q, u, standing, pick), LockFreed(l, u + 1, NextKey(q, pick), standing.Out?))
  {
    var q', l' := Freed(q, u, standing, pick), LockFreed(l, u + 1, NextKey(q, pick), standing.Out?);
    forall k ensures EntryFits(q', l', k) {
      assert EntryFits(q, l, k);
      FreedEntry(q, l, u, standing, pick, k);
    }
    forall a ensures HandleFits(q', l', a) {
      assert HandleFits(q, l, a);
      FreedHandle(q, l, u, standing, pick, a);
    }
  }

  // ---------- The steps of the wake model ----------

  /** A poll that gets the lock leaves it locked exactly if the half keeps it. */
  lemma LockedPoll(p: T.Policy, w: T.World, step: T.Step)
    requires Polls(step) && T.Next(p, w, step).Some? && step.u < |w.agents| && !T.Next(p, w, step).value.panicked
    requires Consults(w.agents[step.u].half, step) && T.GetsLock(w, T.Holding(w.agents[step.u].half))
    ensures var w' := T.Next(p, w, step).value;
      && T.OnlyOne(w, w', step.u) && !w.agents[step.u].half.Gone? && !w'.agents[step.u].half.Gone?
      && w'.locked == T.Holding(w'.agents[step.u].half)
  {
  }

  lemma VainPoll(p: T.Policy, w: T.World, step: T.Step)
    requires Polls(step) && T.Next(p, w, step).Some? && step.u < |w.agents|
    requires Consults(w.agents[step.u].half, step) && !T.GetsLock(w, T.Holding(w.agents[step.u].half))
    ensures var w' := T.Next(p, w, step).value;
      && T.OnlyOne(w, w', step.u) && w'.locked && !w'.panicked
      && StandingOf(w.agents[step.u].half) == Without && StandingOf(w'.agents[step.u].half) == Without
  {
  }

  /** The step is not about the lock. */
  predicate Quiet(w: T.World, step: T.Step) {
    !T.Joins(step) && !step.Drop? && step.u < |w.agents| &&
    (Polls(step) ==> !Consults(w.agents[step.u].half, step))
  }

  lemma QuietKeeps(p: T.Policy, w: T.World, step: T.Step)
    requires T.Next(p, w, step).Some? && Quiet(w, step)
    ensures var w' := T.Next(p, w, step).value;
      && T.OnlyOne(w, w', step.u) && w'.locked == w.locked && !w'.panicked
      && !w.agents[step.u].half.Gone? && StandingOf(w'.agents[step.u].half) == StandingOf(w.agents[step.u].half)
  {
  }

  lemma StandingsAfter(w: T.World, w': T.World, u: nat)
    requires u < |w.agents| && T.OnlyOne(w, w', u)
    ensures Standings(w') == Standings(w)[u := StandingOf(w'.agents[u].half)]
  {
  }

  /** The key a half gets is any vacant one; it keeps it until its entry is removed. */
  function LayoutAfter(layout: Layout, slab: map<nat, Ticket>, step: T.Step, key: L.Key): Layout {
    if T.Joins(step) then layout
    else if step.u !in slab then Vacated(layout, step.u)
    else if step.u in layout.keys then layout
    else Given(layout, step.u, key)
  }

  /** A wake scheduler with the layout of its slab. */
  datatype Laid = Laid(sched: Sched, layout: Layout)

  /** The half that is woken had the least key of all sleeping ones. */
  predicate WakesFirst(s: Laid, pick: Option<nat>) {
    pick.Some? ==>
      && pick.value in s.layout.keys
      && forall v :: v in s.sched.slab && s.sched.slab[v].Asleep? && v in s.layout.keys ==>
        s.layout.keys[pick.value] <= s.layout.keys[v]
  }

  function LaidNext(c: Care, s: Laid, step: T.Step, pick: Option<nat>, key: L.Key): Option<Laid> {
    match WakeSystem.Next(c, s.sched, step, pick)
    case None => None
    case Some(sched) =>
      var s' := Laid(sched, LayoutAfter(s.layout, sched.slab, step, key));
      if key in s.layout.halves || !WakesFirst(s', pick) then None else Some(s')
  }

  /** The task of a woken half runs and does not ask for the lock. */
  predicate Wastes(s: Sched, step: T.Step) {
    && !T.Joins(step) && step.u in s.slab && s.slab[step.u].Alerted? && step.u < |s.world.agents|
    && (step.Cancel? || (Polls(step) && !Consults(s.world.agents[step.u].half, step)))
  }

  function Seen(s: Laid): Queue {
    QueueOf(s.sched, s.layout)
  }

  lemma QuietSeen(s: Laid, step: T.Step, s': Laid, key: L.Key)
    requires Quiet(s.sched.world, step) && T.OnlyOne(s.sched.world, s'.sched.world, step.u) && Sound(Seen(s))
    requires s'.sched.world.locked == s.sched.world.locked
    requires StandingOf(s'.sched.world.agents[step.u].half) == StandingOf(s.sched.world.agents[step.u].half)
    requires s'.sched.slab == Queued(s.sched, step)
    requires s'.layout == LayoutAfter(s.layout, s'.sched.slab, step, key)
    ensures Seen(s') == if Wastes(s.sched, step) then Wasted(Seen(s), step.u) else Seen(s)
  {
    StandingsAfter(s.sched.world, s'.sched.world, step.u);
    assert Standings(s.sched.world)[step.u := Standings(s.sched.world)[step.u]] == Standings(s.sched.world);
  }

  lemma QuietUnlocks(w: T.World, step: T.Step, w': T.World)
    requires Quiet(w, step)
    ensures !Unlocks(w, step, w')
  {
  }

  lemma QuietRun(c: Care, s: Laid, step: T.Step, pick: Option<nat>, key: L.Key, s': Laid, l: L.Lock, usage: L.Usage)
      returns (steps: seq<L.Step>, l': L.Lock)
    requires LaidNext(c, s, step, pick, key) == Some(s') && Quiet(s.sched.world, step)
    requires T.Next(c.policy, s.sched.world, step) == Some(s'.sched.world)
    requires Sound(Seen(s)) && Matches(Seen(s), l) && (Wastes(s.sched, step) ==> usage.skip)
    ensures Follows(l, steps, usage, step.u + 1, Seen(s'), l')
  {
    QuietKeeps(c.policy, s.sched.world, step);
    SlabAfter(c, s.sched, step, pick, s'.sched);
    QuietUnlocks(s.sched.world, step, s'.sched.world);
    QuietSeen(s, step, s', key);
    steps, l' := QuietSteps(Seen(s), step.u, Wastes(s.sched, step), Seen(s'), l, usage);
  }

  lemma StayRun(q: Queue, l: L.Lock, a: L.ActorId, usage: L.Usage)
    requires Sound(q) && Matches(q, l)
    ensures Follows(l, [], usage, a, q, l)
  {
  }

  lemma QuietSteps(q: Queue, u: nat, wastes: bool, q': Queue, l: L.Lock, usage: L.Usage)
      returns (steps: seq<L.Step>, l': L.Lock)
    requires Sound(q) && Matches(q, l) && (wastes ==> Has(q, u, Without) && IsAlerted(q, u) && usage.skip)
    requires q' == if wastes then Wasted(q, u) else q
    ensures Follows(l, steps, usage, u + 1, q', l')
  {
    if wastes {
      steps := [L.Skip(u + 1)];
      l' := WasteRun(q, l, u, usage);
    } else {
      steps, l' := [], l;
      StayRun(q, l, u + 1, usage);
    }
  }

  lemma VainSeen(s: Laid, step: T.Step, s': Laid, key: L.Key)
    requires Polls(step) && step.u < |s.sched.world.agents| && Consults(s.sched.world.agents[step.u].half, step)
    requires T.OnlyOne(s.sched.world, s'.sched.world, step.u) && Sound(Seen(s))
    requires !T.GetsLock(s.sched.world, T.Holding(s.sched.world.agents[step.u].half)) && s'.sched.world.locked
    requires StandingOf(s.sched.world.agents[step.u].half) == Without
    requires StandingOf(s'.sched.world.agents[step.u].half) == Without
    requires s'.sched.slab == Queued(s.sched, step)
    requires s'.layout == LayoutAfter(s.layout, s'.sched.slab, step, key)
    ensures Seen(s') == Enqueued(Seen(s), step.u, if step.u in s.layout.keys then s.layout.keys[step.u] else key)
  {
    StandingsAfter(s.sched.world, s'.sched.world, step.u);
    assert Standings(s.sched.world)[step.u := Standings(s.sched.world)[step.u]] == Standings(s.sched.world);
    if step.u in s.layout.keys {
      assert s.layout.keys[step.u := s.layout.keys[step.u]] == s.layout.keys;
      assert s.layout.halves[s.layout.keys[step.u] := step.u] == s.layout.halves;
    }
  }

  lemma VainUnlocks(w: T.World, step: T.Step, w': T.World)
    requires Polls(step) && step.u < |w.agents|
    requires !T.GetsLock(w, T.Holding(w.agents[step.u].half))
    ensures !Unlocks(w, step, w')
  {
  }

  lemma VainRun(c: Care, s: Laid, step: T.Step, pick: Option<nat>, key: L.Key, s': Laid, l: L.Lock, usage: L.Usage)
      returns (steps: seq<L.Step>, l': L.Lock)
    requires LaidNext(c, s, step, pick, key) == Some(s') && Polls(step) && step.u < |s.sched.world.agents|
    requires T.Next(c.policy, s.sched.world, step) == Some(s'.sched.world)
    requires Consults(s.sched.world.agents[step.u].half, step)
    requires !T.GetsLock(s.sched.world, T.Holding(s.sched.world.agents[step.u].half))
    requires Sound(Seen(s)) && Matches(Seen(s), l)
    ensures Follows(l, steps, usage, step.u + 1, Seen(s'), l')
  {
    var u := step.u;
    VainPoll(c.policy, s.sched.world, step);
    SlabAfter(c, s.sched, step, pick, s'.sched);
    VainUnlocks(s.sched.world, step, s'.sched.world);
    VainSeen(s, step, s', key);
    var k := if u in s.layout.keys then s.layout.keys[u] else key;
    steps := [L.Poll(u + 1), L.Join(u + 1, k), L.Recheck(u + 1), L.Requeue(u + 1)];
    l' := WaitRun(Seen(s), l, u, k, usage);
  }

  /** The queue between the first half of a poll, which takes the lock, and the second, which may give it back. */
  lemma TakenSeen(s: Laid, u: nat)
    requires Sound(Seen(s)) && Has(Seen(s), u, With)
    ensures Taken(Seen(s), u) == Seen(s)
  {
    assert Seen(s).slab - {u} == Seen(s).slab;
    assert Seen(s).standing[u := With] == Seen(s).standing;
  }

  lemma LockedSeen(s: Laid, step: T.Step, pick: Option<nat>, s': Laid, key: L.Key)
    requires Polls(step) && step.u < |s.sched.world.agents| && Consults(s.sched.world.agents[step.u].half, step)
    requires T.OnlyOne(s.sched.world, s'.sched.world, step.u) && Sound(Taken(Seen(s), step.u))
    requires !s'.sched.world.agents[step.u].half.Gone?
    requires s'.sched.world.locked == T.Holding(s'.sched.world.agents[step.u].half)
    requires var slab := s.sched.slab - {step.u};
      s'.sched.slab == if s'.sched.world.locked || pick.None? then slab else slab[pick.value := Alerted]
    requires !s'.sched.world.locked ==> Picks(s.sched.slab - {step.u}, pick)
    requires s'.layout == LayoutAfter(s.layout, s'.sched.slab, step, key)
    ensures Seen(s') == if s'.sched.world.locked then Taken(Seen(s), step.u)
                        else Freed(Taken(Seen(s), step.u), step.u, Without, pick)
  {
    StandingsAfter(s.sched.world, s'.sched.world, step.u);
  }

  lemma LockedUnlocks(w: T.World, step: T.Step, w': T.World)
    requires Polls(step) && step.u < |w.agents| && Consults(w.agents[step.u].half, step) && T.OnlyOne(w, w', step.u)
    requires T.GetsLock(w, T.Holding(w.agents[step.u].half)) && !w'.panicked
    ensures Unlocks(w, step, w') <==> !T.Holding(w'.agents[step.u].half)
  {
  }

  lemma WakesIsFirst(q: Queue, s': Laid, pick: Option<nat>)
    requires Keyed(q.slab, q.layout) && Picks(q.slab, pick) && WakesFirst(s', pick) && s'.layout == q.layout
    requires s'.sched.slab == if pick.Some? then q.slab[pick.value := Alerted] else q.slab
    ensures IsFirst(q, pick)
  {
    if pick.Some? {
      forall v | v in q.slab && q.slab[v].Asleep? ensures q.layout.keys[pick.value] <= q.layout.keys[v] {
        if v != pick.value { assert v in s'.sched.slab && s'.sched.slab[v].Asleep?; }
      }
    }
  }

  /** The first half of a poll that gets the lock: nothing to do if it has the lock already. */
  lemma LockedFirst(s: Laid, u: nat, l: L.Lock, usage: L.Usage) returns (steps: seq<L.Step>, m: L.Lock)
    requires u < |s.sched.world.agents| && T.GetsLock(s.sched.world, T.Holding(s.sched.world.agents[u].half))
    requires Sound(Seen(s)) && Matches(Seen(s), l) && !s.sched.world.agents[u].half.Gone?
    ensures Follows(l, steps, usage, u + 1, Taken(Seen(s), u), m)
  {
    if T.Holding(s.sched.world.agents[u].half) {
      TakenSeen(s, u);
      StayRun(Seen(s), l, u + 1, usage);
      steps, m := [], l;
    } else {
      steps := [L.Poll(u + 1), L.Collect(u + 1)];
      m := TakeRun(Seen(s), l, u, usage);
    }
  }

  /** The second half of a poll that has the lock. */
  lemma LockedRest(s: Laid, step: T.Step, pick: Option<nat>, s': Laid, m: L.Lock, usage: L.Usage)
      returns (steps: seq<L.Step>, l': L.Lock)
    requires !T.Joins(step) && step.u < |s.sched.world.agents|
    requires Sound(Taken(Seen(s), step.u)) && Matches(Taken(Seen(s), step.u), m)
    requires !s'.sched.world.locked ==> IsFirst(Taken(Seen(s), step.u), pick)
    requires Seen(s') == if s'.sched.world.locked then Taken(Seen(s), step.u)
                         else Freed(Taken(Seen(s), step.u), step.u, Without, pick)
    ensures Follows(m, steps, usage, step.u + 1, Seen(s'), l')
  {
    var q, u := Taken(Seen(s), step.u), step.u;
    if s'.sched.world.locked {
      steps, l' := [], m;
      StayRun(q, m, u + 1, usage);
    } else {
      steps := FreeSteps(u + 1, NextKey(q, pick), false);
      l' := FreeRun(q, m, u, Without, pick, usage);
    }
  }

  /** What a poll that has the lock does to the queue. */
  lemma LockedFacts(c: Care, s: Laid, step: T.Step, pick: Option<nat>, key: L.Key, s': Laid)
    requires LaidNext(c, s, step, pick, key) == Some(s') && !s'.sched.world.panicked
    requires Polls(step) && step.u < |s.sched.world.agents| && Consults(s.sched.world.agents[step.u].half, step)
    requires T.GetsLock(s.sched.world, T.Holding(s.sched.world.agents[step.u].half))
    requires Sound(Taken(Seen(s), step.u))
    ensures !s'.sched.world.locked ==> IsFirst(Taken(Seen(s), step.u), pick)
    ensures Seen(s') == if s'.sched.world.locked then Taken(Seen(s), step.u)
                        else Freed(Taken(Seen(s), step.u), step.u, Without, pick)
  {
    SlabAfter(c, s.sched, step, pick, s'.sched);
    LockedPoll(c.policy, s.sched.world, step);
    LockedUnlocks(s.sched.world, step, s'.sched.world);
    LockedSeen(s, step, pick, s', key);
    if !s'.sched.world.locked { WakesIsFirst(Taken(Seen(s), step.u), s', pick); }
  }

  lemma LockedRun(c: Care, s: Laid, step: T.Step, pick: Option<nat>, key: L.Key, s': Laid, l: L.Lock, usage: L.Usage)
      returns (steps: seq<L.Step>, l': L.Lock)
    requires LaidNext(c, s, step, pick, key) == Some(s') && !s'.sched.world.panicked
    requires Polls(step) && step.u < |s.sched.world.agents| && Consults(s.sched.world.agents[step.u].half, step)
    requires T.GetsLock(s.sched.world, T.Holding(s.sched.world.agents[step.u].half))
    requires Sound(Seen(s)) && Matches(Seen(s), l) && !s.sched.world.agents[step.u].half.Gone?
    ensures Follows(l, steps, usage, step.u + 1, Seen(s'), l')
  {
    var first, m := LockedFirst(s, step.u, l, usage);
    LockedFacts(c, s, step, pick, key, s');
    var rest;
    rest, l' := LockedRest(s, step, pick, s', m, usage);
    steps := first + rest;
    FollowsOn(l, first, usage, step.u + 1, m, rest, Seen(s'), l');
  }

  lemma DropSeen(c: Care, s: Laid, step: T.Step, pick: Option<nat>, key: L.Key, s': Laid)
    requires LaidNext(c, s, step, pick, key) == Some(s') && step.Drop? && Sound(Seen(s))
    ensures step.u < |s.sched.world.agents| && !s.sched.world.agents[step.u].half.Gone?
    ensures step.u in s.sched.slab ==> c.drops
    ensures if T.Holding(s.sched.world.agents[step.u].half)
            then IsFirst(Seen(s), pick) && Seen(s') == Freed(Seen(s), step.u, Out, pick)
            else Seen(s') == Seen(s).(standing := Seen(s).standing[step.u := Out])
  {
    var w, w' := s.sched.world, s'.sched.world;
    assert w' == T.Put(w, step.u, T.Gone, [], if T.Holding(w.agents[step.u].half) then false else w.locked);
    SlabAfter(c, s.sched, step, pick, s'.sched);
    StandingsAfter(w, w', step.u);
    assert s'.layout == s.layout;
    if T.Holding(w.agents[step.u].half) { WakesIsFirst(Seen(s), s', pick); }
  }

  lemma DropRun(c: Care, s: Laid, step: T.Step, pick: Option<nat>, key: L.Key, s': Laid, l: L.Lock, usage: L.Usage)
      returns (steps: seq<L.Step>, l': L.Lock)
    requires LaidNext(c, s, step, pick, key) == Some(s') && step.Drop? && (c.drops ==> usage.abandon)
    requires Sound(Seen(s)) && Matches(Seen(s), l)
    ensures Follows(l, steps, usage, step.u + 1, Seen(s'), l')
  {
    DropSeen(c, s, step, pick, key, s');
    var u := step.u;
    if T.Holding(s.sched.world.agents[u].half) {
      steps := FreeSteps(u + 1, NextKey(Seen(s), pick), true);
      l' := FreeRun(Seen(s), l, u, Out, pick, usage);
    } else {
      steps := [L.Drop(u + 1)];
      l' := LeaveRun(Seen(s), l, u, usage);
    }
  }

  lemma JoinSeen(c: Care, s: Laid, step: T.Step, pick: Option<nat>, key: L.Key, s': Laid)
    requires LaidNext(c, s, step, pick, key) == Some(s') && T.Joins(step)
    ensures Seen(s') == Seen(s).(standing := Seen(s).standing + [Without])
  {
  }

  /** A step that does not panic is a run of the lock: every atomic poll, with its wakeup, is an interleaving of the
      steps of one handle, from the lock that has the queue before to one that has the queue after. */
  lemma StepIsALockRun(c: Care, s: Laid, step: T.Step, pick: Option<nat>, key: L.Key, s': Laid, l: L.Lock,
                       usage: L.Usage)
      returns (steps: seq<L.Step>, l': L.Lock)
    requires LaidNext(c, s, step, pick, key) == Some(s') && !s'.sched.world.panicked
    requires Sound(Seen(s)) && Matches(Seen(s), l)
    requires (c.drops ==> usage.abandon) && (Wastes(s.sched, step) ==> usage.skip)
    ensures Follows(l, steps, usage, if T.Joins(step) then 0 else step.u + 1, Seen(s'), l')
  {
    SlabAfter(c, s.sched, step, pick, s'.sched);
    if T.Joins(step) {
      JoinSeen(c, s, step, pick, key, s');
      steps := [L.Clone];
      l' := JoinRun(Seen(s), l, 0, usage);
    } else if step.Drop? {
      steps, l' := DropRun(c, s, step, pick, key, s', l, usage);
    } else if Quiet(s.sched.world, step) {
      steps, l' := QuietRun(c, s, step, pick, key, s', l, usage);
    } else if T.GetsLock(s.sched.world, T.Holding(s.sched.world.agents[step.u].half)) {
      LockedPoll(c.policy, s.sched.world, step);
      steps, l' := LockedRun(c, s, step, pick, key, s', l, usage);
    } else {
      steps, l' := VainRun(c, s, step, pick, key, s', l, usage);
    }
  }

  // ---------- Whole runs ----------

  function LaidExec(c: Care, s: Laid, run: seq<(T.Step, Option<nat>, L.Key)>): Option<Laid>
    decreases |run|
  {
    if run == [] then Some(s)
    else
      match LaidNext(c, s, run[0].0, run[0].1, run[0].2)
      case None => None
      case Some(s') => LaidExec(c, s', run[1..])
  }

  const Start := Laid(WakeSystem.Init(), Layout(map[], map[]))

  /** How the halves use the lock: a queued one is dropped, or its task leaves the lock alone, only as far as the
      callers are careless. */
  function UsageOf(c: Care): L.Usage {
    L.Usage(c.drops, c.drops || !Attentive(c.policy))
  }

  lemma SteadyWastesNothing(c: Care, s: Sched, step: T.Step)
    requires Attentive(c.policy) && !c.drops && Steady(s) && Careful(c, s, step)
    requires T.Next(c.policy, s.world, step).Some?
    ensures !Wastes(s, step)
  {
    if !T.Joins(step) && step.u in s.slab && Polls(step) { InsistsConsults(c, s, step); }
  }

  lemma PanicEnds(c: Care, s: Laid, run: seq<(T.Step, Option<nat>, L.Key)>)
    requires s.sched.world.panicked && LaidExec(c, s, run).Some?
    ensures run == []
  {
  }

  lemma {:induction false} RunFrom(c: Care, s: Laid, owner: Option<nat>, run: seq<(T.Step, Option<nat>, L.Key)>,
                                   l: L.Lock, s': Laid) returns (l': L.Lock)
    requires LaidExec(c, s, run) == Some(s') && !s'.sched.world.panicked
    requires T.Safe(s.sched.world, owner) && (Attentive(c.policy) && !c.drops ==> Steady(s.sched))
    requires Sound(Seen(s)) && Matches(Seen(s), l) && L.Reachable(l, UsageOf(c))
    ensures L.Reachable(l', UsageOf(c)) && Sound(Seen(s')) && Matches(Seen(s'), l')
    decreases |run|
  {
    if run == [] {
      l' := l;
    } else {
      var (step, pick, key) := run[0];
      var m := LaidNext(c, s, step, pick, key).value;
      if m.sched.world.panicked { PanicEnds(c, m, run[1..]); }
      SlabAfter(c, s.sched, step, pick, m.sched);
      if Attentive(c.policy) && !c.drops {
        SteadyWastesNothing(c, s.sched, step);
        SteadyNext(c, s.sched, owner, step, pick);
      }
      var owner' := SafeNext(c.policy, s.sched.world, owner, step);
      var steps, k := StepIsALockRun(c, s, step, pick, key, m, l, UsageOf(c));
      ReachOn(l, steps, k, UsageOf(c));
      l' := RunFrom(c, m, owner', run[1..], k, s');
    }
  }

  lemma ReachOn(l: L.Lock, steps: seq<L.Step>, l': L.Lock, usage: L.Usage)
    requires L.Reachable(l, usage) && L.Exec(l, steps, usage) == Some(l')
    ensures L.Reachable(l', usage)
  {
    var before :| L.Exec(L.Init, before, usage) == Some(l);
    L.ExecConcat(L.Init, before, steps, usage);
    assert L.Exec(L.Init, before + steps, usage) == Some(l');
  }

  /** Every run of the wake model that wakes in the order of the keys, and has not panicked, is an interleaving of the
      lock's steps, from a new lock to one with the same flag, the same owner, the same entries and the same tasks
      notified; a queued handle is dropped or skips its turn in it only if the callers are not careful. */
  lemma RunIsALockRun(c: Care, run: seq<(T.Step, Option<nat>, L.Key)>, s: Laid) returns (l: L.Lock)
    requires LaidExec(c, Start, run) == Some(s) && !s.sched.world.panicked
    ensures L.Reachable(l, UsageOf(c)) && Sound(Seen(s)) && Matches(Seen(s), l)
  {
    assert L.Exec(L.Init, [], UsageOf(c)) == Some(L.Init);
    l := RunFrom(c, Start, None, run, L.Init, s);
  }

  lemma {:induction false} LeastAsleep(slab: map<nat, Ticket>, keys: map<nat, L.Key>, u: nat) returns (v: nat)
    requires slab.Keys <= keys.Keys && u in slab && slab[u].Asleep?
    ensures v in slab && slab[v].Asleep? && forall w :: w in slab && slab[w].Asleep? ==> keys[v] <= keys[w]
    decreases keys[u]
  {
    if w :| w in slab && slab[w].Asleep? && keys[w] < keys[u] {
      v := LeastAsleep(slab, keys, w);
    } else {
      v := u;
    }
  }

  lemma LayoutCovers(s: Laid, step: T.Step, slab: map<nat, Ticket>, key: L.Key)
    requires Keyed(s.sched.slab, s.layout) && slab == Queued(s.sched, step)
    ensures slab.Keys <= LayoutAfter(s.layout, slab, step, key).keys.Keys
  {
  }

  lemma OtherPick(c: Care, s: Sched, step: T.Step, u: nat, v: nat)
    requires WakeSystem.Next(c, s, step, Some(u)).Some? && v in Queued(s, step) && Queued(s, step)[v].Asleep?
    ensures WakeSystem.Next(c, s, step, Some(v)) ==
            Some(Sched(WakeSystem.Next(c, s, step, Some(u)).value.world, Queued(s, step)[v := Alerted]))
  {
    SlabAfter(c, s, step, Some(u), WakeSystem.Next(c, s, step, Some(u)).value);
  }

  lemma SleeperIsQueued(c: Care, s: Sched, step: T.Step, u: nat)
    requires WakeSystem.Next(c, s, step, Some(u)).Some?
    ensures u in Queued(s, step) && Queued(s, step)[u].Asleep?
  {
    SlabAfter(c, s, step, Some(u), WakeSystem.Next(c, s, step, Some(u)).value);
  }

  /** The order of the keys never stands in the way: if the wake model takes a step with some half woken, it takes it
      with the first one. */
  lemma SomeHalfIsFirst(c: Care, s: Laid, step: T.Step, pick: Option<nat>, key: L.Key) returns (first: Option<nat>)
    requires Keyed(s.sched.slab, s.layout) && key !in s.layout.halves
    requires WakeSystem.Next(c, s.sched, step, pick).Some?
    ensures LaidNext(c, s, step, first, key).Some?
    ensures LaidNext(c, s, step, first, key).value.sched.world == WakeSystem.Next(c, s.sched, step, pick).value.world
  {
    first := pick;
    if pick.Some? {
      var slab := Queued(s.sched, step);
      SleeperIsQueued(c, s.sched, step, pick.value);
      var layout := LayoutAfter(s.layout, slab, step, key);
      LayoutCovers(s, step, slab, key);
      var v := LeastAsleep(slab, layout.keys, pick.value);
      first := Some(v);
      OtherPick(c, s.sched, step, pick.value, v);
      assert LayoutAfter(s.layout, slab[v := Alerted], step, key) == layout;
      assert WakesFirst(Laid(Sched(WakeSystem.Next(c, s.sched, step, pick).value.world, slab[v := Alerted]), layout),
                        first);
    }
  }
}
