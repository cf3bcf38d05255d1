/** The two-source select that drives the multiplexor actor. */
module UnfairSelect {
  import opened Common

  /** What a source answers when it is polled. */
  datatype Poll<T> = Pending | Item(value: T) | End

  datatype Side = Left | Right

  function Other(s: Side): Side {
    if s.Left? then Right else Left
  }

  /** A source is a script of future answers; once it is used up the source stays pending. */
  type Script<T> = seq<Poll<T>>

  datatype Select<T> = Select(left: Script<T>, right: Script<T>, next: Side, finished: bool)

  function Start<T>(left: Script<T>, right: Script<T>): Select<T> {
    Select(left, right, Left, false)
  }

  function ScriptOf<T>(s: Select<T>, side: Side): Script<T> {
    if side.Left? then s.left else s.right
  }

  function Head<T>(q: Script<T>): Poll<T> {
    if q == [] then Pending else q[0]
  }

  function Rest<T>(q: Script<T>): Script<T> {
    if q == [] then [] else q[1..]
  }

  /** `poll_side` */
  function SideStep<T>(s: Select<T>, side: Side): (Select<T>, Poll<T>) {
    if side.Left? then (s.(left := Rest(s.left)), Head(s.left)) else (s.(right := Rest(s.right)), Head(s.right))
  }

  /** `poll_inner`: the given side first, the other one if it is pending. */
  function InnerStep<T>(s: Select<T>, side: Side): (Select<T>, Poll<T>) {
    var (s1, p1) := SideStep(s, side);
    if p1.Item? then (s1, p1)
    else if p1.End? then (s1.(finished := true), End)
    else
      var (s2, p2) := SideStep(s1, Other(side));
      if p2.End? then (s2.(finished := true), End) else (s2, p2)
  }

  /** `poll_next`: the preferred side alternates with every poll. */
  function SelectStep<T>(s: Select<T>): (Select<T>, Poll<T>) {
    var toggled := s.(next := Other(s.next));
    if s.finished then (toggled, End) else InnerStep(toggled, s.next)
  }

  // ---------- The object ----------

  class Source<T> {
    var script: Script<T>

    constructor (script: Script<T>)
      ensures this.script == script
    {
      this.script := script;
    }

    method PollNext() returns (p: Poll<T>)
      modifies this
      ensures p == Head(old(script)) && script == Rest(old(script))
    {
      p := Pending;
      if script != [] {
        p := script[0];
        script := script[1..];
      }
    }
  }

  class Selector<T> {
    const stream1: Source<T>
    const stream2: Source<T>
    var next: Side
    var finished: bool

    ghost function View(): Select<T>
      reads this, stream1, stream2
    {
      Select(stream1.script, stream2.script, next, finished)
    }

    constructor (stream1: Source<T>, stream2: Source<T>)
      requires stream1 != stream2
      ensures View() == Start(stream1.script, stream2.script)
      ensures this.stream1 == stream1 && this.stream2 == stream2
    {
      this.stream1, this.stream2 := stream1, stream2;
      next, finished := Left, false;
    }

    method PollSide(side: Side) returns (p: Poll<T>)
      requires stream1 != stream2
      modifies stream1, stream2
      ensures (View(), p) == SideStep(old(View()), side)
    {
      if side.Left? {
        p := stream1.PollNext();
      } else {
        p := stream2.PollNext();
      }
    }

    method PollNext() returns (p: Poll<T>)
      requires stream1 != stream2
      modifies this, stream1, stream2
      ensures (View(), p) == SelectStep(old(View()))
    {
      var side := next;
      next := Other(next);
      if finished {
        return End;
      }
      p := PollSide(side);
      if p.Item? {
        return;
      }
      if p.End? {
        finished := true;
        return;
      }
      p := PollSide(Other(side));
      if p.End? {
        finished := true;
      }
    }
  }

  // ---------- Whole runs ----------

  function Items<T>(q: Script<T>): seq<T> {
    if q == [] then [] else (if q[0].Item? then [q[0].value] else []) + Items(q[1..])
  }

  /** `out` merges `a` and `b`, keeping the order of each. */
  predicate Interleaves<T(==)>(out: seq<T>, a: seq<T>, b: seq<T>)
    decreases |out|
  {
    if out == [] then a == [] && b == []
    else
      var init, last := out[..|out| - 1], out[|out| - 1];
      || (a != [] && a[|a| - 1] == last && Interleaves(init, a[..|a| - 1], b))
      || (b != [] && b[|b| - 1] == last && Interleaves(init, a, b[..|b| - 1]))
  }

  /** The state after `n` polls. */
  function After<T>(s: Select<T>, n: nat): Select<T> {
    if n == 0 then s else SelectStep(After(s, n - 1)).0
  }

  /** The items returned by `n` polls. */
  function Output<T>(s: Select<T>, n: nat): seq<T> {
    if n == 0 then []
    else
      var p := SelectStep(After(s, n - 1)).1;
      if p.Item? then Output(s, n - 1) + [p.value] else Output(s, n - 1)
  }

  predicate NoEnd<T(!new)>(q: Script<T>) {
    forall i :: 0 <= i < |q| ==> !q[i].End?
  }

  /** What has been consumed of the two scripts. */
  ghost predicate Consumed<T(!new)>(s0: Select<T>, s: Select<T>, usedL: Script<T>, usedR: Script<T>) {
    s0.left == usedL + s.left && s0.right == usedR + s.right
  }

  lemma {:induction false} ItemsSnoc<T>(q: Script<T>, p: Poll<T>)
    ensures Items(q + [p]) == if p.Item? then Items(q) + [p.value] else Items(q)
    decreases |q|
  {
    if q == [] {
      assert q + [p] == [p] && [p][1..] == [];
    } else {
      assert (q + [p])[1..] == q[1..] + [p] && (q + [p])[0] == q[0];
      ItemsSnoc(q[1..], p);
      var head := if q[0].Item? then [q[0].value] else [];
      if p.Item? { assert head + (Items(q[1..]) + [p.value]) == head + Items(q[1..]) + [p.value]; }
    }
  }

  lemma InterleavesSnoc<T>(out: seq<T>, a: seq<T>, b: seq<T>, x: T)
    requires Interleaves(out, a, b)
    ensures Interleaves(out + [x], a + [x], b) && Interleaves(out + [x], a, b + [x])
  {
    assert (out + [x])[..|out|] == out && (a + [x])[..|a|] == a && (b + [x])[..|b|] == b;
  }

  lemma ConcatAssoc<T>(a: seq<T>, b: seq<T>, c: seq<T>)
    ensures (a + b) + c == a + (b + c)
  {
  }

  lemma NoEndSnoc<T(!new)>(q: Script<T>, p: Poll<T>)
    requires NoEnd(q)
    ensures NoEnd(q + [p]) <==> !p.End?
  {
    assert (q + [p])[|q|] == p;
  }

  /** What was used grows by the first answer of the rest. */
  lemma OneMore<T(!new)>(whole: Script<T>, used: Script<T>, rest: Script<T>)
    requires whole == used + rest && rest != [] && NoEnd(used)
    ensures whole == (used + [rest[0]]) + rest[1..]
    ensures NoEnd(used + [rest[0]]) <==> !rest[0].End?
    ensures Items(used + [rest[0]]) == if rest[0].Item? then Items(used) + [rest[0].value] else Items(used)
  {
    var head := [rest[0]];
    assert rest == head + rest[1..];
    ConcatAssoc(used, head, rest[1..]);
    NoEndSnoc(used, rest[0]);
    ItemsSnoc(used, rest[0]);
  }

  /** One source is asked once. */
  lemma AskSide<T(!new)>(s0: Select<T>, s: Select<T>, side: Side, usedL: Script<T>, usedR: Script<T>)
      returns (usedL': Script<T>, usedR': Script<T>)
    requires Consumed(s0, s, usedL, usedR) && NoEnd(usedL) && NoEnd(usedR)
    ensures Consumed(s0, SideStep(s, side).0, usedL', usedR')
    ensures var p := SideStep(s, side).1;
      && (p.End? <==> !(NoEnd(usedL') && NoEnd(usedR')))
      && Items(usedL') == (if side.Left? && p.Item? then Items(usedL) + [p.value] else Items(usedL))
      && Items(usedR') == (if side.Right? && p.Item? then Items(usedR) + [p.value] else Items(usedR))
  {
    usedL', usedR' := usedL, usedR;
    var q := ScriptOf(s, side);
    if q != [] {
      if side.Left? {
        usedL' := usedL + [q[0]];
        OneMore(s0.left, usedL, q);
      } else {
        usedR' := usedR + [q[0]];
        OneMore(s0.right, usedR, q);
      }
    }
  }

  /** For any two sources and any number of polls: the items returned are a merge of the items in what was consumed
      of the two sources, nothing lost or duplicated, and the select has finished exactly if one of the two was
      seen to end. */
  lemma {:induction false} SelectMerges<T(!new)>(left: Script<T>, right: Script<T>, n: nat)
      returns (usedL: Script<T>, usedR: Script<T>)
    ensures var s, out := After(Start(left, right), n), Output(Start(left, right), n);
      && Consumed(Start(left, right), s, usedL, usedR)
      && Interleaves(out, Items(usedL), Items(usedR))
      && (s.finished <==> !(NoEnd(usedL) && NoEnd(usedR)))
    decreases n
  {
    var s0 := Start(left, right);
    if n == 0 {
      usedL, usedR := [], [];
    } else {
      usedL, usedR := SelectMerges(left, right, n - 1);
      var m, out := After(s0, n - 1), Output(s0, n - 1);
      if !m.finished {
        usedL, usedR := OnePoll(s0, m, out, usedL, usedR);
      }
    }
  }

  lemma OnePoll<T(!new)>(s0: Select<T>, m: Select<T>, out: seq<T>, usedL: Script<T>, usedR: Script<T>)
      returns (usedL': Script<T>, usedR': Script<T>)
    requires !m.finished && Consumed(s0, m, usedL, usedR) && NoEnd(usedL) && NoEnd(usedR)
    requires Interleaves(out, Items(usedL), Items(usedR))
    ensures var (s, p) := SelectStep(m);
      && Consumed(s0, s, usedL', usedR')
      && Interleaves(if p.Item? then out + [p.value] else out, Items(usedL'), Items(usedR'))
      && (s.finished <==> !(NoEnd(usedL') && NoEnd(usedR')))
  {
    var toggled := m.(next := Other(m.next));
    var (s1, p1) := SideStep(toggled, m.next);
    usedL', usedR' := AskSide(s0, toggled, m.next, usedL, usedR);
    if p1.Item? {
      InterleavesSnoc(out, Items(usedL), Items(usedR), p1.value);
    } else if p1.Pending? {
      var p2 := SideStep(s1, Other(m.next)).1;
      usedL', usedR' := AskSide(s0, s1, Other(m.next), usedL', usedR');
      if p2.Item? { InterleavesSnoc(out, Items(usedL), Items(usedR), p2.value); }
    }
  }

  /** Once finished, the select reports the end for ever and asks nobody. */
  lemma {:induction false} EndsForGood<T>(s: Select<T>, n: nat)
    requires s.finished
    ensures After(s, n) == s.(next := After(s, n).next) && Output(s, n) == [] && SelectStep(After(s, n)).1.End?
    decreases n
  {
    if n > 0 { EndsForGood(s, n - 1); }
  }

  /** Fair share: from any state, whatever the other source does, a source with items ready for the next `2n` polls
      has at least `n` of them taken by then, unless the select ended. */
  lemma {:induction false} FairShare<T>(s: Select<T>, side: Side, n: nat) returns (taken: nat)
    requires |ScriptOf(s, side)| >= 2 * n
    requires forall i :: 0 <= i < 2 * n ==> ScriptOf(s, side)[i].Item?
    ensures n <= taken <= 2 * n
    ensures var e := After(s, 2 * n); e.finished || ScriptOf(e, side) == ScriptOf(s, side)[taken..]
    decreases n
  {
    taken := n;
    if n > 0 {
      var k := FairShare(s, side, n - 1);
      var q, m := ScriptOf(s, side), 2 * (n - 1);
      if !After(s, m).finished {
        assert q[k..][0] == q[k] && q[k..][1] == q[k + 1];
        var d := FairRound(s, side, m);
        taken := k + d;
        assert q[k..][d..] == q[taken..];
      } else {
        FairAfter(s, m);
      }
    }
  }

  lemma FairAfter<T>(s: Select<T>, m: nat)
    requires After(s, m).finished
    ensures After(s, m + 2).finished
  {
    assert After(s, m + 1).finished;
  }

  lemma FairRound<T>(s: Select<T>, side: Side, m: nat) returns (d: nat)
    requires var q := ScriptOf(After(s, m), side); |q| >= 2 && q[0].Item? && q[1].Item?
    requires !After(s, m).finished
    ensures 1 <= d <= 2
    ensures After(s, m + 2).finished || ScriptOf(After(s, m + 2), side) == ScriptOf(After(s, m), side)[d..]
  {
    var a := After(s, m);
    var b, c := After(s, m + 1), After(s, m + 2);
    assert b == SelectStep(a).0 && c == SelectStep(b).0;
    d := TwoSteps(a, side);
  }

  lemma TwoSteps<T>(s: Select<T>, side: Side) returns (d: nat)
    requires var q := ScriptOf(s, side); |q| >= 2 && q[0].Item? && q[1].Item?
    requires !s.finished
    ensures 1 <= d <= 2
    ensures var e := SelectStep(SelectStep(s).0).0; e.finished || ScriptOf(e, side) == ScriptOf(s, side)[d..]
  {
    var q, q2 := ScriptOf(s, side), ScriptOf(SelectStep(SelectStep(s).0).0, side);
    d := if q2 == q[1..] then 1 else 2;
  }

  /** Of two sources that are both ready the first poll takes from the left one, and from then on they take turns. */
  lemma TakesTurns<T>(s: Select<T>)
    requires !s.finished && Head(s.left).Item? && Head(s.right).Item?
    ensures var (s', p) := SelectStep(s);
      && s'.next != s.next && p == Head(ScriptOf(s, s.next))
      && ScriptOf(s', s.next) == Rest(ScriptOf(s, s.next)) && ScriptOf(s', s'.next) == ScriptOf(s, s'.next)
    ensures Start(s.left, s.right).next == Left && !Start(s.left, s.right).finished
  {
  }

  // ---------- Nobody is starved of a poll ----------

  /** A poll of an unfinished select is pending exactly if both sources are: each of them has been asked by then. */
  lemma PendingExactly<T>(s: Select<T>)
    requires !s.finished
    ensures var (s', p) := SelectStep(s);
      && (p.Pending? <==> Head(s.left).Pending? && Head(s.right).Pending?)
      && (p.Pending? ==> s' == Select(Rest(s.left), Rest(s.right), Other(s.next), false))
  {
  }

  /** The source answers Pending for the next `n` polls. */
  predicate Quiet<T>(q: Script<T>, n: nat) {
    forall i :: 0 <= i < n && i < |q| ==> q[i].Pending?
  }

  predicate Ready<T>(q: Script<T>, n: nat) {
    n <= |q| && forall i :: 0 <= i < n ==> q[i].Item?
  }

  /** One poll while the other source is pending. */
  lemma AloneStep<T>(s: Select<T>, side: Side)
    requires !s.finished && Ready(ScriptOf(s, side), 1) && Quiet(ScriptOf(s, Other(side)), 1)
    ensures var (s', p) := SelectStep(s);
      && p == ScriptOf(s, side)[0] && !s'.finished && ScriptOf(s', side) == ScriptOf(s, side)[1..]
      && (ScriptOf(s', Other(side)) == ScriptOf(s, Other(side)) ||
          ScriptOf(s', Other(side)) == Rest(ScriptOf(s, Other(side))))
  {
  }

  /** What the two sources still hold after some polls. */
  predicate Remains<T(==)>(s: Select<T>, side: Side, q: Script<T>, other: Script<T>, taken: nat, asked: nat) {
    && !s.finished && taken <= |q| && asked <= taken && asked <= |other|
    && ScriptOf(s, side) == q[taken..] && ScriptOf(s, Other(side)) == other[asked..]
  }

  lemma AloneNext<T>(m: Select<T>, side: Side, q: Script<T>, other: Script<T>, k: nat, asked: nat) returns (asked': nat)
    requires Remains(m, side, q, other, k, asked) && Ready(q, k + 1) && Quiet(other, k + 1)
    ensures SelectStep(m).1 == q[k] && Remains(SelectStep(m).0, side, q, other, k + 1, asked')
  {
    assert q[k..][0] == q[k] && q[k..][1..] == q[k + 1..];
    if other[asked..] != [] {
      assert other[asked..][0] == other[asked] && other[asked..][1..] == other[asked + 1..];
    }
    AloneStep(m, side);
    asked' := if ScriptOf(SelectStep(m).0, Other(side)) == other[asked..] then asked else asked + 1;
  }

  lemma OutputNext<T>(s: Select<T>, q: Script<T>, k: nat)
    requires k < |q| && Output(s, k) == Items(q[..k]) && SelectStep(After(s, k)).1 == q[k] && q[k].Item?
    ensures Output(s, k + 1) == Items(q[..k + 1]) && |Output(s, k + 1)| == |Output(s, k)| + 1
  {
    assert q[..k + 1] == q[..k] + [q[k]];
    ItemsSnoc(q[..k], q[k]);
  }

  /** A source whose partner is pending is served by every poll: `n` polls return its next `n` items. */
  lemma {:induction false} AloneIsServed<T>(s: Select<T>, side: Side, n: nat) returns (asked: nat)
    requires !s.finished && Ready(ScriptOf(s, side), n) && Quiet(ScriptOf(s, Other(side)), n)
    ensures Output(s, n) == Items(ScriptOf(s, side)[..n]) && |Output(s, n)| == n
    ensures Remains(After(s, n), side, ScriptOf(s, side), ScriptOf(s, Other(side)), n, asked)
    decreases n
  {
    asked := 0;
    if n > 0 {
      var k, q := n - 1, ScriptOf(s, side);
      asked := AloneIsServed(s, side, k);
      asked := AloneNext(After(s, k), side, q, ScriptOf(s, Other(side)), k, asked);
      OutputNext(s, q, k);
    }
  }
}
