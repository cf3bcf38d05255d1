/** Where the guarantees of the flow-controlled stream end: runs that lose a packet, for every buffer size
    above 10 and for every writer that does not flush, and the buffer size that never starts.  */
module FlowLimits {
  import opened Common
  import opened FlowSpec
  import opened FlowSystem

  lemma {:induction false} ExecConcat(c: Config, s: Flow, first: seq<Step>, rest: seq<Step>)
    requires Exec(c, s, first).Some?
    ensures Exec(c, s, first + rest) == Exec(c, Exec(c, s, first).value, rest)
    decreases |first|
  {
    if first == [] {
      assert first + rest == rest;
    } else {
      assert (first + rest)[1..] == first[1..] + rest;
      ExecConcat(c, Next(c, s, first[0]).value, first[1..], rest);
    }
  }

  lemma ReachExec(c: Config, s: Flow, steps: seq<Step>, s': Flow)
    requires Reachable(c, s) && Exec(c, s, steps) == Option.Some(s')
    ensures Reachable(c, s')
  {
    var before :| Exec(c, Init(c), before) == Option.Some(s);
    ExecConcat(c, Init(c), before, steps);
  }

  lemma ReachNext(c: Config, s: Flow, step: Step) returns (s': Flow)
    requires Reachable(c, s) && Next(c, s, step).Some?
    ensures s' == Next(c, s, step).value && Reachable(c, s')
  {
    s' := Next(c, s, step).value;
    assert [step][1..] == [];
    ReachExec(c, s, [step], s');
  }

  /** Nothing changes but the writer, which sends `sent` packets at the price of `paid` credit. */
  predicate Sent(s: Flow, s': Flow, sent: int, paid: int) {
    && |s'.data| == |s.data| + sent && s'.writer.credit == s.writer.credit - paid
    && s'.reader == s.reader && s'.updates == s.updates && s'.dropped == s.dropped && s'.writer.connected
  }

  /** Sends and flushes `n` items. */
  lemma {:induction false} SendMany(c: Config, s: Flow, n: nat) returns (s': Flow)
    requires Reachable(c, s) && s.writer.connected && s.writer.chunk.None? && s.writer.credit >= n
    ensures Reachable(c, s') && s'.writer.chunk.None? && Sent(s, s', n, n)
    decreases n
  {
    if n == 0 {
      s' := s;
    } else {
      s' := ReachNext(c, s, PollReady(Accepted));
      s' := ReachNext(c, s', StartSend([]));
      s' := ReachNext(c, s', PollFlush(Accepted, Flushed));
      s' := SendMany(c, s', n - 1);
    }
  }

  /** Feeds `n` items: each is written by the `poll_ready` of the next one, the last one stays behind. */
  lemma {:induction false} FeedMany(c: Config, s: Flow, n: nat) returns (s': Flow)
    requires Reachable(c, s) && !c.flushEach && s.writer.connected && s.writer.chunk.Some? && s.writer.credit >= n
    ensures Reachable(c, s') && s'.writer.chunk.Some? && Sent(s, s', n, n)
    decreases n
  {
    if n == 0 {
      s' := s;
    } else {
      s' := ReachNext(c, s, PollReady(Accepted));
      s' := ReachNext(c, s', StartSend([]));
      s' := FeedMany(c, s', n - 1);
    }
  }

  lemma {:induction false} ArriveMany(c: Config, s: Flow, n: nat) returns (s': Flow)
    requires Reachable(c, s) && n <= |s.data| && |s.reader.queue| + n <= c.bufferSize && s.reader.connected
    ensures Reachable(c, s') && |s'.data| == |s.data| - n && |s'.reader.queue| == |s.reader.queue| + n
    ensures s'.reader.connected && s'.reader.readCnt == s.reader.readCnt && s'.reader.chunk == s.reader.chunk
    ensures s'.writer == s.writer && s'.updates == s.updates && s'.dropped == s.dropped
    decreases n
  {
    if n == 0 {
      s' := s;
    } else {
      s' := ReachNext(c, s, Arrive);
      s' := ArriveMany(c, s', n - 1);
    }
  }

  /** More packets in flight than the empty queue has room for: one is dropped. */
  lemma Overrun(c: Config, s: Flow) returns (s': Flow)
    requires Reachable(c, s) && s.reader.queue == [] && |s.data| == c.bufferSize + 1
    ensures Reachable(c, s') && s'.dropped > 0
  {
    ReachableBase(c, s);
    s' := ArriveMany(c, s, c.bufferSize);
    s' := ReachNext(c, s', Arrive);
  }

  /** Every buffer size above 10 loses a packet in some run, even if every item is flushed: an update sent
      while one packet is still in flight makes the client forget that packet.  */
  lemma LargeWindowLoses(c: Config) returns (s: Flow)
    requires c.bufferSize > 10
    ensures Reachable(c, s) && s.dropped > 0
  {
    assert Exec(c, Init(c), []) == Option.Some(Init(c));
    s := SendMany(c, Init(c), T(c) + 2);
    s := ArriveMany(c, s, T(c) + 1);
    var m := ReadsReplenish(c, s, T(c) + 1);
    ReachExec(c, s, Reads(T(c) + 1), m);
    ReachableBase(c, m);
    s := ReachNext(c, m, Update);
    s := SendMany(c, s, c.bufferSize);
    s := Overrun(c, s);
  }

  /** A writer that feeds items without flushing them writes one packet without credit, and every buffer
      size then loses a packet in some run.  */
  lemma FeedingLoses(c: Config) returns (s: Flow)
    requires c.bufferSize >= 1 && !c.flushEach
    ensures Reachable(c, s) && s.dropped > 0
  {
    assert Exec(c, Init(c), []) == Option.Some(Init(c));
    s := ReachNext(c, Init(c), PollReady(Accepted));
    s := ReachNext(c, s, StartSend([]));
    s := FeedMany(c, s, c.bufferSize);
    s := ReachNext(c, s, PollFlush(Accepted, Flushed));
    s := Overrun(c, s);
  }

  // ---------- Buffer size 0 ----------

  predicate Silent(s: Flow) {
    && s.writer.connected && s.writer.credit == 0 && s.writer.chunk.None? && !s.ready
    && s.data == [] && s.reader.connected && s.reader.queue == [] && s.reader.chunk.None?
    && s.updates == [] && s.dropped == 0
  }

  lemma {:induction false} ExecSilent(c: Config, s: Flow, steps: seq<Step>)
    requires Silent(s) && Exec(c, s, steps).Some?
    ensures Silent(Exec(c, s, steps).value)
    decreases |steps|
  {
    if steps != [] {
      assert Silent(Next(c, s, steps[0]).value);
      ExecSilent(c, Next(c, s, steps[0]).value, steps[1..]);
    }
  }

  // ---------- Exactly when ----------

  ghost predicate NeverDrops(c: Config) {
    forall s :: Reachable(c, s) ==> s.dropped == 0
  }

  /** No packet is ever dropped exactly for windows up to 10 packets whose writer flushes every item, and
      for the window of size 0, which never carries anything.  */
  lemma NeverDropsExactly(c: Config)
    ensures NeverDrops(c) <==> c.bufferSize == 0 || (c.bufferSize <= 10 && c.flushEach)
  {
    if c.bufferSize == 0 {
      forall s | Reachable(c, s) ensures s.dropped == 0 {
        var steps :| Exec(c, Init(c), steps) == Option.Some(s);
        ExecSilent(c, Init(c), steps);
      }
    } else if c.bufferSize <= 10 && c.flushEach {
      forall s | Reachable(c, s) ensures s.dropped == 0 { LossFree(c, s); }
    } else if c.flushEach {
      var s := LargeWindowLoses(c);
    } else {
      var s := FeedingLoses(c);
    }
  }

  /** From `s`, reading alone makes the server send an update. */
  ghost predicate ReadsHelp(c: Config, s: Flow) {
    exists n: nat :: Exec(c, s, Reads(n)).Some? && Exec(c, s, Reads(n)).value.updates != []
  }

  ghost predicate NeverDeadlocks(c: Config) {
    forall s :: Reachable(c, s) && Stalled(s) ==> ReadsHelp(c, s)
  }

  /** A stalled stream can always be unblocked by reading, for every buffer size except 0. */
  lemma NeverDeadlocksExactly(c: Config)
    ensures NeverDeadlocks(c) <==> c.bufferSize >= 1
  {
    if c.bufferSize >= 1 {
      forall s | Reachable(c, s) && Stalled(s) ensures ReadsHelp(c, s) {
        var n, m, s' := StallResolves(c, s);
      }
    } else {
      assert Exec(c, Init(c), []) == Option.Some(Init(c));
      assert Reachable(c, Init(c)) && Stalled(Init(c));
      forall n: nat | Exec(c, Init(c), Reads(n)).Some? ensures Exec(c, Init(c), Reads(n)).value.updates == [] {
        ExecSilent(c, Init(c), Reads(n));
      }
    }
  }
}
