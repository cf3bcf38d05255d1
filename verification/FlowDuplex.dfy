/** The writing half of a server stream shares its credit with the reading half. */
module FlowDuplex {
  import opened Common
  import FlowSpec
  import opened FlowSystem
  import opened HalfRuns

  /** A stream in both directions: `flow` carries the client's items to the server, `back` is the writing half of the
      server, on the same `StreamInfo` as the reading half. */
  datatype Duplex = Duplex(flow: Flow, back: Writing)

  datatype Call = Forward(step: FlowSystem.Step) | Back(write: WriteStep)

  function WithCredit(w: Writing, credit: u32): Writing {
    w.(writer := w.writer.(credit := credit))
  }

  function Start(c: Config): Duplex {
    Duplex(Init(c), Writing(FlowSpec.Writer(true, None, c.bufferSize, false, false), false, [], [], c.bufferSize, 0))
  }

  /** Whatever either half leaves as the credit, the other one finds. */
  function CallNext(c: Config, d: Duplex, call: Call): Option<Duplex> {
    match call
    case Forward(step) =>
      var flow := FlowSystem.Next(c, d.flow, step);
      if flow.None? then None
      else Some(Duplex(flow.value, WithCredit(d.back, flow.value.reader.credit)))
    case Back(write) =>
      var back := WriteNext(false, d.back, write);
      if back.None? then None
      else Some(Duplex(d.flow.(reader := d.flow.reader.(credit := back.value.writer.credit)), back.value))
  }

  function CallExec(c: Config, d: Duplex, calls: seq<Call>): Option<Duplex>
    decreases |calls|
  {
    if calls == [] then Some(d)
    else
      var n := CallNext(c, d, calls[0]);
      if n.None? then None else CallExec(c, n.value, calls[1..])
  }

  function Forwards(calls: seq<Call>): seq<FlowSystem.Step> {
    if calls == [] then []
    else (if calls[0].Forward? then [calls[0].step] else []) + Forwards(calls[1..])
  }

  predicate Shared(d: Duplex) {
    d.back.writer.credit == d.flow.reader.credit
  }

  /** A call of the server's writing half leaves the other direction as it was. */
  lemma BackLeavesFlow(c: Config, d: Duplex, call: Call)
    requires Shared(d) && call.Back? && CallNext(c, d, call).Some?
    ensures CallNext(c, d, call).value.flow == d.flow && Shared(CallNext(c, d, call).value)
  {
    match call.write
    case Ready(reply) => ReadyIsHonest(d.back.writer, false, reply);
    case Flush(reply, flush) => FlushIsHonest(d.back.writer, false, reply, flush);
    case _ =>
  }

  /** However much the server writes in between, with whatever answers: the stream from the client to the server runs as
      if it did not write at all. */
  lemma {:induction false} RunsAsIfAlone(c: Config, d: Duplex, calls: seq<Call>, d': Duplex)
    requires Shared(d) && CallExec(c, d, calls) == Some(d')
    ensures FlowSystem.Exec(c, d.flow, Forwards(calls)) == Some(d'.flow) && Shared(d')
    decreases |calls|
  {
    if calls != [] {
      var n := CallNext(c, d, calls[0]).value;
      if calls[0].Back? {
        BackLeavesFlow(c, d, calls[0]);
        RunsAsIfAlone(c, n, calls[1..], d');
        assert Forwards(calls) == Forwards(calls[1..]);
      } else {
        RunsAsIfAlone(c, n, calls[1..], d');
        assert Forwards(calls)[0] == calls[0].step && Forwards(calls)[1..] == Forwards(calls[1..]);
      }
    }
  }

  /** So the guarantees of the forward direction hold in every run of both: the server's books stay balanced and each
      update equals the free room while data arrives on positive credit, and small windows lose nothing. */
  lemma ServerWritesAreFree(c: Config, calls: seq<Call>, d: Duplex)
    requires CallExec(c, Start(c), calls) == Some(d)
    ensures FlowSystem.Reachable(c, d.flow) && d.back.writer.credit == d.flow.reader.credit
    ensures CreditRespected(c, Init(c), Forwards(calls)) ==> Balanced(c, d.flow)
    ensures c.flushEach && c.bufferSize <= 10 ==> d.flow.dropped == 0
  {
    RunsAsIfAlone(c, Start(c), calls, d);
    if CreditRespected(c, Init(c), Forwards(calls)) { ServerLedger(c, Init(c), Forwards(calls), d.flow); }
    if c.flushEach && c.bufferSize <= 10 { LossFree(c, d.flow); }
  }
}
