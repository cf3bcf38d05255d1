/** Exactly which packets an actor sends by itself, and what they carry. */
module MuxTraffic {
  import opened Common
  import opened Packets
  import opened MuxSpec
  import opened MuxClosing

  // ---------- The traffic of a client, from its log alone ----------

  /** The packet with which a client answers an event, after the events before it: a request gets the next id, the first
      request to close an open stream is passed on, and the end is announced if a reason is given for it. */
  function Answer(before: seq<Event>, e: Event): Option<Packet> {
    if Ended(before) then None
    else
      match e
      case CreateStream(t, host, port, ok) =>
        if ok && Created(before) < U32_MAX then Some(Packet(Created(before) + 1, Connect(t, host, port))) else None
      case LocalClose(id, reason, ok) =>
        if ok && 1 <= id <= Created(before) && FirstReason(before, id).None? then Some(Packet(id, Close(reason)))
        else None
      case EndFut(farewell, ok) => if ok && farewell.Some? then Some(Packet(0, Close(farewell.value))) else None
      case _ => None
  }

  function Traffic(log: seq<Event>): seq<Packet> {
    if log == [] then []
    else
      var before, e := log[..|log| - 1], log[|log| - 1];
      var p := Answer(before, e);
      if p.Some? then Traffic(before) + [p.value] else Traffic(before)
  }

  lemma AnswerAsLogged(c: Config, log: seq<Event>, e: Event, m: Mux)
    requires c.role.Client? && Sound(m) && AsLogged(log, m)
    ensures Handle(c, m, e).sent == Answer(log, e)
  {
    if e.LocalClose? && 1 <= e.id <= Created(log) { assert StreamAsLogged(log, m, e.id - 1); }
  }

  /** For every log of a client the packets it sends are, in order: a Connect packet with the type, host and port of
      each request that got an id, and that id; a Close packet with the reason of each request that was the first to
      close its stream; and a Close packet for stream 0 with the reason given for the end. */
  lemma {:induction false} SentExactly(c: Config, log: seq<Event>)
    requires c.role.Client?
    ensures Run(c, log).1 == Traffic(log)
    decreases |log|
  {
    if log != [] {
      var k := |log| - 1;
      SentExactly(c, log[..k]);
      RunAsLogged(c, log[..k]);
      AnswerAsLogged(c, log[..k], log[k], Run(c, log[..k]).0);
    }
  }

  // ---------- Either side ----------

  /** The packet carries what the event asked for. */
  predicate Carries(p: Packet, e: Event) {
    match p.body
    case Connect(t, host, port) => e.CreateStream? && e.streamType == t && e.host == host && e.port == port
    case Close(reason) =>
      || (e.LocalClose? && e.id == p.streamId && e.reason == reason)
      || (e.EndFut? && p.streamId == 0 && e.farewell == Some(reason))
    case _ => false
  }

  lemma SentIsCarried(c: Config, m: Mux, e: Event)
    requires Sound(m)
    ensures Handle(c, m, e).sent.Some? ==> Carries(Handle(c, m, e).sent.value, e)
  {
  }

  /** `at` says which event each packet answers. */
  predicate Answers(log: seq<Event>, sent: seq<Packet>, at: seq<nat>) {
    && |at| == |sent|
    && (forall i :: 0 <= i < |at| ==> at[i] < |log| && Carries(sent[i], log[at[i]]))
    && (forall i, j :: 0 <= i < j < |at| ==> at[i] < at[j])
  }

  lemma AnswersMore(log: seq<Event>, sent: seq<Packet>, at: seq<nat>, e: Event, p: Packet)
    requires Answers(log, sent, at)
    ensures Answers(log + [e], sent, at)
    ensures Carries(p, e) ==> Answers(log + [e], sent + [p], at + [|log|])
  {
    assert forall i :: 0 <= i < |log| ==> (log + [e])[i] == log[i];
  }

  /** For every log of either side: each packet the actor sends answers an event of its own, later packets later events,
      and carries what that event asked for. */
  lemma {:induction false} EachAnswersAnEvent(c: Config, log: seq<Event>) returns (at: seq<nat>)
    ensures Answers(log, Run(c, log).1, at)
    decreases |log|
  {
    at := [];
    if log != [] {
      var k := |log| - 1;
      at := EachAnswersAnEvent(c, log[..k]);
      var (m, sent) := Run(c, log[..k]);
      var h := Handle(c, m, log[k]);
      SentIsCarried(c, m, log[k]);
      assert log == log[..k] + [log[k]];
      AnswersMore(log[..k], sent, at, log[k], if h.sent.Some? then h.sent.value else Packet(0, Data([])));
      if h.sent.Some? { at := at + [k]; }
    }
  }
}
