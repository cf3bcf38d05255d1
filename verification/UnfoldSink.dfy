/** The write transport built from an asynchronous function: one future at a time, and a panic if it is handed a
    payload while it has no state to run the function on. */
module UnfoldSink {
  import opened Common
  import opened FlowSpec

  datatype IteratorState<S, P> = Value(state: S) | Future(taken: S, payload: P) | Empty

  /** What the future answers when it is polled. */
  datatype Answer<S> = StillPending | Done(state: S) | Broke

  /** `poll_flush`, and `poll_ready`, which is the same. */
  function SinkFlush<S, P>(w: IteratorState<S, P>, answer: Answer<S>): (IteratorState<S, P>, FlushReply) {
    if !w.Future? then (w, Flushed)
    else
      match answer
      case StillPending => (w, FlushPending)
      case Done(s) => (Value(s), Flushed)
      case Broke => (Empty, FlushError)
  }

  /** `start_send`; None is the panic. */
  function SinkSend<S, P>(w: IteratorState<S, P>, item: P): (r: Option<IteratorState<S, P>>)
    ensures r.Some? ==> r.value.Future?
  {
    if w.Value? then Some(Future(w.state, item)) else None
  }

  class AsyncIteratorTransportWrite<S, P> {
    var state: IteratorState<S, P>

    constructor (init: S)
      ensures state == Value(init)
    {
      state := Value(init);
    }

    method TakeState() returns (taken: Option<S>)
      modifies this
      ensures old(state).Value? ==> taken == Some(old(state).state) && state == Empty
      ensures !old(state).Value? ==> taken == None && state == old(state)
    {
      if state.Value? {
        taken := Some(state.state);
        state := Empty;
      } else {
        taken := None;
      }
    }

    method PollReady(answer: Answer<S>) returns (r: FlushReply)
      modifies this
      ensures (state, r) == SinkFlush(old(state), answer)
    {
      r := PollFlush(answer);
    }

    method StartSend(item: P) returns (panicked: bool)
      modifies this
      ensures panicked == SinkSend(old(state), item).None?
      ensures state == if panicked then old(state) else SinkSend(old(state), item).value
    {
      var taken := TakeState();
      panicked := taken.None?;
      if !panicked {
        state := Future(taken.value, item);
      }
    }

    method PollFlush(answer: Answer<S>) returns (r: FlushReply)
      modifies this
      ensures (state, r) == SinkFlush(old(state), answer)
    {
      if !state.Future? {
        return Flushed;
      }
      if answer.StillPending? {
        return FlushPending;
      }
      if answer.Done? {
        state := Value(answer.state);
        return Flushed;
      }
      state := Empty;
      return FlushError;
    }
  }
}
