/**
 * A service instance handles one request at a time against its process-wide state.
 * Run feeds a sequence of requests to a handler, threading the state from one call
 * to the next, and collects the replies in order.
 */
module Trace {

  function Run<S, C, R>(handle: (S, C) -> (R, S), s: S, calls: seq<C>): (r: (seq<R>, S))
    ensures |r.0| == |calls|
    decreases |calls|
  {
    if calls == [] then ([], s)
    else
      var before := Run(handle, s, calls[..|calls| - 1]);
      var last := handle(before.1, calls[|calls| - 1]);
      (before.0 + [last.0], last.1)
  }

  /** Running a + b is running a, then running b from the state a left behind. */
  lemma {:induction false} RunAppend<S, C, R>(handle: (S, C) -> (R, S), s: S, a: seq<C>, b: seq<C>)
    ensures Run(handle, s, a + b).0 == Run(handle, s, a).0 + Run(handle, Run(handle, s, a).1, b).0
    ensures Run(handle, s, a + b).1 == Run(handle, Run(handle, s, a).1, b).1
    decreases |b|
  {
    if b == [] {
      assert a + b == a;
    } else {
      var b' := b[..|b| - 1];
      RunAppend(handle, s, a, b');
      assert (a + b)[..|a + b| - 1] == a + b';
      assert (a + b)[|a + b| - 1] == b[|b| - 1];
    }
  }

  /** The j-th reply is what the handler answers in the state left by the first j calls. */
  lemma {:induction false} RunAt<S, C, R>(handle: (S, C) -> (R, S), s: S, calls: seq<C>, j: nat)
    requires j < |calls|
    ensures Run(handle, s, calls).0[j] == handle(Run(handle, s, calls[..j]).1, calls[j]).0
    ensures Run(handle, s, calls[..j + 1]).1 == handle(Run(handle, s, calls[..j]).1, calls[j]).1
  {
    RunAppend(handle, s, calls[..j + 1], calls[j + 1..]);
    assert calls[..j + 1] + calls[j + 1..] == calls;
    assert calls[..j + 1][..j] == calls[..j];
  }

  /** The j-th reply is also the reply to calls[j] in a run that starts from the state
      left by the first k calls. */
  lemma {:induction false} RunFrom<S, C, R>(handle: (S, C) -> (R, S), s: S, calls: seq<C>, k: nat, j: nat)
    requires k <= j < |calls|
    ensures Run(handle, s, calls).0[j] == Run(handle, Run(handle, s, calls[..k]).1, calls[k..]).0[j - k]
  {
    RunAppend(handle, s, calls[..k], calls[k..]);
    assert calls[..k] + calls[k..] == calls;
  }
}
