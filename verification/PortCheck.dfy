/** The port probe behind the health check: a dial whose result is cached for a short
    window, one length for successes and another for failures. */
module PortCheck {
  import opened Errors

  /** What the configured address amounts to. Address parsing itself is not modelled. */
  datatype Target = NotConfigured | Malformed | NotTcp | Tcp

  /** A dial succeeds (None) or fails with some error. */
  type DialError = nat

  datatype Answer = Reachable | Unreachable(err: DialError, cached: bool) | BadAddress

  /** The cached fields. None stands for Go's zero time and nil error. */
  datatype Cache = Cache(lastSuccess: Option<int>, lastFailure: Option<int>, lastError: Option<DialError>)

  datatype Windows = Windows(success: int, retry: int)

  const EMPTY := Cache(None, None, None)

  predicate SuccessFresh(w: Windows, c: Cache, now: int) {
    c.lastSuccess.Some? && w.success > 0 && now - c.lastSuccess.value < w.success
  }

  predicate FailureFresh(w: Windows, c: Cache, now: int) {
    c.lastError.Some? && c.lastFailure.Some? && now - c.lastFailure.value < w.retry
  }

  predicate Dials(w: Windows, c: Cache, now: int) {
    !SuccessFresh(w, c, now) && !FailureFresh(w, c, now)
  }

  /** One call at `now` for a TCP address, where a dial started now would end as `dial`. */
  function Check(w: Windows, c: Cache, now: int, dial: Option<DialError>): (Cache, Answer) {
    if SuccessFresh(w, c, now) then (c, Reachable)
    else if FailureFresh(w, c, now) then (c, Unreachable(c.lastError.value, true))
    else match dial
      case Some(err) => (Cache(None, Some(now), Some(err)), Unreachable(err, false))
      case None => (Cache(Some(now), None, None), Reachable)
  }

  class PortCheckCache {
    var lastSuccess: Option<int>
    var lastFailure: Option<int>
    var lastError: Option<DialError>
    const windows: Windows

    function State(): Cache
      reads this
    {
      Cache(lastSuccess, lastFailure, lastError)
    }

    constructor (w: Windows)
      ensures State() == EMPTY && windows == w
    {
      lastSuccess, lastFailure, lastError, windows := None, None, None, w;
    }

    method CheckPortAvailability(target: Target, now: int, dial: Option<DialError>) returns (a: Answer)
      modifies this
      ensures target == Tcp ==> (State(), a) == Check(windows, old(State()), now, dial)
      ensures target != Tcp ==> State() == old(State()) && a == if target == NotTcp then Reachable else BadAddress
    {
      if target == NotConfigured || target == Malformed {
        return BadAddress;
      }
      if target == NotTcp {
        return Reachable;
      }
      if lastSuccess.Some? && windows.success > 0 && now - lastSuccess.value < windows.success {
        return Reachable;
      }
      if lastError.Some? && lastFailure.Some? && now - lastFailure.value < windows.retry {
        return Unreachable(lastError.value, true);
      }
      if dial.Some? {
        lastFailure, lastSuccess, lastError := Some(now), None, dial;
        return Unreachable(dial.value, false);
      }
      lastFailure, lastSuccess, lastError := None, Some(now), None;
      return Reachable;
    }
  }

  // ----- Sequences of calls ---------------------------------------------------------------

  datatype Call = Call(at: int, dial: Option<DialError>)

  function After(w: Windows, calls: seq<Call>): Cache {
    if calls == [] then EMPTY
    else
      var last := calls[|calls| - 1];
      Check(w, After(w, calls[..|calls| - 1]), last.at, last.dial).0
  }

  predicate DialsAt(w: Windows, calls: seq<Call>, i: nat)
    requires i < |calls|
  {
    Dials(w, After(w, calls[..i]), calls[i].at)
  }

  function AnswerAt(w: Windows, calls: seq<Call>, i: nat): Answer
    requires i < |calls|
  {
    Check(w, After(w, calls[..i]), calls[i].at, calls[i].dial).1
  }

  predicate Monotone(calls: seq<Call>) {
    forall i, j | 0 <= i < j < |calls| :: calls[i].at <= calls[j].at
  }

  /** `j` is the most recent real dial among the first `n` calls. */
  predicate LastDial(w: Windows, calls: seq<Call>, n: nat, j: nat)
    requires n <= |calls|
  {
    j < n && DialsAt(w, calls, j) && forall k | j < k < n :: !DialsAt(w, calls, k)
  }

  function Remembered(c: Call): Cache {
    match c.dial
    case Some(err) => Cache(None, Some(c.at), Some(err))
    case None => Cache(Some(c.at), None, None)
  }

  /** The cache holds the most recent dial and nothing else. */
  lemma {:induction false} CacheIsLastDial(w: Windows, calls: seq<Call>, n: nat) returns (j: nat)
    requires 0 < n <= |calls|
    ensures LastDial(w, calls, n, j) && After(w, calls[..n]) == Remembered(calls[j])
  {
    assert calls[..n][..n - 1] == calls[..n - 1];
    if DialsAt(w, calls, n - 1) {
      j := n - 1;
    } else {
      j := CacheIsLastDial(w, calls, n - 1);
    }
  }

  /** Every answer is the result of the most recent dial, which started at the call itself or
      less than its window before. */
  lemma AnswersAgree(w: Windows, calls: seq<Call>, i: nat) returns (j: nat)
    requires i < |calls|
    ensures LastDial(w, calls, i + 1, j)
    ensures AnswerAt(w, calls, i)
         == match calls[j].dial case None => Reachable case Some(err) => Unreachable(err, j != i)
    ensures j == i || calls[i].at - calls[j].at < (if calls[j].dial.None? then w.success else w.retry)
  {
    j := i;
    if !DialsAt(w, calls, i) {
      j := CacheIsLastDial(w, calls, i);
    }
  }

  /** A call dials exactly when there has been no dial, or the window of the last one's result
      has passed: the success window after a success, the retry window after a failure. */
  lemma DialsExactlyWhen(w: Windows, calls: seq<Call>, i: nat)
    requires Monotone(calls) && i < |calls|
    ensures i == 0 ==> DialsAt(w, calls, i)
    ensures i > 0 ==> exists j | 0 <= j < i :: (
      && LastDial(w, calls, i, j)
      && (DialsAt(w, calls, i) <==> calls[i].at - calls[j].at >= if calls[j].dial.None? then w.success else w.retry))
  {
    if i > 0 {
      var j := CacheIsLastDial(w, calls, i);
    }
  }

  /** So two consecutive dials start at least the window of the first one's result apart. */
  lemma DialsSpaced(w: Windows, calls: seq<Call>, j: nat, i: nat)
    requires Monotone(calls) && i < |calls| && LastDial(w, calls, i, j) && DialsAt(w, calls, i)
    ensures calls[i].at - calls[j].at >= if calls[j].dial.None? then w.success else w.retry
  {
    var k := CacheIsLastDial(w, calls, i);
    assert k == j;
  }
}
