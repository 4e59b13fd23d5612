/**
 * The request dispatcher of net.ts: every call of `fetch` takes a ticket from
 * a counter, waits while `ticket - requestsDone >= maxConcurrentCount`, sends
 * the request with up to four attempts (another attempt follows only an error
 * classified as a timeout) and then increments `requestsDone`.
 *
 * The three module-level counters and the proxy agent are the fields of a
 * `Dispatcher`. A call of `fetch` is split at its suspension points: `Enqueue`
 * takes the ticket, `TryAdmit` is one evaluation of the wait-loop guard, and
 * `Transmit` is the retry loop together with the release of the slot. Which
 * suspended call runs next is left to the caller. The ghost sets record where
 * every ticket is.
 */
module Dispatch {
  import opened Wrappers
  import opened Http

  const WaitAmount: int := 25
  const WaitAmountFactor: int := 5
  const DefaultConcurrency: int := 40
  const MaxAttempts: nat := 4
  const RetryPause: nat := 3000
  const TimedOut: string := "ETIMEDOUT"

  /**
   * What one call of the transport does, as the retry loop classifies it: it
   * resolves with a response, or it throws an error the loop takes for a
   * timeout, or it throws any other error.
   */
  datatype Outcome = Ok(response: Response) | Timeout | OtherError

  /**
   * How a call of `fetch` settles: resolved with the response it holds (None
   * is the unassigned `r` returned after four timeouts), or rejected with the
   * transport's error.
   */
  datatype FetchResult = Resolved(response: Option<Response>) | Rejected

  // ---------------------------------------------------------------------------
  // Which errors are retried

  /**
   * An error the transport throws, by the two properties the client could
   * read: its own `code`, and the `code` of its `message` (absent when the
   * message is a string, as it is for the errors node-fetch throws, which
   * carry the system error's code on `code`).
   */
  datatype ThrownError = ThrownError(code: Option<string>, messageCode: Option<string>)

  /** A transport error whose message is a string. */
  predicate StringMessage(e: ThrownError) {
    e.messageCode.None?
  }

  /** The test at net.ts:83 as written: `error.message.code === 'ETIMEDOUT'`. */
  function Classify(e: ThrownError): Outcome {
    if e.messageCode == Some(TimedOut) then Timeout else OtherError
  }

  /** The test as it is evidently meant: the error's own code is 'ETIMEDOUT'. */
  function ClassifyIntended(e: ThrownError): Outcome {
    if e.code == Some(TimedOut) then Timeout else OtherError
  }

  /**
   * As written, a timed-out request whose error has a string message is
   * never retried: the first attempt rejects the whole call.
   */
  lemma StringMessageTimeoutNotRetried(e: ThrownError, outcomes: seq<Outcome>)
    requires StringMessage(e) && e.code == Some(TimedOut)
    requires MaxAttempts <= |outcomes| && outcomes[0] == Classify(e)
    ensures Classify(e) == OtherError
    ensures RetryPolicy(outcomes) == (Rejected, 1)
  {
  }

  /** With the intended test, the same error is a timeout and is retried. */
  lemma IntendedTimeoutRetried(e: ThrownError, outcomes: seq<Outcome>)
    requires e.code == Some(TimedOut)
    requires MaxAttempts <= |outcomes| && outcomes[0] == ClassifyIntended(e)
    ensures ClassifyIntended(e) == Timeout
    ensures RetryPolicy(outcomes).1 >= 2
  {
    RetryFromFacts(outcomes, 1);
  }

  /** The wait-loop guard: the ticket goes on once `ticket - done < limit`. */
  predicate Admissible(ticket: nat, done: nat, limit: int) {
    ticket - done < limit
  }

  /** The pause before the guard is tested again (net.ts:62). */
  function Backoff(ticket: nat, done: nat): int {
    (ticket - done) * WaitAmountFactor + WaitAmount
  }

  /** `init0`: the proxy agent as a request option, when one is set (net.ts:53-57). */
  function AgentInit(proxy: Option<string>): (init0: Init)
    ensures "agent" in init0 <==> proxy.Some?
    ensures proxy.Some? ==> init0 == map["agent" := ProxyAgent(proxy.value)]
    ensures proxy.None? ==> init0 == map[]
  {
    if proxy.Some? then map["agent" := ProxyAgent(proxy.value)] else map[]
  }

  /**
   * `{...init0, ...init}` (net.ts:74): the caller's options are sent as they
   * are, an `agent` of the caller's replacing the proxy agent; the proxy
   * agent is added only when the caller gives none.
   */
  lemma CallerOptionsWin(proxy: Option<string>, init: Init)
    ensures var request := Spread(AgentInit(proxy), init);
            && (forall f :: f in init ==> f in request && request[f] == init[f])
            && (forall f :: f != "agent" ==> (f in request <==> f in init))
            && ("agent" !in init ==> ("agent" in request <==> proxy.Some?))
            && ("agent" !in init && proxy.Some? ==> request["agent"] == ProxyAgent(proxy.value))
  {
  }

  /** What `proxyAgent` becomes after `setProxy(proxyUrl)` as written (net.ts:27-30). */
  function ProxyAfter(proxy: Option<string>, proxyUrl: string): Option<string> {
    if proxyUrl != "" then Some(proxyUrl) else proxy
  }

  /** What its documentation says (net.ts:21-26): the empty string disables the proxy. */
  function ProxyAfterIntended(proxy: Option<string>, proxyUrl: string): Option<string> {
    if proxyUrl != "" then Some(proxyUrl) else None
  }

  /** As written, the empty string leaves a proxy set before in place. */
  lemma EmptyProxyUrlKeepsAgent(proxy: Option<string>)
    ensures ProxyAfter(proxy, "") == proxy
    ensures ProxyAfter(Some("http://localhost:3128"), "") != None
  {
  }

  /** As documented, the empty string disables the proxy and any other URL installs it. */
  lemma IntendedEmptyProxyUrlDisables(proxy: Option<string>, proxyUrl: string)
    ensures ProxyAfterIntended(proxy, proxyUrl) == None <==> proxyUrl == ""
    ensures proxyUrl != "" ==> ProxyAfterIntended(proxy, proxyUrl) == Some(proxyUrl)
  {
  }

  // ---------------------------------------------------------------------------
  // What the retry loop computes

  /**
   * The settlement of the retry loop from attempt `i` (counted from 0) on,
   * given what the transport does on each attempt, with the number of
   * attempts made in all.
   */
  function RetryFrom(outcomes: seq<Outcome>, i: nat): (FetchResult, nat)
    requires i <= MaxAttempts <= |outcomes|
    decreases MaxAttempts - i
  {
    if i == MaxAttempts then (Resolved(None), i)
    else match outcomes[i]
      case Ok(r) => (Resolved(Some(r)), i + 1)
      case Timeout => RetryFrom(outcomes, i + 1)
      case OtherError => (Rejected, i + 1)
  }

  /** The settlement of the retry loop and its number of attempts (net.ts:67-98). */
  function RetryPolicy(outcomes: seq<Outcome>): (FetchResult, nat)
    requires MaxAttempts <= |outcomes|
  {
    RetryFrom(outcomes, 0)
  }

  lemma {:induction false} RetryFromFacts(outcomes: seq<Outcome>, i: nat)
    requires i < MaxAttempts <= |outcomes|
    ensures var (result, n) := RetryFrom(outcomes, i);
            && i < n <= MaxAttempts
            && (forall j :: i <= j < n - 1 ==> outcomes[j] == Timeout)
            && (result == Rejected <==> outcomes[n - 1] == OtherError)
            && (result.Resolved? && result.response.Some? <==> outcomes[n - 1].Ok?)
            && (outcomes[n - 1].Ok? ==> result == Resolved(Some(outcomes[n - 1].response)))
            && (result == Resolved(None) <==> outcomes[n - 1] == Timeout)
            && (outcomes[n - 1] == Timeout ==> n == MaxAttempts)
    decreases MaxAttempts - i
  {
    if outcomes[i] == Timeout && i + 1 < MaxAttempts {
      RetryFromFacts(outcomes, i + 1);
    }
  }

  /**
   * The transport is called at least once and at most four times; every
   * attempt but the last timed out; the last one decides: a response
   * resolves with it, another error rejects, and a fourth timeout resolves
   * with no response at all.
   */
  lemma RetryPolicyFacts(outcomes: seq<Outcome>)
    requires MaxAttempts <= |outcomes|
    ensures var (result, n) := RetryPolicy(outcomes);
            && 1 <= n <= MaxAttempts
            && (forall j :: 0 <= j < n - 1 ==> outcomes[j] == Timeout)
            && (result == Rejected <==> outcomes[n - 1] == OtherError)
            && (outcomes[n - 1].Ok? ==> result == Resolved(Some(outcomes[n - 1].response)))
            && (result == Resolved(None) <==> outcomes[n - 1] == Timeout)
            && (outcomes[n - 1] == Timeout ==> n == MaxAttempts)
  {
    RetryFromFacts(outcomes, 0);
  }

  /** Four timeouts in a row end the loop without an error and without a response. */
  lemma {:induction false} FourTimeoutsResolveUndefined(outcomes: seq<Outcome>)
    requires MaxAttempts <= |outcomes|
    requires forall j :: 0 <= j < MaxAttempts ==> outcomes[j] == Timeout
    ensures RetryPolicy(outcomes) == (Resolved(None), MaxAttempts)
  {
    assert RetryFrom(outcomes, 3) == (Resolved(None), 4);
    assert RetryFrom(outcomes, 2) == (Resolved(None), 4);
    assert RetryFrom(outcomes, 1) == (Resolved(None), 4);
  }

  /**
   * The retry loop as `return r!` evidently means it: once the attempts are
   * used up, the call rejects instead of resolving with no response.
   */
  function RetryFromIntended(outcomes: seq<Outcome>, i: nat): (FetchResult, nat)
    requires i <= MaxAttempts <= |outcomes|
    decreases MaxAttempts - i
  {
    if i == MaxAttempts then (Rejected, i)
    else match outcomes[i]
      case Ok(r) => (Resolved(Some(r)), i + 1)
      case Timeout => RetryFromIntended(outcomes, i + 1)
      case OtherError => (Rejected, i + 1)
  }

  function RetryPolicyIntended(outcomes: seq<Outcome>): (FetchResult, nat)
    requires MaxAttempts <= |outcomes|
  {
    RetryFromIntended(outcomes, 0)
  }

  /**
   * The intended loop makes the same attempts as the written one and settles
   * the same way, except that four timeouts reject; so it never resolves
   * without a response.
   */
  lemma {:induction false} RetryFromIntendedAgrees(outcomes: seq<Outcome>, i: nat)
    requires i <= MaxAttempts <= |outcomes|
    ensures RetryFromIntended(outcomes, i).1 == RetryFrom(outcomes, i).1
    ensures RetryFromIntended(outcomes, i).0
         == if RetryFrom(outcomes, i).0 == Resolved(None) then Rejected else RetryFrom(outcomes, i).0
    ensures RetryFromIntended(outcomes, i).0 != Resolved(None)
    decreases MaxAttempts - i
  {
    if i < MaxAttempts && outcomes[i] == Timeout {
      RetryFromIntendedAgrees(outcomes, i + 1);
    }
  }

  lemma IntendedNeverUndefined(outcomes: seq<Outcome>)
    requires MaxAttempts <= |outcomes|
    ensures RetryPolicyIntended(outcomes).0 != Resolved(None)
    ensures RetryPolicyIntended(outcomes).1 == RetryPolicy(outcomes).1
    ensures RetryPolicy(outcomes).0 != Resolved(None) ==> RetryPolicyIntended(outcomes) == RetryPolicy(outcomes)
  {
    RetryFromIntendedAgrees(outcomes, 0);
  }

  /**
   * The retry loop of `fetch` (net.ts:65-93) on its own: up to four attempts,
   * a 3000 pause after each timeout, the last one included; it stops at
   * the first response or at the first error that is not a timeout.
   */
  method RetryLoop(outcomes: seq<Outcome>) returns (result: FetchResult, attempts: nat, pauses: seq<nat>)
    requires MaxAttempts <= |outcomes|
    ensures (result, attempts) == RetryPolicy(outcomes)
    ensures |pauses| == (if result == Resolved(None) then attempts else attempts - 1)
    ensures forall i :: 0 <= i < |pauses| ==> pauses[i] == RetryPause
  {
    var r: Option<Response> := None;
    var retryCount: nat := 0;
    var doRetry := true;
    pauses := [];
    while doRetry && retryCount < MaxAttempts
      invariant retryCount <= MaxAttempts
      invariant doRetry ==> r.None? && RetryFrom(outcomes, retryCount) == RetryPolicy(outcomes)
      invariant doRetry ==> |pauses| == retryCount
      invariant !doRetry ==> && 1 <= retryCount
                             && outcomes[retryCount - 1].Ok?
                             && r == Some(outcomes[retryCount - 1].response)
                             && RetryPolicy(outcomes) == (Resolved(r), retryCount)
                             && |pauses| == retryCount - 1
      invariant forall i :: 0 <= i < |pauses| ==> pauses[i] == RetryPause
      decreases MaxAttempts - retryCount
    {
      doRetry := false;
      retryCount := retryCount + 1;
      match outcomes[retryCount - 1]
      case Ok(response) =>
        r := Some(response);
      case Timeout =>
        doRetry := true;
        pauses := pauses + [RetryPause];
      case OtherError =>
        return Rejected, retryCount, pauses;
    }
    return Resolved(r), retryCount, pauses;
  }

  // ---------------------------------------------------------------------------
  // The dispatcher

  class Dispatcher {
    /** `requestsReceived`: the next ticket. */
    var received: nat
    /** `requestsDone`: how many calls have let the next one in. */
    var done: nat
    /** `maxConcurrentCount` */
    var limit: int
    /** The URL of `proxyAgent`, when one was set. */
    var proxy: Option<string>

    /** The highest concurrency limit set so far. */
    ghost var cap: int
    /** Tickets taken but not yet past the wait loop. */
    ghost var waiting: set<nat>
    /** Tickets past the wait loop, inside the retry loop. */
    ghost var running: set<nat>
    /** Tickets whose call incremented `requestsDone`. */
    ghost var finished: set<nat>
    /** Tickets whose call rethrew a transport error, leaving `requestsDone` as it was. */
    ghost var failed: set<nat>

    /**
     * Every ticket taken is in exactly one phase, `done` counts the finished
     * ones, and every ticket past the wait loop met the guard while `done`
     * was at most its value now, under a limit of at most `cap`.
     */
    ghost predicate Valid()
      reads this
    {
      && (forall t :: t in waiting ==> t < received)
      && (forall t :: t in running ==> t < received)
      && (forall t :: t in finished ==> t < received)
      && (forall t :: t in failed ==> t < received)
      && waiting !! running && waiting !! finished && waiting !! failed
      && running !! finished && running !! failed && finished !! failed
      && |waiting| + |running| + |finished| + |failed| == received
      && done == |finished|
      && DefaultConcurrency <= cap && limit <= cap
      && (forall t :: t in running || t in finished || t in failed ==> t < done + cap)
    }

    /** The module state when net.ts is loaded. */
    constructor ()
      ensures Valid()
      ensures received == 0 && done == 0 && limit == DefaultConcurrency && proxy == None
      ensures waiting == {} && running == {} && finished == {} && failed == {}
    {
      received := 0;
      done := 0;
      limit := DefaultConcurrency;
      proxy := None;
      cap := DefaultConcurrency;
      waiting := {};
      running := {};
      finished := {};
      failed := {};
    }

    /** `setConcurrency(maxConcurrency)` (net.ts:37-39). */
    method SetConcurrency(maxConcurrency: int)
      requires Valid()
      modifies this
      ensures Valid()
      ensures limit == maxConcurrency
      ensures received == old(received) && done == old(done) && proxy == old(proxy)
      ensures unchanged(this`waiting, this`running, this`finished, this`failed)
    {
      limit := maxConcurrency;
      if maxConcurrency > cap {
        cap := maxConcurrency;
      }
    }

    /**
     * `setProxy(proxyUrl)` (net.ts:27-30): a non-empty URL installs an agent
     * for it; the empty string changes nothing, so an agent set before stays
     * in place.
     */
    method SetProxy(proxyUrl: string)
      requires Valid()
      modifies this
      ensures Valid()
      ensures proxy == if proxyUrl != "" then Some(proxyUrl) else old(proxy)
      ensures proxy == ProxyAfter(old(proxy), proxyUrl)
      ensures received == old(received) && done == old(done) && limit == old(limit)
      ensures unchanged(this`waiting, this`running, this`finished, this`failed)
    {
      if proxyUrl != "" {
        proxy := Some(proxyUrl);
      }
    }

    /** `setProxy` as its documentation describes it: the empty string removes the agent. */
    method SetProxyIntended(proxyUrl: string)
      requires Valid()
      modifies this
      ensures Valid()
      ensures proxy == ProxyAfterIntended(old(proxy), proxyUrl)
      ensures proxyUrl == "" ==> proxy == None
      ensures received == old(received) && done == old(done) && limit == old(limit)
      ensures unchanged(this`waiting, this`running, this`finished, this`failed)
    {
      if proxyUrl != "" {
        proxy := Some(proxyUrl);
      } else {
        proxy := None;
      }
    }

    /**
     * The start of `fetch` (net.ts:46-57): take the next ticket and capture
     * the proxy agent as it is now.
     */
    method Enqueue() returns (ticket: nat, init0: Init)
      requires Valid()
      modifies this
      ensures Valid()
      ensures ticket == old(received) && received == old(received) + 1
      ensures init0 == AgentInit(proxy)
      ensures waiting == old(waiting) + {ticket}
      ensures done == old(done) && limit == old(limit) && proxy == old(proxy)
      ensures unchanged(this`running, this`finished, this`failed)
    {
      ticket := received;
      received := received + 1;
      init0 := AgentInit(proxy);
      waiting := waiting + {ticket};
    }

    /**
     * One evaluation of the wait loop (net.ts:60-63): a ticket that meets the
     * guard goes on (None); otherwise it sleeps for the returned time.
     */
    method TryAdmit(ticket: nat) returns (pause: Option<int>)
      requires Valid() && ticket in waiting
      modifies this
      ensures Valid()
      ensures pause.None? <==> Admissible(ticket, done, limit)
      ensures pause.Some? ==> pause.value == Backoff(ticket, done) && pause.value >= WaitAmount + WaitAmountFactor * limit
      ensures pause.None? ==> waiting == old(waiting) - {ticket} && running == old(running) + {ticket}
      ensures pause.Some? ==> waiting == old(waiting) && running == old(running)
      ensures received == old(received) && done == old(done) && limit == old(limit) && proxy == old(proxy)
      ensures unchanged(this`finished, this`failed)
    {
      if ticket - done < limit {
        pause := None;
        waiting := waiting - {ticket};
        running := running + {ticket};
      } else {
        pause := Some((ticket - done) * WaitAmountFactor + WaitAmount);
      }
    }

    /**
     * The rest of `fetch` (net.ts:65-98): up to four attempts with the
     * caller's options spread over the captured agent, a 3000 pause after
     * each timeout, and `requestsDone += 1` once the loop ends. A transport
     * error other than a timeout is rethrown straight out of the loop, so that
     * path never increments `requestsDone`.
     */
    method Transmit(ticket: nat, init0: Init, init: Init, outcomes: seq<Outcome>)
      returns (result: FetchResult, attempts: nat, request: Init, pauses: seq<nat>)
      requires Valid() && ticket in running
      requires MaxAttempts <= |outcomes|
      modifies this
      ensures Valid()
      ensures (result, attempts) == RetryPolicy(outcomes)
      ensures request == Spread(init0, init)
      ensures |pauses| == (if result == Resolved(None) then attempts else attempts - 1)
      ensures forall i :: 0 <= i < |pauses| ==> pauses[i] == RetryPause
      ensures result != Rejected ==> done == old(done) + 1 && finished == old(finished) + {ticket} && failed == old(failed)
      ensures result == Rejected ==> done == old(done) && finished == old(finished) && failed == old(failed) + {ticket}
      ensures running == old(running) - {ticket}
      ensures received == old(received) && limit == old(limit) && proxy == old(proxy)
      ensures unchanged(this`waiting)
    {
      request := Spread(init0, init);
      result, attempts, pauses := RetryLoop(outcomes);
      if result == Rejected {
        MarkFailed(ticket);
      } else {
        Release(ticket);
      }
    }

    /**
     * `fetch`'s retry loop as evidently intended: a rethrown error still lets
     * the next request in, and four timeouts reject instead of resolving
     * with no response. Every call gives its slot back.
     */
    method TransmitIntended(ticket: nat, init0: Init, init: Init, outcomes: seq<Outcome>)
      returns (result: FetchResult, attempts: nat, request: Init, pauses: seq<nat>)
      requires Valid() && ticket in running
      requires MaxAttempts <= |outcomes|
      modifies this
      ensures Valid()
      ensures (result, attempts) == RetryPolicyIntended(outcomes)
      ensures result != Resolved(None)
      ensures request == Spread(init0, init)
      ensures done == old(done) + 1 && finished == old(finished) + {ticket} && failed == old(failed)
      ensures running == old(running) - {ticket}
      ensures received == old(received) && limit == old(limit) && proxy == old(proxy)
      ensures unchanged(this`waiting)
    {
      request := Spread(init0, init);
      result, attempts, pauses := RetryLoop(outcomes);
      IntendedNeverUndefined(outcomes);
      if result == Resolved(None) {
        result := Rejected;
      }
      Release(ticket);
    }

    /** `requestsDone += 1` (net.ts:96): the ticket is finished and the next one may go. */
    method Release(ticket: nat)
      requires Valid() && ticket in running
      modifies this
      ensures Valid()
      ensures done == old(done) + 1 && finished == old(finished) + {ticket} && running == old(running) - {ticket}
      ensures received == old(received) && limit == old(limit) && proxy == old(proxy)
      ensures unchanged(this`waiting, this`failed)
    {
      done := done + 1;
      running := running - {ticket};
      finished := finished + {ticket};
    }

    /** The rethrow at net.ts:90: the ticket leaves the retry loop without a release. */
    ghost method MarkFailed(ticket: nat)
      requires Valid() && ticket in running
      modifies this
      ensures Valid()
      ensures failed == old(failed) + {ticket} && running == old(running) - {ticket}
      ensures received == old(received) && done == old(done) && limit == old(limit) && proxy == old(proxy)
      ensures unchanged(this`waiting, this`finished)
    {
      running := running - {ticket};
      failed := failed + {ticket};
    }
  }

  /** `requestsDone` never passes `requestsReceived`; the gap is the tickets not finished. */
  lemma DoneBound(d: Dispatcher)
    requires d.Valid()
    ensures d.done <= d.received
    ensures d.received - d.done == |d.waiting| + |d.running| + |d.failed|
  {
  }

  /** The naturals below `n`. */
  function Below(n: nat): set<nat> {
    if n == 0 then {} else Below(n - 1) + {n - 1}
  }

  lemma {:induction false} BelowFacts(n: nat)
    ensures forall t: nat :: t in Below(n) <==> t < n
    ensures |Below(n)| == n
  {
    if n > 0 {
      BelowFacts(n - 1);
    }
  }

  lemma SubsetSize(a: set<nat>, b: set<nat>)
    requires a <= b
    ensures |a| <= |b|
  {
    assert b == a + (b - a);
  }

  /**
   * The admission queue's promise: at no time are more calls past the wait
   * loop without having let the next one in than the highest limit set so
   * far, so while the limit is never lowered, no more than the limit. A call
   * that rethrew still holds its slot.
   */
  lemma InFlightBound(d: Dispatcher)
    requires d.Valid()
    ensures |d.running| + |d.failed| <= d.cap
    ensures d.limit == d.cap ==> |d.running| + |d.failed| <= d.limit
  {
    var taken := d.running + d.finished + d.failed;
    var n: nat := d.done + d.cap;
    BelowFacts(n);
    SubsetSize(taken, Below(n));
  }

  /**
   * Once as many calls have rethrown as the concurrency limit and nothing is
   * in flight, no ticket taken from now on can pass the wait loop while the
   * limit stays as it is: the rethrown calls never gave back their slots, and
   * nothing running is left to increment `requestsDone`.
   */
  lemma LostSlotsBlockAdmission(d: Dispatcher, ticket: nat)
    requires d.Valid() && d.waiting == {} && d.running == {}
    requires |d.failed| >= d.limit && ticket >= d.received
    ensures !Admissible(ticket, d.done, d.limit)
  {
  }

  /**
   * With every call giving its slot back, as `TransmitIntended` does, the
   * next ticket passes the wait loop at once when nothing is in flight.
   */
  lemma ReleasedSlotsAdmit(d: Dispatcher)
    requires d.Valid() && d.waiting == {} && d.running == {} && d.failed == {}
    requires d.limit > 0
    ensures Admissible(d.received, d.done, d.limit)
  {
  }
}
