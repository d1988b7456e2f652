/**
 * Requests with retries. The server is a function from the attempt number to its response;
 * `alive` says whether the service still exists when that response arrives.
 */
module NetworkService {
  import opened Wrappers
  import D = Diagnostics

  datatype Response = Response(status: int, text: string)

  const RETRYABLE_CODES: set<int> := {408, 500, 502, 503, 504, 522, 524, 599}
  const INITIALIZE_RETRY_COUNT := 3
  const LOG_EVENT_RETRY_COUNT := 2

  type Server = nat -> Response

  predicate IsSuccess(status: int): (success: bool)
    ensures success <==> status / 100 == 2
  {
    200 <= status < 300
  }

  predicate HasSuccessCode(response: Option<Response>) {
    response.Some? && IsSuccess(response.value.status)
  }

  /** Whether the response to this attempt ends the request. */
  predicate Final(server: Server, maxAttempts: int, attempt: nat) {
    || IsSuccess(server(attempt).status)
    || server(attempt).status !in RETRYABLE_CODES
    || attempt >= maxAttempts
  }

  /** The attempt, from `attempt` on, whose response is passed to the callback. */
  function FinalAttempt(server: Server, maxAttempts: int, attempt: nat): (n: nat)
    ensures attempt <= n && (n == attempt || n <= maxAttempts)
    ensures Final(server, maxAttempts, n)
    ensures forall k :: attempt <= k < n ==> !Final(server, maxAttempts, k)
    decreases maxAttempts - attempt
  {
    if Final(server, maxAttempts, attempt) then attempt
    else FinalAttempt(server, maxAttempts, attempt + 1)
  }

  /**
   * A request that starts at attempt 1 is decided by the first response that is a success or not
   * retryable, or by attempt `maxAttempts`; before it come only retryable failures.
   */
  lemma FinalAttemptMeaning(server: Server, maxAttempts: nat, n: nat)
    requires maxAttempts >= 1
    ensures FinalAttempt(server, maxAttempts, 1) == n <==>
      && 1 <= n <= maxAttempts
      && (forall k :: 1 <= k < n ==> server(k).status in RETRYABLE_CODES && !IsSuccess(server(k).status))
      && (IsSuccess(server(n).status) || server(n).status !in RETRYABLE_CODES || n == maxAttempts)
  {
    var m := FinalAttempt(server, maxAttempts, 1);
    forall k | 1 <= k < m ensures server(k).status in RETRYABLE_CODES && !IsSuccess(server(k).status) {
      assert !Final(server, maxAttempts, k);
    }
    assert Final(server, maxAttempts, m);
  }

  /** Start and end of every attempt in order: each start is followed by its own end. */
  function AttemptMarkers(server: Server, first: nat, last: nat): seq<D.Marker>
    decreases last - first
  {
    if first > last then []
    else [D.NetworkStart(first), D.NetworkEnd(first, server(first).status)] + AttemptMarkers(server, first + 1, last)
  }

  lemma {:induction false} MarkersArePaired(server: Server, first: nat, last: nat)
    requires first <= last + 1
    ensures |AttemptMarkers(server, first, last)| == 2 * (last + 1 - first)
    ensures forall i :: 0 <= i <= last - first ==>
      && AttemptMarkers(server, first, last)[2 * i] == D.NetworkStart(first + i)
      && AttemptMarkers(server, first, last)[2 * i + 1] == D.NetworkEnd(first + i, server(first + i).status)
    decreases last - first
  {
    if first <= last {
      MarkersArePaired(server, first + 1, last);
      var rest := AttemptMarkers(server, first + 1, last);
      var all := AttemptMarkers(server, first, last);
      forall i | 0 <= i <= last - first
        ensures all[2 * i] == D.NetworkStart(first + i)
        ensures all[2 * i + 1] == D.NetworkEnd(first + i, server(first + i).status)
      {
        if i > 0 {
          assert all[2 * i] == rest[2 * (i - 1)] && all[2 * i + 1] == rest[2 * (i - 1) + 1];
        }
      }
    }
  }

  /** The service still exists when each of these responses arrives. */
  ghost predicate AliveThrough(alive: nat -> bool, first: nat, last: nat) {
    forall k :: first <= k <= last ==> alive(k)
  }

  /** The markers of an initialize request whose service may go away while it waits for a response. */
  function RequestMarkers(server: Server, alive: nat -> bool, first: nat, last: nat): seq<D.Marker>
    decreases last - first
  {
    if first > last then []
    else if !alive(first) then [D.NetworkStart(first)]
    else [D.NetworkStart(first), D.NetworkEnd(first, server(first).status)] + RequestMarkers(server, alive, first + 1, last)
  }

  /** They are all markers, or those up to the start of the first attempt that finds the service gone. */
  lemma {:induction false} RequestMarkersMeaning(server: Server, alive: nat -> bool, first: nat, last: nat, k: nat)
    requires first <= last + 1
    ensures AliveThrough(alive, first, last) ==> RequestMarkers(server, alive, first, last) == AttemptMarkers(server, first, last)
    ensures first <= k <= last && !alive(k) && (forall i :: first <= i < k ==> alive(i)) ==>
      && |AttemptMarkers(server, first, last)| > 2 * (k - first)
      && RequestMarkers(server, alive, first, last) == AttemptMarkers(server, first, last)[..2 * (k - first) + 1]
    decreases last - first
  {
    MarkersArePaired(server, first, last);
    if first <= last && alive(first) {
      RequestMarkersMeaning(server, alive, first + 1, last, k);
      if first < k <= last && !alive(k) && forall i :: first <= i < k ==> alive(i) {
        var pair := [D.NetworkStart(first), D.NetworkEnd(first, server(first).status)];
        var rest := AttemptMarkers(server, first + 1, last);
        assert (pair + rest)[..2 * (k - first) + 1] == pair + rest[..2 * (k - first - 1) + 1];
      }
    }
  }

  class NetworkService {
    const diagnostics: D.Diagnostics

    constructor (diagnostics: D.Diagnostics)
      ensures this.diagnostics == diagnostics
    {
      this.diagnostics := diagnostics;
    }

    /** `calls` lists the responses passed to the callback. */
    method PostWithRetry(isInitialize: bool, server: Server, alive: nat -> bool, maxAttempts: int, attempt: nat)
      returns (calls: seq<Response>)
      modifies diagnostics`markers
      ensures var last := FinalAttempt(server, maxAttempts, attempt);
        && calls == (if AliveThrough(alive, attempt, last) then [server(last)] else [])
        && diagnostics.markers ==
           if isInitialize then D.MarkedAll(old(diagnostics.markers), RequestMarkers(server, alive, attempt, last))
           else old(diagnostics.markers)
      decreases maxAttempts - attempt
    {
      ghost var before := diagnostics.markers;
      if isInitialize {
        diagnostics.Mark(D.NetworkStart(attempt));
      }
      var response := server(attempt);
      if !alive(attempt) {
        return [];
      }
      ghost var pair := [D.NetworkStart(attempt), D.NetworkEnd(attempt, response.status)];
      if isInitialize {
        diagnostics.Mark(D.NetworkEnd(attempt, response.status));
        D.TwoMarks(before, D.NetworkStart(attempt), D.NetworkEnd(attempt, response.status));
      }
      ghost var last := FinalAttempt(server, maxAttempts, attempt);
      D.MarkedAllConcat(before, pair, RequestMarkers(server, alive, attempt + 1, last));
      assert AliveThrough(alive, attempt, last) == AliveThrough(alive, attempt + 1, last);
      if HasSuccessCode(Some(response)) {
        return [response];
      }
      if response.status !in RETRYABLE_CODES || attempt >= maxAttempts {
        return [response];
      }
      calls := PostWithRetry(isInitialize, server, alive, maxAttempts, attempt + 1);
    }
  }
}
