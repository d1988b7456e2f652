/** The evaluations data adapter: cached values, and fetching the latest ones. */
module DataAdapter {
  import opened Wrappers
  import opened UserKeys
  import opened EvaluationStore
  import opened MemoryCache
  import opened NetworkService
  import opened Hashing
  import D = Diagnostics
  import E = ErrorBoundary

  const CACHED_EVALUATIONS_PREFIX := "statsig.cached.evaluations."

  ghost function EntryKey(sdkKey: string, user: User): string {
    CACHED_EVALUATIONS_PREFIX + CacheKey(sdkKey, user)
  }

  /** A cache file: what it deserialises to, or text that does not deserialise. */
  datatype FileContent = Stored(result: AdapterResult) | Corrupt

  type Files = map<string, FileContent>

  /** `extra` are the details that turn a code into an error worth reporting. */
  datatype Outcome = Outcome(code: Code, value: Option<AdapterResult>, extra: E.Extra := None)

  // ---- GetDataSync ----

  /** A result read from a file is relabelled as coming from the cache. */
  function FromFile(files: Files, key: string): Outcome {
    if key !in files then Outcome(Ok, None)
    else if files[key].Corrupt? then Outcome(JsonFailureDataAdapterResult, None)
    else Outcome(Ok, Some(files[key].result.(source := Cache)))
  }

  function SyncOutcome(memory: MemoryCache.Cache, files: Files, key: string): Outcome {
    if key in memory then Outcome(Ok, Some(memory[key])) else FromFile(files, key)
  }

  /** A hit in a file is also put into memory. */
  function SyncMemory(memory: MemoryCache.Cache, files: Files, key: string, victim: Option<string>): MemoryCache.Cache {
    if key !in memory && FromFile(files, key).value.Some?
    then Added(memory, key, FromFile(files, key).value.value, victim)
    else memory
  }

  /** Where a synchronous lookup finds its result, and when it fails. */
  lemma SyncOutcomeMeaning(memory: MemoryCache.Cache, files: Files, key: string)
    ensures var o := SyncOutcome(memory, files, key);
      && o.extra.None?
      && (o.code != Ok <==> key !in memory && key in files && files[key].Corrupt?)
      && (o.code != Ok ==> o.code == JsonFailureDataAdapterResult)
      && (o.value.Some? <==> key in memory || (key in files && files[key].Stored?))
      && (key in memory ==> o.value == Some(memory[key]))
      && (key !in memory && o.value.Some? ==>
            var r := files[key].result;
            o.value == Some(AdapterResult(Cache, r.data, r.receivedAt, r.fullUserHash)))
  {
  }

  /** A result found in a file is in memory afterwards, in place of a victim if there had to be one. */
  lemma SyncMemoryMeaning(memory: MemoryCache.Cache, files: Files, key: string, victim: Option<string>)
    requires Victim(memory, victim)
    ensures var kept := if victim.Some? then memory - {victim.value} else memory;
      SyncMemory(memory, files, key, victim) ==
        if key !in memory && key in files && files[key].Stored?
        then kept[key := files[key].result.(source := Cache)] else memory
  {
  }

  /** The name of a cache entry. */
  lemma EntryKeyText(sdkKey: string, user: User)
    ensures EntryKey(sdkKey, user) == "statsig.cached.evaluations." + DJB2Text(CacheKeyText(sdkKey, user))
  {
  }

  // ---- FetchLatest ----

  // `hash` is the full hash of the requesting user throughout.

  /** The cached response whose time may be sent to the server: it was stored under the same full hash. */
  function CacheFor204(parse: Parser, hash: string, current: Option<AdapterResult>): Option<InitializeResponse> {
    if current.Some? && hash == current.value.fullUserHash then parse(current.value.data) else None
  }

  function SinceTime(cache: Option<InitializeResponse>): int {
    if cache.Some? && cache.value.hasUpdates then cache.value.time else 0
  }

  /** The time that is sent is that of a cached response with updates for the same full hash, else none. */
  lemma SinceTimeExactly(parse: Parser, hash: string, current: Option<AdapterResult>)
    ensures SinceTime(CacheFor204(parse, hash, current)) ==
      if current.Some? && current.value.fullUserHash == hash && parse(current.value.data).Some?
         && parse(current.value.data).value.hasUpdates
      then parse(current.value.data).value.time else 0
  {
  }

  datatype NetResult = NetResult(code: Code, value: Option<InitializeResponse>, raw: string, extra: E.Extra := None)

  /** Only server errors carry details. */
  function StatusCodeErr(status: int): E.Extra {
    if status < 500 then None else Some(map[E.BAD_NETWORK_ERR := E.BAD_NETWORK_ERR + Decimal(status)])
  }

  function Handled(parse: Parser, response: Response): NetResult {
    if !IsSuccess(response.status) then NetResult(NetworkFailureBadStatusCode, None, "", StatusCodeErr(response.status))
    else if response.status == 204 then NetResult(Ok, Some(EMPTY_RESPONSE), "")
    else if parse(response.text).None? then NetResult(JsonFailureInitializeResponse, None, "")
    else NetResult(Ok, parse(response.text), response.text)
  }

  /** The processing markers that the response handler sets itself. */
  function HandlerMarkers(parse: Parser, response: Response): seq<D.Marker> {
    if !IsSuccess(response.status) then []
    else if response.status != 204 && parse(response.text).None? then [D.ProcessStart, D.ProcessEnd(false)]
    else [D.ProcessStart]
  }

  function Latest(hash: string, current: Option<AdapterResult>, net: NetResult, now: Timestamp): Outcome {
    if net.code != Ok || net.value.None? then Outcome(net.code, None, net.extra)
    else if net.value.value.hasUpdates then
      Outcome(Ok, Some(AdapterResult(Network, net.raw, now, hash)))
    else
      Outcome(Ok, Some(AdapterResult(NetworkNotModified, if current.Some? then current.value.data else "",
                                     now, hash)))
  }

  function LatestFrom(parse: Parser, hash: string, current: Option<AdapterResult>, response: Response, now: Timestamp): Outcome {
    Latest(hash, current, Handled(parse, response), now)
  }

  /** The response tells the client to keep what it has. */
  predicate SaysNoUpdates(parse: Parser, response: Response) {
    && IsSuccess(response.status)
    && (response.status == 204 || (parse(response.text).Some? && !parse(response.text).value.hasUpdates))
  }

  /** A server that answers "no updates" only to a positive `sinceTime`. */
  predicate Honest(parse: Parser, sinceTime: int, response: Response) {
    SaysNoUpdates(parse, response) ==> sinceTime > 0
  }

  /** A result that may be shown to the requester: its own full hash, and data that deserialises. */
  ghost predicate Sound(parse: Parser, hash: string, current: Option<AdapterResult>, r: AdapterResult) {
    && r.fullUserHash == hash
    && parse(r.data).Some?
    && (r.source == Network || r.source == NetworkNotModified)
    && (r.source == NetworkNotModified ==>
          current.Some? && current.value.fullUserHash == hash && r.data == current.value.data)
  }

  lemma NotModifiedSound(parse: Parser, hash: string, current: Option<AdapterResult>, response: Response, now: Timestamp)
    requires Honest(parse, SinceTime(CacheFor204(parse, hash, current)), response)
    ensures var latest := LatestFrom(parse, hash, current, response, now);
      && (latest.value.Some? ==> latest.code == Ok)
      && (latest.code == Ok ==> latest.value.Some? && Sound(parse, hash, current, latest.value.value))
  {
  }

  /** Every answer and what becomes of it. */
  lemma LatestMeaning(parse: Parser, hash: string, current: Option<AdapterResult>, response: Response, now: Timestamp)
    ensures var latest := LatestFrom(parse, hash, current, response, now);
      var kept := if current.Some? then current.value.data else "";
      if response.status / 100 != 2 then latest.code == NetworkFailureBadStatusCode && latest.value.None?
      else if response.status != 204 && parse(response.text).None? then
        latest.code == JsonFailureInitializeResponse && latest.value.None? && latest.extra.None?
      else
        && latest.code == Ok && latest.extra.None?
        && latest.value == Some(
             if response.status != 204 && parse(response.text).value.hasUpdates
             then AdapterResult(Network, response.text, now, hash)
             else AdapterResult(NetworkNotModified, kept, now, hash))
  {
  }

  /** A "no updates" to a request with a time keeps data of exactly that time. */
  lemma NotModifiedKeepsTime(parse: Parser, hash: string, current: Option<AdapterResult>, response: Response, now: Timestamp)
    requires SinceTime(CacheFor204(parse, hash, current)) != 0 && SaysNoUpdates(parse, response)
    ensures var latest := LatestFrom(parse, hash, current, response, now);
      && latest.value.Some? && parse(latest.value.value.data).Some?
      && parse(latest.value.value.data).value.time == SinceTime(CacheFor204(parse, hash, current))
  {
  }

  /** A failed request leaves a report from status 500 on, with its status in the text, and none below. */
  lemma BadStatusReported(parse: Parser, hash: string, current: Option<AdapterResult>, response: Response, now: Timestamp, tag: string)
    requires response.status / 100 != 2
    ensures var latest := LatestFrom(parse, hash, current, response, now);
      var report := E.Raised(E.BadResult(tag, latest.code, latest.extra));
      if response.status >= 500 then report.Some? && report.value.tag == tag && report.value.error == "NetworkError_" + Decimal(response.status)
      else report.None?
  {
  }

  /** Processing begins with any 2xx, and ends at once if the text cannot be parsed. */
  lemma HandlerMarkersMeaning(parse: Parser, response: Response)
    ensures var markers := HandlerMarkers(parse, response);
      && (response.status / 100 != 2 <==> markers == [])
      && (response.status / 100 == 2 ==> markers[0] == D.ProcessStart)
      && (response.status / 100 == 2 && response.status != 204 && parse(response.text).None? <==> D.ProcessEnd(false) in markers)
      && |markers| <= 2
  {
  }

  /** Without trust in the server, a result is sound exactly when the guard of the 204 path passed or data came. */
  lemma SoundExactly(parse: Parser, hash: string, current: Option<AdapterResult>, response: Response, now: Timestamp)
    ensures var latest := LatestFrom(parse, hash, current, response, now);
      latest.value.Some? ==>
        (Sound(parse, hash, current, latest.value.value) <==>
          (SaysNoUpdates(parse, response) ==> CacheFor204(parse, hash, current).Some?))
  {
  }

  /** A "no updates" to a client without a cache is stored as empty data under the requester's own hash. */
  lemma UnrequestedNotModified(parse: Parser, hash: string, now: Timestamp)
    ensures LatestFrom(parse, hash, None, Response(204, ""), now)
      == Outcome(Ok, Some(AdapterResult(NetworkNotModified, "", now, hash)))
    ensures !Honest(parse, SinceTime(CacheFor204(parse, hash, None)), Response(204, ""))
  {
  }

  // ---- the adapter object ----

  class EvaluationsDataAdapter {
    const sdkKey: string
    const parse: Parser
    const memory: InMemoryCache
    const network: NetworkService

    constructor (sdkKey: string, parse: Parser, memory: InMemoryCache, network: NetworkService)
      ensures this.sdkKey == sdkKey && this.parse == parse && this.memory == memory && this.network == network
    {
      this.sdkKey, this.parse, this.memory, this.network := sdkKey, parse, memory, network;
    }

    method GetCacheKey(user: User) returns (key: string)
      ensures key == EntryKey(sdkKey, user)
    {
      key := MakeCacheKey(sdkKey, user);
      key := CACHED_EVALUATIONS_PREFIX + key;
    }

    method GetDataSync(user: User, files: Files) returns (outcome: Outcome, ghost victim: Option<string>)
      modifies memory
      ensures outcome == SyncOutcome(old(memory.entries), files, EntryKey(sdkKey, user))
      ensures Victim(old(memory.entries), victim)
      ensures memory.entries == SyncMemory(old(memory.entries), files, EntryKey(sdkKey, user), victim)
    {
      victim := AnyVictim(memory.entries);
      var key := GetCacheKey(user);
      if key in memory.entries {
        return Outcome(Ok, Some(memory.entries[key])), victim;
      }
      var cached := FromFile(files, key);
      if cached.code == Ok && cached.value.Some? {
        victim := memory.AddToInMemoryCache(key, cached.value.value);
        return cached, victim;
      }
      outcome := Outcome(cached.code, None);
    }

    method DeserializeCacheValueIfValidFor204(user: User, current: Option<AdapterResult>)
      returns (cache: Option<InitializeResponse>)
      ensures cache == CacheFor204(parse, FullUserHash(user), current)
    {
      if current.None? {
        return None;
      }
      var hash := GetFullUserHash(user);
      if hash != current.value.fullUserHash {
        return None;
      }
      return parse(current.value.data);
    }

    /**
     * `answer` is the server: given the `sinceTime` of the request, its response to each attempt.
     * `results` lists what is passed to the callback.
     */
    method FetchValues(user: User, current: Option<AdapterResult>, answer: int -> Server, alive: nat -> bool)
      returns (results: seq<NetResult>)
      modifies network.diagnostics`markers
      ensures var server := answer(SinceTime(CacheFor204(parse, FullUserHash(user), current)));
        var n := FinalAttempt(server, 3, 1);
        && results == (if AliveThrough(alive, 1, n) then [Handled(parse, server(n))] else [])
        && network.diagnostics.markers == D.MarkedAll(old(network.diagnostics.markers),
             RequestMarkers(server, alive, 1, n) + if AliveThrough(alive, 1, n) then HandlerMarkers(parse, server(n)) else [])
    {
      var cache := DeserializeCacheValueIfValidFor204(user, current);
      results := Request(answer(if cache.Some? && cache.value.hasUpdates then cache.value.time else 0), alive);
    }

    method Request(server: Server, alive: nat -> bool) returns (results: seq<NetResult>)
      modifies network.diagnostics`markers
      ensures var n := FinalAttempt(server, 3, 1);
        && results == (if AliveThrough(alive, 1, n) then [Handled(parse, server(n))] else [])
        && network.diagnostics.markers == D.MarkedAll(old(network.diagnostics.markers),
             RequestMarkers(server, alive, 1, n) + if AliveThrough(alive, 1, n) then HandlerMarkers(parse, server(n)) else [])
    {
      ghost var before := network.diagnostics.markers;
      ghost var markers := RequestMarkers(server, alive, 1, FinalAttempt(server, INITIALIZE_RETRY_COUNT, 1));
      var responses := network.PostWithRetry(true, server, alive, INITIALIZE_RETRY_COUNT, 1);
      if responses == [] {
        assert markers + [] == markers;
        return [];
      }
      D.MarkedAllConcat(before, markers, HandlerMarkers(parse, responses[0]));
      var net := HandleFetchValuesResponse(responses[0]);
      return [net];
    }

    method FetchLatest(user: User, current: Option<AdapterResult>, answer: int -> Server, alive: nat -> bool, now: Timestamp)
      returns (calls: seq<Outcome>)
      modifies network.diagnostics`markers
      ensures var server := answer(SinceTime(CacheFor204(parse, FullUserHash(user), current)));
        var n := FinalAttempt(server, 3, 1);
        && calls == (if AliveThrough(alive, 1, n) then [LatestFrom(parse, FullUserHash(user), current, server(n), now)] else [])
        && network.diagnostics.markers == D.MarkedAll(old(network.diagnostics.markers),
             RequestMarkers(server, alive, 1, n) + if AliveThrough(alive, 1, n) then HandlerMarkers(parse, server(n)) else [])
    {
      var results := FetchValues(user, current, answer, alive);
      if results == [] {
        return [];
      }
      var latest := ToLatest(user, current, results[0], now);
      return [latest];
    }

    method ToLatest(user: User, current: Option<AdapterResult>, net: NetResult, now: Timestamp) returns (latest: Outcome)
      ensures latest == Latest(FullUserHash(user), current, net, now)
    {
      if net.code != Ok || net.value.None? {
        return Outcome(net.code, None, net.extra);
      }
      var hash := GetFullUserHash(user);
      var result := AdapterResult(Uninitialized, "", now, hash);
      if net.value.value.hasUpdates {
        result := result.(data := net.raw, source := Network);
      } else {
        result := result.(data := if current.Some? then current.value.data else "", source := NetworkNotModified);
      }
      return Outcome(Ok, Some(result));
    }

    method HandleFetchValuesResponse(response: Response) returns (net: NetResult)
      modifies network.diagnostics`markers
      ensures net == Handled(parse, response)
      ensures network.diagnostics.markers
        == D.MarkedAll(old(network.diagnostics.markers), HandlerMarkers(parse, response))
    {
      ghost var before := network.diagnostics.markers;
      if !HasSuccessCode(Some(response)) {
        return NetResult(NetworkFailureBadStatusCode, None, "", StatusCodeErr(response.status));
      }
      network.diagnostics.Mark(D.ProcessStart);
      if response.status == 204 {
        return NetResult(Ok, Some(EMPTY_RESPONSE), "");
      }
      var data := parse(response.text);
      if data.None? {
        network.diagnostics.Mark(D.ProcessEnd(false));
        D.TwoMarks(before, D.ProcessStart, D.ProcessEnd(false));
        return NetResult(JsonFailureInitializeResponse, None, "");
      }
      return NetResult(Ok, data, response.text);
    }
  }

  /** A victim always exists; it matters only when an entry is added. */
  ghost function AnyVictim(m: MemoryCache.Cache): (victim: Option<string>)
    ensures Victim(m, victim)
  {
    if |m| < MAX_CACHED_EVALUATIONS then None
    else
      OldestExists(m);
      var k :| IsOldest(m, k);
      Some(k)
  }

  lemma {:induction false} OldestExists(m: MemoryCache.Cache)
    requires m != map[]
    ensures exists k :: IsOldest(m, k)
    decreases |m|
  {
    var k :| k in m;
    var rest := m - {k};
    assert forall other :: other in m ==> other == k || other in rest;
    if rest == map[] {
      assert IsOldest(m, k);
    } else {
      assert |rest| < |m|;
      OldestExists(rest);
      var r :| IsOldest(rest, r);
      if m[k].receivedAt < m[r].receivedAt {
        assert IsOldest(m, k);
      } else {
        assert IsOldest(m, r);
      }
    }
  }
}
