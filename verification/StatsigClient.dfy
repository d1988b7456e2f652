/**
 * The client's context as an object: updates and completions as methods that change its fields. Each
 * method performs one step of `ClientProtocol` on what the context shows and on what it shares.
 */
module StatsigClient {
  import opened Wrappers
  import opened UserKeys
  import opened EvaluationStore
  import opened MemoryCache
  import opened NetworkService
  import opened DataAdapter
  import opened ClientProtocol
  import S = ClientSessions
  import D = Diagnostics
  import E = ErrorBoundary

  /** What outlives a context: the cache files, the jobs of the pool, and the callbacks. */
  class Background {
    var files: Files
    var jobs: map<nat, Job>
    var nextJob: nat
    /** The callbacks handed to asynchronous updates, and how often each has been invoked. */
    var invoked: seq<nat>

    ghost var lost: set<nat>
    ghost var served: set<(User, string)>

    ghost function View(): S.Shared
      reads this
    {
      S.Shared(files, jobs, nextJob, invoked, lost, served)
    }

    constructor (files: Files, ghost served: set<(User, string)>)
      ensures View() == S.Shared(files, map[], 0, [], {}, served)
    {
      this.files, jobs, nextJob, invoked := files, map[], 0, [];
      lost, this.served := {}, served;
    }
  }

  class StatsigContext {
    const environment: Option<Environment>
    const store: EvaluationStore
    const adapter: EvaluationsDataAdapter
    const background: Background
    const errBoundary: E.ErrorBoundary
    var user: User

    ghost var origin: Option<User>

    /** Keys and hashes as `MakeCacheKey` and `GetFullUserHash` compute them. */
    ghost function World(): Env {
      Env(adapter.sdkKey, EntryKey, FullUserHash, adapter.parse, environment)
    }

    ghost function Own(): S.Context
      reads this, store, adapter.memory
    {
      S.Context(World(), user, store.View(), adapter.memory.entries, origin)
    }

    ghost function View(): Client
      reads this, store, adapter.memory, background
    {
      S.View(Own(), background.View())
    }

    /** A context with a store, a memory and a network of its own. */
    constructor (sdkKey: string, given: Option<User>, environment: Option<Environment>, parse: Parser,
                 diagnostics: D.Diagnostics, background: Background, encodable: E.Report -> bool)
      ensures fresh(store) && fresh(adapter) && fresh(adapter.memory) && fresh(errBoundary)
      ensures errBoundary.encodable == encodable && errBoundary.View() == E.After(encodable, [])
      ensures this.background == background && adapter.network.diagnostics == diagnostics
      ensures World() == Env(sdkKey, EntryKey, FullUserHash, parse, environment)
      ensures Own() == S.NewContext(World(), given.GetOr(DEFAULT_USER))
    {
      store := new EvaluationStore();
      errBoundary := new E.ErrorBoundary(encodable);
      var memory := new InMemoryCache();
      var network := new NetworkService(diagnostics);
      adapter := new EvaluationsDataAdapter(sdkKey, parse, memory, network);
      this.environment, this.background := environment, background;
      user, origin := given.GetOr(DEFAULT_USER), None;
    }

    method RunInBackground(job: Job)
      modifies background
      ensures View() == AddJob(old(View()), job)
    {
      background.jobs := background.jobs[background.nextJob := job];
      background.nextJob := background.nextJob + 1;
    }

    /** What a lookup for the normalised user finds. */
    ghost function Found(s: Client, given: User): Outcome {
      SyncOutcome(s.memory, s.files, EntryKey(adapter.sdkKey, given.(environment := environment)))
    }

    /** The common beginning of both updates. */
    method ShowCached(given: User) returns (outcome: Outcome, ghost victim: Option<string>)
      modifies this, store, adapter.memory, adapter.network.diagnostics`user
      ensures adapter.network.diagnostics.user == given
      ensures Victim(old(View()).memory, victim)
      ensures View() == BeginUpdate(World(), old(View()), given, victim)
      ensures outcome == Found(old(View()), given) && outcome.value == CachedResult(World(), old(View()), given)
    {
      user := NormalizeUser(given, environment);
      store.Reset();
      adapter.network.diagnostics.SetUser(given);
      outcome, victim := adapter.GetDataSync(user, background.files);
      ShowFound(outcome);
    }

    /** Shows what was found for the current user in a store that has just been reset. */
    method ShowFound(outcome: Outcome)
      requires store.View() == LOADING_STORE
      modifies this`origin, store
      ensures store.View() == if outcome.code == Ok then WithResult(LOADING_STORE, adapter.parse, outcome.value) else LOADING_STORE
      ensures origin == if store.View().values.Some? then Some(user) else None
    {
      if outcome.code == Ok {
        var _ := store.SetValuesFromDataAdapterResult(adapter.parse, outcome.value);
      }
      origin := if store.values.Some? then Some(user) else None;
    }

    /** Shows what is cached and does not wait for more. */
    method ShowFinal(given: User) returns (outcome: Outcome, ghost victim: Option<string>)
      modifies this, store, adapter.memory, adapter.network.diagnostics`user
      ensures adapter.network.diagnostics.user == given
      ensures Victim(old(View()).memory, victim)
      ensures var shown := BeginUpdate(World(), old(View()), given, victim);
        View() == shown.(store := Finalized(shown.store))
      ensures outcome == Found(old(View()), given) && outcome.value == CachedResult(World(), old(View()), given)
      ensures outcome.extra.None?
    {
      outcome, victim := ShowCached(given);
      store.Finalize();
    }

    /** What the boundary knows after this result was handed to it. */
    ghost function Reported(before: E.Boundary, tag: string, code: Code, extra: E.Extra): E.Boundary {
      E.Logged(before, errBoundary.encodable, E.Raised(E.BadResult(tag, code, extra)))
    }

    method UpdateUserSync(given: User) returns (code: Code, ghost victim: Option<string>)
      modifies this, store, adapter.memory, adapter.network.diagnostics`user, background, errBoundary
      ensures adapter.network.diagnostics.user == given
      ensures code == Found(old(View()), given).code
      ensures errBoundary.View() == Reported(old(errBoundary.View()), "UpdateUserSync", code, None)
      ensures Enabled(old(View()), UpdateSync(given, victim))
      ensures View() == Apply(World(), old(View()), UpdateSync(given, victim))
    {
      var outcome;
      outcome, victim := ShowFinal(given);
      var _ := errBoundary.HandleBadResult("UpdateUserSync", outcome.code, outcome.extra);
      RunInBackground(SyncRefresh(outcome.value));
      code := outcome.code;
    }

    method UpdateUserAsync(given: User) returns (ghost victim: Option<string>)
      modifies this, store, adapter.memory, adapter.network.diagnostics`user, background
      ensures adapter.network.diagnostics.user == given
      ensures Enabled(old(View()), UpdateAsync(given, victim))
      ensures View() == Apply(World(), old(View()), UpdateAsync(given, victim))
    {
      var outcome;
      outcome, victim := ShowCached(given);
      var call := |background.invoked|;
      background.invoked := background.invoked + [0];
      RunInBackground(AsyncRefresh(user, outcome.value, call));
    }

    method ShowResult(initiator: User, result: Option<AdapterResult>)
      modifies this`origin, store
      ensures store.View() == WithResult(old(store.View()), adapter.parse, result)
      ensures origin == if Parses(World(), result) then Some(initiator) else old(origin)
    {
      origin := if Parses(World(), result) then Some(initiator) else origin;
      var _ := store.SetValuesFromDataAdapterResult(adapter.parse, result);
    }

    method AreUsersEqual(left: User, right: User) returns (equal: bool)
      ensures equal == Equal(World(), left, right)
    {
      var leftHash := GetFullUserHash(left);
      var rightHash := GetFullUserHash(right);
      equal := leftHash == rightHash;
    }

    /** What the boundary knows after a callback, if there was one, has handed its outcome to it. */
    ghost function ReportedBy(before: E.Boundary, callback: Option<nat>, outcome: Option<Outcome>, alive: bool): E.Boundary {
      if callback.Some? && outcome.Some? && alive
      then Reported(before, "UpdateUserAsync", outcome.value.code, outcome.value.extra) else before
    }

    /** The callback of an asynchronous update, called with the outcome of the adapter. */
    method Complete(initiator: User, callback: Option<nat>, outcome: Outcome, alive: bool)
      modifies this`origin, store, background, errBoundary
      ensures View() == ClientProtocol.Complete(World(), old(View()), initiator, callback, outcome, alive)
      ensures errBoundary.View() == ReportedBy(old(errBoundary.View()), callback, Some(outcome), alive)
    {
      Settle(initiator, callback, outcome, alive);
      if callback.Some? && alive {
        var _ := errBoundary.HandleBadResult("UpdateUserAsync", outcome.code, outcome.extra);
      }
    }

    method Settle(initiator: User, callback: Option<nat>, outcome: Outcome, alive: bool)
      modifies this`origin, store, background
      ensures View() == ClientProtocol.Complete(World(), old(View()), initiator, callback, outcome, alive)
    {
      if callback.None? {
        return;
      }
      if !alive {
        background.lost := background.lost + {callback.value};
        return;
      }
      var equal := AreUsersEqual(initiator, user);
      ShowAndCall(initiator, callback.value, outcome, equal);
    }

    method ShowAndCall(initiator: User, call: nat, outcome: Outcome, equal: bool)
      modifies this`origin, background`invoked, store
      ensures View() == CalledBack(World(), old(View()), initiator, call, outcome, outcome.code == Ok && equal)
    {
      if outcome.code == Ok && equal {
        ShowResult(initiator, outcome.value);
      }
      store.Finalize();
      if call < |background.invoked| {
        background.invoked := background.invoked[call := background.invoked[call] + 1];
      }
    }

    method RunJob(j: nat, alive: bool) returns (ghost victim: Option<string>)
      requires j in background.jobs && (background.jobs[j].SyncRefresh? || background.jobs[j].AsyncRefresh?)
      modifies adapter.memory, background
      ensures Enabled(old(View()), Step.RunJob(j, victim, alive))
      ensures View() == Apply(World(), old(View()), Step.RunJob(j, victim, alive))
    {
      victim := AnyVictim(adapter.memory.entries);
      var job := background.jobs[j];
      background.jobs := background.jobs - {j};
      if !alive {
        background.lost := if CallOf(job).Some? then background.lost + {CallOf(job).value} else background.lost;
        return;
      }
      var requester := if job.AsyncRefresh? then job.initiator else user;
      var current := job.current;
      if current.None? {
        var outcome;
        outcome, victim := adapter.GetDataSync(requester, background.files);
        current := outcome.value;
      }
      RunInBackground(Fetching(requester, current, CallOf(job)));
    }

    /** The pool writes a cache file, then the adapter's callback runs. */
    method OnWritten(j: nat, alive: bool)
      requires j in background.jobs && background.jobs[j].Writing?
      modifies this`origin, store, background, errBoundary
      ensures View() == Apply(World(), old(View()), Written(j, alive))
      ensures errBoundary.View() == ReportedBy(old(errBoundary.View()), old(CallOf(background.jobs[j])),
        old(ResultOf(World(), View(), Written(j, alive))), alive)
    {
      var job := background.jobs[j];
      background.jobs := background.jobs - {j};
      var key := adapter.GetCacheKey(job.user);
      background.files := background.files[key := Stored(job.latest)];
      Complete(job.user, job.callback, Outcome(Ok, Some(job.latest)), alive);
    }

    /** `response` is the one that `PostWithRetry` passes on; `deleted` are the files an eviction removes. */
    method OnResponse(j: nat, response: Response, now: Timestamp, deleted: set<string>,
                      networkAlive: bool, adapterAlive: bool, alive: bool) returns (ghost victim: Option<string>)
      requires j in background.jobs && background.jobs[j].Fetching?
      modifies this`origin, store, adapter.memory, background, errBoundary
      ensures Enabled(old(View()), Respond(j, response, now, victim, deleted, networkAlive, adapterAlive, alive))
      ensures View() == Apply(World(), old(View()), Respond(j, response, now, victim, deleted, networkAlive, adapterAlive, alive))
      ensures errBoundary.View() == ReportedBy(old(errBoundary.View()), old(CallOf(background.jobs[j])),
        ResultOf(World(), old(View()), Respond(j, response, now, victim, deleted, networkAlive, adapterAlive, alive)), alive)
    {
      victim := AnyVictim(adapter.memory.entries);
      var job := background.jobs[j];
      if !networkAlive {
        background.jobs := background.jobs - {j};
        background.lost := if job.callback.Some? then background.lost + {job.callback.value} else background.lost;
        return;
      }
      var latest := FetchOutcome(job, response, now);
      EndRequest(j, latest.value);
      victim := Conclude(job, latest, deleted, adapterAlive, alive);
    }

    method EndRequest(j: nat, latest: Option<AdapterResult>)
      requires j in background.jobs && background.jobs[j].Fetching?
      modifies background
      ensures View() == Record(old(View()), j, latest)
    {
      var job := background.jobs[j];
      background.jobs := background.jobs - {j};
      background.served := if latest.Some? && latest.value.source == Network
                           then background.served + {(job.user, latest.value.data)} else background.served;
    }

    method FetchOutcome(job: Job, response: Response, now: Timestamp) returns (latest: Outcome)
      requires job.Fetching?
      ensures latest == LatestFrom(adapter.parse, FullUserHash(job.user), job.current, response, now)
    {
      var hash := GetFullUserHash(job.user);
      latest := LatestFrom(adapter.parse, hash, job.current, response, now);
    }

    method Conclude(job: Job, latest: Outcome, deleted: set<string>, adapterAlive: bool, alive: bool)
      returns (ghost victim: Option<string>)
      requires job.Fetching?
      modifies this`origin, store, adapter.memory, background, errBoundary
      ensures Victim(old(View()).memory, victim)
      ensures View() == ClientProtocol.Conclude(World(), old(View()), job, latest, victim, deleted, adapterAlive, alive)
      ensures errBoundary.View() == ReportedBy(old(errBoundary.View()), job.callback, Concluded(latest, adapterAlive), alive)
    {
      victim := AnyVictim(adapter.memory.entries);
      if !adapterAlive {
        Complete(job.user, job.callback, Outcome(SharedPointerLost, None), alive);
        return;
      }
      if latest.value.None? {
        Complete(job.user, job.callback, latest, alive);
        return;
      }
      victim := KeepLatest(job, latest.value.value, deleted, alive);
    }

    method KeepLatest(job: Job, latest: AdapterResult, deleted: set<string>, alive: bool) returns (ghost victim: Option<string>)
      requires job.Fetching?
      modifies this`origin, store, adapter.memory, background, errBoundary
      ensures Victim(old(View()).memory, victim)
      ensures View() == ClientProtocol.KeepLatest(World(), old(View()), job, latest, victim, deleted, alive)
      ensures errBoundary.View() == ReportedBy(old(errBoundary.View()), job.callback, Concluded(Outcome(Ok, Some(latest)), true), alive)
    {
      var key := adapter.GetCacheKey(job.user);
      victim := adapter.memory.AddToInMemoryCache(key, latest);
      if latest.source == Network {
        background.files := background.files - deleted;
        RunInBackground(Writing(job.user, latest, job.callback));
      } else {
        Complete(job.user, job.callback, Outcome(Ok, Some(latest)), alive);
      }
    }
  }

  /** The client: a context, or none before it is initialised and after it is shut down. */
  class StatsigClient {
    var context: StatsigContext?
    const background: Background
    const parse: Parser
    const encodable: E.Report -> bool

    /** The objects that an update can change. */
    ghost function Reach(): set<object>
      reads this
    {
      if context == null then {}
      else {context, context.store, context.adapter.memory, context.background, context.errBoundary}
    }

    ghost function Diagnosed(): set<D.Diagnostics>
      reads this
    {
      if context == null then {} else {context.adapter.network.diagnostics}
    }

    ghost function Boundary(): E.Boundary
      reads this, Reach()
    {
      if context == null then E.Boundary({}, []) else context.errBoundary.View()
    }

    ghost function View(): Client
      reads this, background, Reach()
    {
      if context == null then S.Outside(background.View()) else context.View()
    }

    constructor (background: Background, parse: Parser, encodable: E.Report -> bool)
      ensures this.background == background && this.parse == parse && this.encodable == encodable && context == null
    {
      this.background, this.parse, this.encodable, context := background, parse, encodable, null;
    }

    /** A new context takes the place of the current one, which stays as it is. */
    method Replace(sdkKey: string, given: Option<User>, environment: Option<Environment>, diagnostics: D.Diagnostics)
      modifies this`context
      ensures context != null && fresh(context) && fresh(Reach() - {background})
      ensures context.background == background && context.adapter.network.diagnostics == diagnostics
      ensures context.World() == Env(sdkKey, EntryKey, FullUserHash, parse, environment)
      ensures context.user == given.GetOr(DEFAULT_USER) && View() == Replaced(context.World(), given, background.View())
    {
      var next := new StatsigContext(sdkKey, given, environment, parse, diagnostics, background, encodable);
      context := next;
    }

    /** The state of a context that has just been made. */
    ghost function Replaced(env: Env, given: Option<User>, shared: S.Shared): Client {
      S.View(S.NewContext(env, given.GetOr(DEFAULT_USER)), shared)
    }

    /**
     * An empty key is refused and leaves everything as it is. Otherwise the synchronous update of the
     * user is the first of a new context. `diagnostics` is the instance shared by all contexts with
     * this key.
     */
    method InitializeSync(sdkKey: string, given: Option<User>, environment: Option<Environment>, diagnostics: D.Diagnostics)
      returns (code: Code, ghost victim: Option<string>)
      modifies this`context, background, diagnostics
      ensures sdkKey == "" ==> code == InvalidSdkKey && context == old(context) && background.View() == old(background.View())
      ensures sdkKey == "" ==> diagnostics.markers == old(diagnostics.markers) && diagnostics.user == old(diagnostics.user)
      ensures sdkKey != "" ==>
        && context != null && fresh(context) && context.background == background
        && context.World() == Env(sdkKey, EntryKey, FullUserHash, parse, environment)
        && var before := Replaced(context.World(), given, old(background.View()));
          var step := UpdateSync(given.GetOr(DEFAULT_USER), victim);
          Enabled(before, step) && View() == Apply(context.World(), before, step)
      ensures sdkKey != "" ==>
        && diagnostics.user == given.GetOr(DEFAULT_USER)
        && diagnostics.markers == D.MarkedAll(old(diagnostics.markers), [D.OverallStart, D.OverallEnd(code == Ok)])
    {
      if sdkKey == "" {
        return InvalidSdkKey, None;
      }
      ghost var before := diagnostics.markers;
      Replace(sdkKey, given, environment, diagnostics);
      diagnostics.Mark(D.OverallStart);
      code, victim := UpdateUserSync(context.user);
      diagnostics.Mark(D.OverallEnd(code == Ok));
      D.TwoMarks(before, D.OverallStart, D.OverallEnd(code == Ok));
    }

    /** `refused` is what the callback is given at once; an accepted call is answered as an update is. */
    method InitializeAsync(sdkKey: string, given: Option<User>, environment: Option<Environment>, diagnostics: D.Diagnostics)
      returns (refused: Option<Code>, ghost victim: Option<string>)
      modifies this`context, background, diagnostics
      ensures sdkKey == "" ==>
        refused == Some(InvalidSdkKey) && context == old(context) && background.View() == old(background.View())
      ensures sdkKey == "" ==> diagnostics.markers == old(diagnostics.markers) && diagnostics.user == old(diagnostics.user)
      ensures sdkKey != "" ==>
        && refused.None? && context != null && fresh(context) && context.background == background
        && context.World() == Env(sdkKey, EntryKey, FullUserHash, parse, environment)
        && var before := Replaced(context.World(), given, old(background.View()));
          var step := UpdateAsync(given.GetOr(DEFAULT_USER), victim);
          Enabled(before, step) && View() == Apply(context.World(), before, step)
      ensures sdkKey != "" ==>
        && diagnostics.user == given.GetOr(DEFAULT_USER)
        && diagnostics.markers == D.MarkedAll(old(diagnostics.markers), [D.OverallStart])
    {
      if sdkKey == "" {
        return Some(InvalidSdkKey), None;
      }
      Replace(sdkKey, given, environment, diagnostics);
      diagnostics.Mark(D.OverallStart);
      victim := UpdateUserAsync(context.user);
      refused := None;
    }

    /** Without a context the call returns at once and nothing happens. */
    method UpdateUserSync(given: User) returns (code: Code, ghost victim: Option<string>)
      modifies Reach(), Diagnosed()`user
      ensures context == old(context)
      ensures context == null ==> code == ClientUninitialized && View() == old(View())
      ensures context != null ==>
        && context.adapter.network.diagnostics.user == given
        && code == context.Found(old(View()), given).code
        && Boundary() == context.Reported(old(Boundary()), "UpdateUserSync", code, None)
      ensures context != null ==>
        Enabled(old(View()), UpdateSync(given, victim)) && View() == Apply(context.World(), old(View()), UpdateSync(given, victim))
    {
      if context == null {
        return ClientUninitialized, None;
      }
      code, victim := context.UpdateUserSync(given);
      var _, _ := context.errBoundary.Capture("UpdateUserSync", E.Returned(code), false);
    }

    /** Without a context nothing happens, and the callback is not called either. */
    method UpdateUserAsync(given: User) returns (ghost victim: Option<string>)
      modifies Reach(), Diagnosed()`user
      ensures context == old(context)
      ensures context == null ==> View() == old(View())
      ensures context != null ==>
        && Enabled(old(View()), UpdateAsync(given, victim))
        && View() == Apply(context.World(), old(View()), UpdateAsync(given, victim))
        && context.adapter.network.diagnostics.user == given
    {
      if context == null {
        return None;
      }
      victim := context.UpdateUserAsync(given);
    }
  }
}
