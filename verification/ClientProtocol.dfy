/**
 * User updates of one context as a state machine over its store and in-memory cache, the cache files
 * and the background jobs, in which the body of an update, the start of a job, the arrival of a
 * response and the completion of a file write are the atomic steps. Jobs run in any order.
 *
 * The cache key and the full hash of a user are functions of the user; the protocol uses nothing
 * else about them.
 */
module ClientProtocol {
  import opened Wrappers
  import opened UserKeys
  import opened EvaluationStore
  import opened MemoryCache
  import opened NetworkService
  import opened DataAdapter

  /** The SDK key and the options of a context, and the functions that all contexts share. */
  datatype Env = Env(
    sdkKey: string,
    keyFor: (string, User) -> string,
    hash: User -> string,
    parse: Parser,
    environment: Option<Environment>)
  {
    /** The cache entry of the user. */
    function key(user: User): string {
      keyFor(sdkKey, user)
    }
  }

  predicate Equal(env: Env, a: User, b: User) {
    env.hash(a) == env.hash(b)
  }

  /** `call` is the callback of an asynchronous update; the refresh after a synchronous one has none. */
  datatype Job =
    | SyncRefresh(current: Option<AdapterResult>)
    | AsyncRefresh(initiator: User, current: Option<AdapterResult>, call: nat)
    | Fetching(user: User, current: Option<AdapterResult>, callback: Option<nat>)
    | Writing(user: User, latest: AdapterResult, callback: Option<nat>)

  function CallOf(job: Job): Option<nat> {
    match job
    case SyncRefresh(_) => None
    case AsyncRefresh(_, _, call) => Some(call)
    case Fetching(_, _, callback) => callback
    case Writing(_, _, callback) => callback
  }

  /**
   * The last four fields are history: the user of the adapter call whose result is in the store, how
   * often each callback was invoked, the calls whose owner had gone when they were due, and every
   * update that the server has ever sent, with the user it was sent for.
   */
  datatype Client = Client(
    user: User,
    store: Store,
    memory: MemoryCache.Cache,
    files: Files,
    jobs: map<nat, Job>,
    nextJob: nat,
    origin: Option<User>,
    invoked: seq<nat>,
    lost: set<nat>,
    served: set<(User, string)>)

  /**
   * `victim` is the entry evicted if the memory cache is full; `alive` says whether the objects
   * that the callback locks still exist; `now` is the clock.
   */
  datatype Step =
    | UpdateSync(user: User, victim: Option<string>)
    | UpdateAsync(user: User, victim: Option<string>)
    | RunJob(job: nat, victim: Option<string>, alive: bool)
    | Respond(job: nat, response: Response, now: Timestamp, victim: Option<string>, deleted: set<string>,
              networkAlive: bool, adapterAlive: bool, alive: bool)
    | Written(job: nat, alive: bool)

  predicate Enabled(s: Client, step: Step) {
    match step
    case UpdateSync(_, victim) => Victim(s.memory, victim)
    case UpdateAsync(_, victim) => Victim(s.memory, victim)
    case RunJob(j, victim, _) => j in s.jobs && (s.jobs[j].SyncRefresh? || s.jobs[j].AsyncRefresh?) && Victim(s.memory, victim)
    case Respond(j, _, _, victim, _, _, _, _) => j in s.jobs && s.jobs[j].Fetching? && Victim(s.memory, victim)
    case Written(j, _) => j in s.jobs && s.jobs[j].Writing?
  }

  function AddJob(s: Client, job: Job): Client {
    s.(jobs := s.jobs[s.nextJob := job], nextJob := s.nextJob + 1)
  }

  function DropJob(s: Client, j: nat): Client {
    s.(jobs := s.jobs - {j})
  }

  /** What both kinds of update do first: normalise, reset, and show what is cached. */
  function BeginUpdate(env: Env, s: Client, given: User, victim: Option<string>): Client {
    var user := NormalizeUser(given, env.environment);
    var outcome := SyncOutcome(s.memory, s.files, env.key(user));
    var shown := if outcome.code == Ok then WithResult(LOADING_STORE, env.parse, outcome.value) else LOADING_STORE;
    s.(user := user,
       memory := SyncMemory(s.memory, s.files, env.key(user), victim),
       store := shown,
       origin := if shown.values.Some? then Some(user) else None)
  }

  /** The result that an update passes on to its background job. */
  function CachedResult(env: Env, s: Client, given: User): Option<AdapterResult> {
    SyncOutcome(s.memory, s.files, env.key(NormalizeUser(given, env.environment))).value
  }

  predicate Parses(env: Env, result: Option<AdapterResult>) {
    result.Some? && env.parse(result.value.data).Some?
  }

  /** A result that fits is shown; `Finalize` and the user's callback follow in any case. */
  function CalledBack(env: Env, s: Client, initiator: User, call: nat, outcome: Outcome, fits: bool): Client {
    s.(store := Finalized(if fits then WithResult(s.store, env.parse, outcome.value) else s.store),
       origin := if fits && Parses(env, outcome.value) then Some(initiator) else s.origin,
       invoked := if call < |s.invoked| then s.invoked[call := s.invoked[call] + 1] else s.invoked)
  }

  /** The callback of an asynchronous update, with the stale-result guard. */
  function Complete(env: Env, s: Client, initiator: User, callback: Option<nat>, outcome: Outcome, alive: bool): Client {
    if callback.None? then s
    else if !alive then s.(lost := s.lost + {callback.value})
    else CalledBack(env, s, initiator, callback.value, outcome, outcome.code == Ok && Equal(env, initiator, s.user))
  }

  function UpdateSyncStep(env: Env, s: Client, given: User, victim: Option<string>): Client {
    var t := BeginUpdate(env, s, given, victim);
    AddJob(t.(store := Finalized(t.store)), SyncRefresh(CachedResult(env, s, given)))
  }

  function UpdateAsyncStep(env: Env, s: Client, given: User, victim: Option<string>): Client {
    var t := BeginUpdate(env, s, given, victim);
    AddJob(t.(invoked := s.invoked + [0]), AsyncRefresh(t.user, CachedResult(env, s, given), |s.invoked|))
  }

  /** The pool runs the job: it looks for a current value once more and sends the request. */
  function RunJobStep(env: Env, s: Client, j: nat, victim: Option<string>, alive: bool): Client
    requires j in s.jobs && (s.jobs[j].SyncRefresh? || s.jobs[j].AsyncRefresh?)
  {
    var job := s.jobs[j];
    var t := DropJob(s, j);
    if !alive then t.(lost := if CallOf(job).Some? then s.lost + {CallOf(job).value} else s.lost)
    else
      // the refresh after a synchronous update is made for the user of the moment
      var user := if job.AsyncRefresh? then job.initiator else s.user;
      var given := job.current;
      var key := env.key(user);
      if given.Some? then AddJob(t, Fetching(user, given, CallOf(job)))
      else AddJob(t.(memory := SyncMemory(s.memory, s.files, key, victim)),
                  Fetching(user, SyncOutcome(s.memory, s.files, key).value, CallOf(job)))
  }

  /** The outcome that `FetchLatest` reports for the response. */
  function LatestOf(env: Env, s: Client, step: Step): Outcome
    requires step.Respond? && step.job in s.jobs && s.jobs[step.job].Fetching?
  {
    var job := s.jobs[step.job];
    LatestFrom(env.parse, env.hash(job.user), job.current, step.response, step.now)
  }

  /** The request of job `j` is over; an update that the server sent goes on record. */
  function Record(s: Client, j: nat, latest: Option<AdapterResult>): Client
    requires j in s.jobs && s.jobs[j].Fetching?
  {
    DropJob(s, j).(served :=
      if latest.Some? && latest.value.source == Network
      then s.served + {(s.jobs[j].user, latest.value.data)} else s.served)
  }

  function Answered(env: Env, s: Client, step: Step): Client
    requires step.Respond? && step.job in s.jobs && s.jobs[step.job].Fetching?
  {
    Record(s, step.job, LatestOf(env, s, step).value)
  }

  /** A result goes into memory; an update from the network also goes to a file, after an eviction. */
  function KeepLatest(env: Env, s: Client, job: Job, latest: AdapterResult, victim: Option<string>,
                      deleted: set<string>, alive: bool): Client
    requires job.Fetching?
  {
    var kept := s.(memory := Added(s.memory, env.key(job.user), latest, victim));
    if latest.source == Network
    then AddJob(kept.(files := s.files - deleted), Writing(job.user, latest, job.callback))
    else Complete(env, kept, job.user, job.callback, Outcome(Ok, Some(latest)), alive)
  }

  /** The adapter's callback for a finished request. */
  function Conclude(env: Env, s: Client, job: Job, latest: Outcome, victim: Option<string>,
                    deleted: set<string>, adapterAlive: bool, alive: bool): Client
    requires job.Fetching?
  {
    if !adapterAlive then Complete(env, s, job.user, job.callback, Outcome(SharedPointerLost, None), alive)
    else if latest.value.None? then Complete(env, s, job.user, job.callback, latest, alive)
    else KeepLatest(env, s, job, latest.value.value, victim, deleted, alive)
  }

  function RespondStep(env: Env, s: Client, step: Step): Client
    requires step.Respond? && step.job in s.jobs && s.jobs[step.job].Fetching?
  {
    var job := s.jobs[step.job];
    if !step.networkAlive then
      DropJob(s, step.job).(lost := if job.callback.Some? then s.lost + {job.callback.value} else s.lost)
    else
      Conclude(env, Answered(env, s, step), job, LatestOf(env, s, step), step.victim, step.deleted, step.adapterAlive, step.alive)
  }

  /** What the end of a request hands to the callback at once; new values are written to a file first. */
  function Concluded(latest: Outcome, adapterAlive: bool): Option<Outcome> {
    if !adapterAlive then Some(Outcome(SharedPointerLost, None))
    else if latest.value.None? then Some(latest)
    else if latest.value.value.source == Network then None
    else Some(Outcome(Ok, latest.value))
  }

  /** What the step hands to the callback of its job, if it gets that far. */
  function ResultOf(env: Env, s: Client, step: Step): Option<Outcome>
    requires Enabled(s, step)
  {
    match step
    case Respond(_, _, _, _, _, networkAlive, adapterAlive, _) =>
      if networkAlive then Concluded(LatestOf(env, s, step), adapterAlive) else None
    case Written(j, _) => Some(Outcome(Ok, Some(s.jobs[j].latest)))
    case _ => None
  }

  function WrittenStep(env: Env, s: Client, j: nat, alive: bool): Client
    requires j in s.jobs && s.jobs[j].Writing?
  {
    var job := s.jobs[j];
    var t := DropJob(s, j).(files := s.files[env.key(job.user) := Stored(job.latest)]);
    Complete(env, t, job.user, job.callback, Outcome(Ok, Some(job.latest)), alive)
  }

  function Apply(env: Env, s: Client, step: Step): Client
    requires Enabled(s, step)
  {
    match step
    case UpdateSync(user, victim) => UpdateSyncStep(env, s, user, victim)
    case UpdateAsync(user, victim) => UpdateAsyncStep(env, s, user, victim)
    case RunJob(j, victim, alive) => RunJobStep(env, s, j, victim, alive)
    case Respond(_, _, _, _, _, _, _, _) => RespondStep(env, s, step)
    case Written(j, alive) => WrittenStep(env, s, j, alive)
  }
}
