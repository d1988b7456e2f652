/** One asynchronous update from the call to the cache file, and what later updates then show. */
module ClientScenario {
  import opened Wrappers
  import opened UserKeys
  import opened EvaluationStore
  import opened MemoryCache
  import opened NetworkService
  import opened DataAdapter
  import opened ClientProtocol
  import opened ClientTheorems

  /** The steps of one update that the server answers with new values, nothing else in between. */
  datatype Scenario = Scenario(given: User, text: string, now: Timestamp, deleted: set<string>,
                               first: Option<string>, second: Option<string>, third: Option<string>)

  /** The states around these steps. */
  datatype Run = Run(start: Client, begun: Client, requested: Client, answered: Client, written: Client)

  ghost predicate IsScenario(env: Env, s: Run, c: Scenario) {
    && s.start.nextJob !in s.start.jobs
    && (forall j :: j in s.start.jobs ==> j < s.start.nextJob)
    && env.parse(c.text).Some? && env.parse(c.text).value.hasUpdates
    && Does(env, s.start, UpdateAsync(c.given, c.first), s.begun)
    && Does(env, s.begun, RunJob(s.start.nextJob, c.second, true), s.requested)
    && Does(env, s.requested, Respond(s.begun.nextJob, Response(200, c.text), c.now, c.third, c.deleted, true, true, true), s.answered)
    && Does(env, s.answered, Written(s.requested.nextJob, true), s.written)
  }

  ghost predicate Does(env: Env, s: Client, step: Step, t: Client) {
    Enabled(s, step) && t == Apply(env, s, step)
  }

  function UserOf(env: Env, c: Scenario): User {
    NormalizeUser(c.given, env.environment)
  }

  function Fetched(env: Env, c: Scenario): AdapterResult {
    AdapterResult(Network, c.text, c.now, env.hash(UserOf(env, c)))
  }

  lemma AfterRun(env: Env, s: Run, c: Scenario)
    requires IsScenario(env, s, c)
    ensures s.begun.nextJob == s.start.nextJob + 1 && s.requested.nextJob == s.start.nextJob + 2
    ensures s.requested.user == UserOf(env, c) && s.requested.invoked == s.start.invoked + [0]
    ensures s.begun.nextJob in s.requested.jobs && s.requested.jobs[s.begun.nextJob].Fetching?
    ensures s.requested.jobs[s.begun.nextJob].user == UserOf(env, c)
    ensures s.requested.jobs[s.begun.nextJob].callback == Some(|s.start.invoked|)
    ensures s.requested.files == s.start.files
  {
    assert s.begun.jobs[s.start.nextJob].AsyncRefresh?;
  }

  lemma AfterResponse(env: Env, s: Run, c: Scenario)
    requires IsScenario(env, s, c)
    ensures s.requested.nextJob in s.answered.jobs
    ensures s.answered.jobs[s.requested.nextJob] == Writing(UserOf(env, c), Fetched(env, c), Some(|s.start.invoked|))
    ensures s.answered.user == UserOf(env, c) && s.answered.invoked == s.start.invoked + [0]
    ensures s.answered.files == s.start.files - c.deleted
    ensures s.answered.memory == Added(s.requested.memory, env.key(UserOf(env, c)), Fetched(env, c), c.third)
  {
    AfterRun(env, s, c);
    var job := s.requested.jobs[s.begun.nextJob];
    assert LatestFrom(env.parse, env.hash(job.user), job.current, Response(200, c.text), c.now)
      == Outcome(Ok, Some(Fetched(env, c)));
  }

  lemma Begin(env: Env, s: Client, given: User) returns (t: Client, victim: Option<string>)
    requires forall j :: j in s.jobs ==> j < s.nextJob
    ensures Does(env, s, UpdateAsync(given, victim), t)
    ensures t.nextJob == s.nextJob + 1 && s.nextJob in t.jobs && t.jobs[s.nextJob].AsyncRefresh?
  {
    victim := AnyVictim(s.memory);
    t := Apply(env, s, UpdateAsync(given, victim));
  }

  lemma Request(env: Env, s: Client, j: nat) returns (t: Client, victim: Option<string>)
    requires j in s.jobs && s.jobs[j].AsyncRefresh?
    ensures Does(env, s, RunJob(j, victim, true), t)
    ensures s.nextJob in t.jobs && t.jobs[s.nextJob].Fetching?
  {
    victim := AnyVictim(s.memory);
    t := Apply(env, s, RunJob(j, victim, true));
  }

  lemma Answer(env: Env, s: Client, j: nat, text: string, now: Timestamp, deleted: set<string>)
    returns (t: Client, victim: Option<string>)
    requires j in s.jobs && s.jobs[j].Fetching? && env.parse(text).Some? && env.parse(text).value.hasUpdates
    ensures Does(env, s, Respond(j, Response(200, text), now, victim, deleted, true, true, true), t)
    ensures s.nextJob in t.jobs && t.jobs[s.nextJob].Writing?
  {
    victim := AnyVictim(s.memory);
    assert LatestFrom(env.parse, env.hash(s.jobs[j].user), s.jobs[j].current, Response(200, text), now).value.Some?;
    t := Apply(env, s, Respond(j, Response(200, text), now, victim, deleted, true, true, true));
  }

  lemma Write(env: Env, s: Client, j: nat) returns (t: Client)
    requires j in s.jobs && s.jobs[j].Writing?
    ensures Does(env, s, Written(j, true), t)
  {
    t := Apply(env, s, Written(j, true));
  }

  /** Every state with fresh job numbers has such a scenario, for every user, answer and time. */
  lemma ScenarioExists(env: Env, start: Client, given: User, text: string, now: Timestamp, deleted: set<string>)
    returns (s: Run, c: Scenario)
    requires forall j :: j in start.jobs ==> j < start.nextJob
    requires env.parse(text).Some? && env.parse(text).value.hasUpdates
    ensures IsScenario(env, s, c) && s.start == start
    ensures c.given == given && c.text == text && c.now == now && c.deleted == deleted
  {
    var s1, v0 := Begin(env, start, given);
    var s2, v1 := Request(env, s1, start.nextJob);
    var s3, v2 := Answer(env, s2, s1.nextJob, text, now, deleted);
    var s4 := Write(env, s3, s2.nextJob);
    s, c := Run(start, s1, s2, s3, s4), Scenario(given, text, now, deleted, v0, v1, v2);
  }

  /**
   * The values are shown to the user who asked, the callback has run once, and the file under the
   * user's key holds what the server sent.
   */
  lemma UpdateShowsAndKeeps(env: Env, s: Run, c: Scenario)
    requires IsScenario(env, s, c)
    ensures var values := env.parse(c.text).value;
      s.written.store == Store(Some(values), Network, values.time, c.now)
    ensures s.written.invoked == s.start.invoked + [1]
    ensures env.key(UserOf(env, c)) in s.written.files
    ensures s.written.files[env.key(UserOf(env, c))] == Stored(Fetched(env, c))
    ensures s.written.files == (s.start.files - c.deleted)[env.key(UserOf(env, c)) := Stored(Fetched(env, c))]
    ensures s.written.memory == s.answered.memory
  {
    AfterResponse(env, s, c);
    WhenWritten(env, s.answered, s.requested.nextJob, |s.start.invoked|);
    assert s.written.invoked == s.start.invoked + [1];
  }

  /** The end of a file write for the current user shows the written result and calls back. */
  lemma WhenWritten(env: Env, t: Client, j: nat, call: nat)
    requires j in t.jobs && t.jobs[j].Writing? && t.jobs[j].user == t.user && t.jobs[j].callback == Some(call)
    requires env.parse(t.jobs[j].latest.data).Some? && call < |t.invoked|
    ensures var u := Apply(env, t, Written(j, true));
      var latest := t.jobs[j].latest;
      var values := env.parse(latest.data).value;
      && u.store == Store(Some(values), latest.source, values.time, latest.receivedAt)
      && u.invoked == t.invoked[call := t.invoked[call] + 1]
      && u.files == t.files[env.key(t.user) := Stored(latest)] && u.memory == t.memory
  {
  }

  /** A new session with these files shows the same values at once, now as cached ones. */
  lemma NextSessionShowsCached(env: Env, s: Run, c: Scenario, session: Client, victim: Option<string>)
    requires IsScenario(env, s, c)
    requires session.memory == map[] && session.files == s.written.files && Enabled(session, UpdateSync(c.given, victim))
    ensures var values := env.parse(c.text).value;
      Apply(env, session, UpdateSync(c.given, victim)).store == Store(Some(values), Cache, values.time, c.now)
  {
    UpdateShowsAndKeeps(env, s, c);
  }

  /**
   * Within the session a later update shows the fetched values exactly when the entry was absent, or
   * evicted, as the response arrived, or already equal: a present entry keeps its old result.
   */
  lemma SameSessionShowsFirst(env: Env, s: Run, c: Scenario, victim: Option<string>)
    requires IsScenario(env, s, c) && Enabled(s.written, UpdateSync(c.given, victim))
    ensures var key := env.key(UserOf(env, c));
      var later := Apply(env, s.written, UpdateSync(c.given, victim));
      && later.memory == s.written.memory && key in later.memory
      && (later.memory[key] == Fetched(env, c)
          <==> key !in s.requested.memory || c.third == Some(key) || s.requested.memory[key] == Fetched(env, c))
      && (key in s.requested.memory && c.third != Some(key) ==>
            later.store == Finalized(WithResult(LOADING_STORE, env.parse, Some(s.requested.memory[key]))))
  {
    UpdateShowsAndKeeps(env, s, c);
    AfterResponse(env, s, c);
  }

  /**
   * If the context is gone when the queued file write ends, the values still reach the file, but
   * nobody is called back and nothing is shown.
   */
  lemma LateWriteLosesCallback(env: Env, s: Run, c: Scenario)
    requires IsScenario(env, s, c)
    ensures Enabled(s.answered, Written(s.requested.nextJob, false))
    ensures var t := Apply(env, s.answered, Written(s.requested.nextJob, false));
      && env.key(UserOf(env, c)) in t.files && t.files[env.key(UserOf(env, c))] == Stored(Fetched(env, c))
      && t.store == s.answered.store && t.invoked == s.start.invoked + [0] && |s.start.invoked| in t.lost
  {
    AfterResponse(env, s, c);
  }

  // ---- an update that the server has nothing new for ----

  /** The user's file holds values with a time, the memory does not; the server answers with 204. */
  ghost predicate IsUnchanged(env: Env, s: Run, c: Scenario, r: AdapterResult) {
    && (forall j :: j in s.start.jobs ==> j < s.start.nextJob)
    && env.key(UserOf(env, c)) !in s.start.memory
    && env.key(UserOf(env, c)) in s.start.files && s.start.files[env.key(UserOf(env, c))] == Stored(r)
    && r.fullUserHash == env.hash(UserOf(env, c)) && env.parse(r.data).Some? && env.parse(r.data).value.hasUpdates
    && Does(env, s.start, UpdateAsync(c.given, c.first), s.begun)
    && Does(env, s.begun, RunJob(s.start.nextJob, c.second, true), s.requested)
    && Does(env, s.requested, Respond(s.begun.nextJob, Response(204, ""), c.now, c.third, c.deleted, true, true, true), s.answered)
  }

  /** The cached values are shown at once, and the request carries them, and so their time. */
  lemma UnchangedRequest(env: Env, s: Run, c: Scenario, r: AdapterResult)
    requires IsUnchanged(env, s, c, r)
    ensures var values := env.parse(r.data).value;
      && s.begun.store == Store(Some(values), Cache, values.time, r.receivedAt)
      && s.begun.nextJob in s.requested.jobs
      && s.requested.jobs[s.begun.nextJob]
         == Fetching(UserOf(env, c), Some(r.(source := Cache)), Some(|s.start.invoked|))
      && SinceTime(CacheFor204(env.parse, env.hash(UserOf(env, c)), Some(r.(source := Cache)))) == values.time
    ensures s.requested.store == s.begun.store && s.requested.invoked == s.start.invoked + [0]
    ensures s.requested.user == UserOf(env, c) && s.requested.files == s.start.files
  {
    assert s.begun.jobs[s.start.nextJob] == AsyncRefresh(UserOf(env, c), Some(r.(source := Cache)), |s.start.invoked|);
  }

  /** After the answer the same values are shown as not modified, received now; the file stays. */
  lemma UnchangedShowsSame(env: Env, s: Run, c: Scenario, r: AdapterResult)
    requires IsUnchanged(env, s, c, r)
    ensures var values := env.parse(r.data).value;
      s.answered.store == Store(Some(values), NetworkNotModified, values.time, c.now)
    ensures s.answered.invoked == s.start.invoked + [1]
    ensures s.answered.files == s.start.files
  {
    UnchangedRequest(env, s, c, r);
    WhenUnchanged(env, s.requested, s.begun.nextJob, r.(source := Cache), |s.start.invoked|, c);
    assert s.answered.invoked == s.start.invoked + [1];
  }

  lemma WhenUnchanged(env: Env, t: Client, j: nat, r: AdapterResult, call: nat, c: Scenario)
    requires j in t.jobs && t.jobs[j] == Fetching(t.user, Some(r), Some(call)) && call < |t.invoked| && Victim(t.memory, c.third)
    requires env.parse(r.data).Some?
    ensures var u := Apply(env, t, Respond(j, Response(204, ""), c.now, c.third, c.deleted, true, true, true));
      var values := env.parse(r.data).value;
      && u.store == Store(Some(values), NetworkNotModified, values.time, c.now)
      && u.invoked == t.invoked[call := t.invoked[call] + 1] && u.files == t.files
  {
    var step := Respond(j, Response(204, ""), c.now, c.third, c.deleted, true, true, true);
    UnchangedLatest(env, t, step, r);
    ShownByResponse(env, t, step);
    UnchangedFiles(env, t, step, r);
  }

  lemma UnchangedLatest(env: Env, t: Client, step: Step, r: AdapterResult)
    requires step.Respond? && Enabled(t, step) && step.response == Response(204, "")
    requires t.jobs[step.job].user == t.user && t.jobs[step.job].current == Some(r)
    ensures LatestOf(env, t, step) == Outcome(Ok, Some(AdapterResult(NetworkNotModified, r.data, step.now, env.hash(t.user))))
  {
  }

  lemma UnchangedFiles(env: Env, t: Client, step: Step, r: AdapterResult)
    requires step.Respond? && Enabled(t, step) && step.response == Response(204, "")
    requires t.jobs[step.job].user == t.user && t.jobs[step.job].current == Some(r)
    ensures RespondStep(env, t, step).files == t.files
  {
    UnchangedLatest(env, t, step, r);
    assert Answered(env, t, step).files == t.files;
  }

  // ---- the refresh after a synchronous update ----

  ghost predicate IsRefresh(env: Env, s: Run, c: Scenario) {
    && (forall j :: j in s.start.jobs ==> j < s.start.nextJob)
    && env.parse(c.text).Some? && env.parse(c.text).value.hasUpdates
    && Does(env, s.start, UpdateSync(c.given, c.first), s.begun)
    && Does(env, s.begun, RunJob(s.start.nextJob, c.second, true), s.requested)
    && Does(env, s.requested, Respond(s.begun.nextJob, Response(200, c.text), c.now, c.third, c.deleted, true, true, true), s.answered)
    && Does(env, s.answered, Written(s.requested.nextJob, true), s.written)
  }

  lemma RefreshAsked(env: Env, s: Run, c: Scenario)
    requires IsRefresh(env, s, c)
    ensures s.requested.store == s.begun.store && s.requested.invoked == s.start.invoked
    ensures s.begun.nextJob in s.requested.jobs && s.requested.jobs[s.begun.nextJob].Fetching?
    ensures s.requested.jobs[s.begun.nextJob].user == UserOf(env, c) && s.requested.jobs[s.begun.nextJob].callback.None?
  {
    assert s.begun.jobs[s.start.nextJob].SyncRefresh?;
  }

  lemma RefreshAnswered(env: Env, s: Run, c: Scenario)
    requires IsRefresh(env, s, c)
    ensures s.requested.nextJob in s.answered.jobs
    ensures s.answered.jobs[s.requested.nextJob] == Writing(UserOf(env, c), Fetched(env, c), None)
    ensures s.answered.store == s.begun.store && s.answered.invoked == s.start.invoked
  {
    RefreshAsked(env, s, c);
    var job := s.requested.jobs[s.begun.nextJob];
    assert LatestFrom(env.parse, env.hash(job.user), job.current, Response(200, c.text), c.now)
      == Outcome(Ok, Some(Fetched(env, c)));
  }

  /** What it fetches goes to the file for the next session; this session's store does not change. */
  lemma RefreshKeepsForLater(env: Env, s: Run, c: Scenario)
    requires IsRefresh(env, s, c)
    ensures s.written.store == s.begun.store && s.written.invoked == s.start.invoked
    ensures env.key(UserOf(env, c)) in s.written.files
    ensures s.written.files[env.key(UserOf(env, c))] == Stored(Fetched(env, c))
  {
    RefreshAnswered(env, s, c);
    WhenUncalledWritten(env, s.answered, s.requested.nextJob);
  }

  lemma WhenUncalledWritten(env: Env, t: Client, j: nat)
    requires j in t.jobs && t.jobs[j].Writing? && t.jobs[j].callback.None?
    ensures Apply(env, t, Written(j, true))
      == DropJob(t, j).(files := t.files[env.key(t.jobs[j].user) := Stored(t.jobs[j].latest)])
  {
  }

  // ---- these courses of events exist ----

  lemma NotModifiedAnswer(env: Env, s: Client, j: nat, now: Timestamp, deleted: set<string>) returns (t: Client, victim: Option<string>)
    requires j in s.jobs && s.jobs[j].Fetching?
    ensures Does(env, s, Respond(j, Response(204, ""), now, victim, deleted, true, true, true), t)
  {
    victim := AnyVictim(s.memory);
    t := Apply(env, s, Respond(j, Response(204, ""), now, victim, deleted, true, true, true));
  }

  lemma UnchangedExists(env: Env, start: Client, given: User, r: AdapterResult, now: Timestamp, deleted: set<string>)
    returns (s: Run, c: Scenario)
    requires forall j :: j in start.jobs ==> j < start.nextJob
    requires var user := NormalizeUser(given, env.environment);
      && env.key(user) !in start.memory && env.key(user) in start.files && start.files[env.key(user)] == Stored(r)
      && r.fullUserHash == env.hash(user) && env.parse(r.data).Some? && env.parse(r.data).value.hasUpdates
    ensures IsUnchanged(env, s, c, r) && s.start == start && c.given == given && c.now == now
  {
    var s1, v0 := Begin(env, start, given);
    var s2, v1 := Request(env, s1, start.nextJob);
    var s3, v2 := NotModifiedAnswer(env, s2, s1.nextJob, now, deleted);
    s, c := Run(start, s1, s2, s3, s3), Scenario(given, "", now, deleted, v0, v1, v2);
  }

  lemma BeginSync(env: Env, s: Client, given: User) returns (t: Client, victim: Option<string>)
    requires forall j :: j in s.jobs ==> j < s.nextJob
    ensures Does(env, s, UpdateSync(given, victim), t)
    ensures s.nextJob in t.jobs && t.jobs[s.nextJob].SyncRefresh?
  {
    victim := AnyVictim(s.memory);
    t := Apply(env, s, UpdateSync(given, victim));
  }

  lemma RequestSync(env: Env, s: Client, j: nat) returns (t: Client, victim: Option<string>)
    requires j in s.jobs && s.jobs[j].SyncRefresh?
    ensures Does(env, s, RunJob(j, victim, true), t)
    ensures s.nextJob in t.jobs && t.jobs[s.nextJob].Fetching?
  {
    victim := AnyVictim(s.memory);
    t := Apply(env, s, RunJob(j, victim, true));
  }

  lemma RefreshExists(env: Env, start: Client, given: User, text: string, now: Timestamp, deleted: set<string>)
    returns (s: Run, c: Scenario)
    requires forall j :: j in start.jobs ==> j < start.nextJob
    requires env.parse(text).Some? && env.parse(text).value.hasUpdates
    ensures IsRefresh(env, s, c) && s.start == start && c.given == given && c.text == text && c.now == now
  {
    var s1, v0 := BeginSync(env, start, given);
    var s2, v1 := RequestSync(env, s1, start.nextJob);
    var s3, v2 := Answer(env, s2, s1.nextJob, text, now, deleted);
    var s4 := Write(env, s3, s2.nextJob);
    s, c := Run(start, s1, s2, s3, s4), Scenario(given, text, now, deleted, v0, v1, v2);
  }
}
