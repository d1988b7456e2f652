/** What every step of a context keeps: callbacks, the store, and where its values come from. */
module ClientTheorems {
  import opened Wrappers
  import opened UserKeys
  import opened EvaluationStore
  import opened MemoryCache
  import opened NetworkService
  import opened DataAdapter
  import opened ClientProtocol

  // ---- callbacks ----

  /** Every call so far is answered once, or lost, or waiting in exactly one job. */
  ghost predicate Calls(s: Client) {
    && (forall j :: j in s.jobs ==> j < s.nextJob)
    && (forall c :: 0 <= c < |s.invoked| ==> s.invoked[c] <= 1)
    && (forall c :: c in s.lost ==> c < |s.invoked| && s.invoked[c] == 0)
    && (forall j :: j in s.jobs && CallOf(s.jobs[j]).Some? ==> Waiting(s, CallOf(s.jobs[j]).value))
    && (forall i, j :: i in s.jobs && j in s.jobs && i != j && CallOf(s.jobs[i]).Some? ==>
          CallOf(s.jobs[i]) != CallOf(s.jobs[j]))
    && (forall c :: 0 <= c < |s.invoked| ==> s.invoked[c] == 1 || c in s.lost || HasJob(s, c))
  }

  predicate Waiting(s: Client, c: nat) {
    c < |s.invoked| && s.invoked[c] == 0 && c !in s.lost
  }

  ghost predicate HasJob(s: Client, c: nat) {
    exists j :: j in s.jobs && CallOf(s.jobs[j]) == Some(c)
  }

  /** `t` has settled call `c` by invoking it or losing it, and kept all other calls. */
  ghost predicate Settles(s: Client, t: Client, c: nat) {
    && c < |s.invoked|
    && ((t.invoked == s.invoked[c := 1] && t.lost == s.lost) || (t.invoked == s.invoked && t.lost == s.lost + {c}))
  }

  /** Job `j` ends; its call, if it has one, is settled. */
  lemma CallsEnd(s: Client, t: Client, j: nat)
    requires Calls(s) && j in s.jobs
    requires t.jobs == s.jobs - {j} && t.nextJob == s.nextJob
    requires if CallOf(s.jobs[j]).Some? then Settles(s, t, CallOf(s.jobs[j]).value)
             else t.invoked == s.invoked && t.lost == s.lost
    ensures Calls(t)
  {
    forall c | 0 <= c < |t.invoked| ensures t.invoked[c] == 1 || c in t.lost || HasJob(t, c) {
      if HasJob(s, c) {
        var i :| i in s.jobs && CallOf(s.jobs[i]) == Some(c);
        if i != j { assert i in t.jobs; }
      }
    }
  }

  /** Job `j` is replaced by a job with the same call. */
  lemma CallsContinue(s: Client, t: Client, j: nat, next: Job)
    requires Calls(s) && j in s.jobs && CallOf(next) == CallOf(s.jobs[j])
    requires t.jobs == (s.jobs - {j})[s.nextJob := next] && t.nextJob == s.nextJob + 1
    requires t.invoked == s.invoked && t.lost == s.lost
    ensures Calls(t)
  {
    forall c | 0 <= c < |t.invoked| ensures t.invoked[c] == 1 || c in t.lost || HasJob(t, c) {
      if HasJob(s, c) {
        var i :| i in s.jobs && CallOf(s.jobs[i]) == Some(c);
        assert if i == j then s.nextJob in t.jobs else i in t.jobs;
      }
    }
  }

  /** An update adds a job, and a new call if it is asynchronous. */
  lemma CallsBegin(s: Client, t: Client, job: Job)
    requires Calls(s)
    requires t.jobs == s.jobs[s.nextJob := job] && t.nextJob == s.nextJob + 1 && t.lost == s.lost
    requires if CallOf(job).Some? then CallOf(job).value == |s.invoked| && t.invoked == s.invoked + [0]
             else t.invoked == s.invoked
    ensures Calls(t)
  {
    forall c | 0 <= c < |t.invoked| ensures t.invoked[c] == 1 || c in t.lost || HasJob(t, c) {
      if c == |s.invoked| {
        assert s.nextJob in t.jobs;
      } else if HasJob(s, c) {
        var i :| i in s.jobs && CallOf(s.jobs[i]) == Some(c);
        assert i in t.jobs;
      }
    }
  }

  lemma CompleteSettles(env: Env, s: Client, t: Client, j: nat, initiator: User, outcome: Outcome, alive: bool)
    requires Calls(s) && j in s.jobs
    requires t.jobs == s.jobs - {j} && t.nextJob == s.nextJob && t.invoked == s.invoked && t.lost == s.lost
    ensures Calls(Complete(env, t, initiator, CallOf(s.jobs[j]), outcome, alive))
  {
    CallsEnd(s, Complete(env, t, initiator, CallOf(s.jobs[j]), outcome, alive), j);
  }

  lemma CallsStep(env: Env, s: Client, step: Step)
    requires Calls(s) && Enabled(s, step)
    ensures Calls(Apply(env, s, step))
  {
    var t := Apply(env, s, step);
    match step {
      case UpdateSync(user, victim) => CallsBegin(s, t, SyncRefresh(CachedResult(env, s, user)));
      case UpdateAsync(user, victim) =>
        CallsBegin(s, t, AsyncRefresh(NormalizeUser(user, env.environment), CachedResult(env, s, user), |s.invoked|));
      case RunJob(j, _, alive) => CallsRun(env, s, step);
      case Respond(j, _, _, _, _, _, _, _) => CallsRespond(env, s, step);
      case Written(j, alive) =>
        var u := DropJob(s, j).(files := s.files[env.key(s.jobs[j].user) := Stored(s.jobs[j].latest)]);
        CompleteSettles(env, s, u, j, s.jobs[j].user, Outcome(Ok, Some(s.jobs[j].latest)), alive);
    }
  }

  /** Running a job ends it or turns it into a request. */
  lemma RunJobs(env: Env, s: Client, step: Step)
    requires step.RunJob? && Enabled(s, step)
    ensures var t := RunJobStep(env, s, step.job, step.victim, step.alive).jobs;
      || t == s.jobs - {step.job}
      || (s.nextJob in t && t[s.nextJob].Fetching?
          && CallOf(t[s.nextJob]) == CallOf(s.jobs[step.job]) && t == (s.jobs - {step.job})[s.nextJob := t[s.nextJob]])
  {
  }

  lemma CallsRun(env: Env, s: Client, step: Step)
    requires Calls(s) && step.RunJob? && Enabled(s, step)
    ensures Calls(RunJobStep(env, s, step.job, step.victim, step.alive))
  {
    var t := RunJobStep(env, s, step.job, step.victim, step.alive);
    RunJobs(env, s, step);
    if step.alive {
      CallsContinue(s, t, step.job, t.jobs[s.nextJob]);
    } else {
      CallsEnd(s, t, step.job);
    }
  }

  lemma CallsKeep(env: Env, s: Client, t: Client, latest: AdapterResult, step: Step)
    requires Calls(s) && step.Respond? && Enabled(s, step)
    requires t.jobs == s.jobs - {step.job} && t.nextJob == s.nextJob && t.invoked == s.invoked && t.lost == s.lost
    ensures Calls(KeepLatest(env, t, s.jobs[step.job], latest, step.victim, step.deleted, step.alive))
  {
    var job := s.jobs[step.job];
    var kept := t.(memory := Added(t.memory, env.key(job.user), latest, step.victim));
    if latest.source == Network {
      CallsContinue(s, KeepLatest(env, t, job, latest, step.victim, step.deleted, step.alive), step.job, Writing(job.user, latest, job.callback));
    } else {
      CompleteSettles(env, s, kept, step.job, job.user, Outcome(Ok, Some(latest)), step.alive);
    }
  }

  lemma CallsRespond(env: Env, s: Client, step: Step)
    requires Calls(s) && step.Respond? && Enabled(s, step)
    ensures Calls(RespondStep(env, s, step))
  {
    var job, latest, t := s.jobs[step.job], LatestOf(env, s, step), Answered(env, s, step);
    if !step.networkAlive {
      CallsEnd(s, RespondStep(env, s, step), step.job);
    } else if !step.adapterAlive {
      CompleteSettles(env, s, t, step.job, job.user, Outcome(SharedPointerLost, None), step.alive);
    } else if latest.value.None? {
      CompleteSettles(env, s, t, step.job, job.user, latest, step.alive);
    } else {
      CallsKeep(env, s, t, latest.value.value, step);
    }
  }

  // ---- the store ----

  predicate FromAdapter(source: ValueSource) {
    source == Cache || source == Network || source == NetworkNotModified
  }

  /** No result held anywhere carries one of the sources that mean "no values". */
  predicate Sourced(s: Client) {
    && (forall k :: k in s.memory ==> FromAdapter(s.memory[k].source))
    && (forall j :: j in s.jobs ==> JobSourced(s.jobs[j]))
  }

  predicate JobSourced(job: Job) {
    match job
    case SyncRefresh(current) => current.Some? ==> FromAdapter(current.value.source)
    case AsyncRefresh(_, current, _) => current.Some? ==> FromAdapter(current.value.source)
    case Fetching(_, current, _) => current.Some? ==> FromAdapter(current.value.source)
    case Writing(_, latest, _) => FromAdapter(latest.source)
  }

  /** Values are shown only with the user they were requested for, and that user equals the current one. */
  predicate Fresh(env: Env, s: Client) {
    s.store.values.Some? ==> s.origin.Some? && Equal(env, s.origin.value, s.user)
  }

  predicate StoreInv(env: Env, s: Client) {
    Coherent(s.store) && Sourced(s) && Fresh(env, s)
  }

  lemma StoreComplete(env: Env, s: Client, initiator: User, callback: Option<nat>, outcome: Outcome, alive: bool)
    requires StoreInv(env, s)
    requires outcome.value.Some? ==> FromAdapter(outcome.value.value.source)
    ensures StoreInv(env, Complete(env, s, initiator, callback, outcome, alive))
    ensures callback.Some? && alive ==>
      Complete(env, s, initiator, callback, outcome, alive).store.source != Loading
  {
  }

  lemma SyncSourced(s: Client, key: string, victim: Option<string>)
    requires Sourced(s)
    ensures SyncOutcome(s.memory, s.files, key).value.Some? ==>
      FromAdapter(SyncOutcome(s.memory, s.files, key).value.value.source)
    ensures Sourced(s.(memory := SyncMemory(s.memory, s.files, key, victim)))
  {
  }

  lemma StoreBegin(env: Env, s: Client, given: User, victim: Option<string>)
    requires StoreInv(env, s)
    ensures StoreInv(env, BeginUpdate(env, s, given, victim))
    ensures CachedResult(env, s, given).Some? ==> FromAdapter(CachedResult(env, s, given).value.source)
  {
    SyncSourced(s, env.key(NormalizeUser(given, env.environment)), victim);
  }

  lemma StoreUpdate(env: Env, s: Client, given: User, victim: Option<string>)
    requires StoreInv(env, s)
    ensures StoreInv(env, UpdateSyncStep(env, s, given, victim))
    ensures StoreInv(env, UpdateAsyncStep(env, s, given, victim))
  {
    StoreBegin(env, s, given, victim);
  }

  lemma StoreConclude(env: Env, s: Client, job: Job, latest: Outcome, victim: Option<string>,
                      deleted: set<string>, adapterAlive: bool, alive: bool)
    requires StoreInv(env, s) && job.Fetching?
    requires latest.value.Some? ==> latest.code == Ok && FromAdapter(latest.value.value.source)
    ensures StoreInv(env, Conclude(env, s, job, latest, victim, deleted, adapterAlive, alive))
    ensures var t := Conclude(env, s, job, latest, victim, deleted, adapterAlive, alive);
      t.invoked != s.invoked ==> t.store.source != Loading
  {
    if !adapterAlive {
      StoreComplete(env, s, job.user, job.callback, Outcome(SharedPointerLost, None), alive);
    } else if latest.value.None? {
      StoreComplete(env, s, job.user, job.callback, latest, alive);
    } else {
      var kept := s.(memory := Added(s.memory, env.key(job.user), latest.value.value, victim));
      assert StoreInv(env, kept);
      StoreComplete(env, kept, job.user, job.callback, Outcome(Ok, Some(latest.value.value)), alive);
    }
  }

  lemma StoreRespond(env: Env, s: Client, step: Step)
    requires StoreInv(env, s) && step.Respond? && Enabled(s, step)
    ensures StoreInv(env, RespondStep(env, s, step))
    ensures RespondStep(env, s, step).invoked != s.invoked ==> RespondStep(env, s, step).store.source != Loading
  {
    var job, latest, t := s.jobs[step.job], LatestOf(env, s, step), Answered(env, s, step);
    assert StoreInv(env, t);
    StoreConclude(env, t, job, latest, step.victim, step.deleted, step.adapterAlive, step.alive);
  }

  lemma StoreAddJob(env: Env, s: Client, job: Job)
    requires StoreInv(env, s) && JobSourced(job)
    ensures StoreInv(env, AddJob(s, job))
  {
  }

  lemma StoreDropJob(env: Env, s: Client, j: nat)
    requires StoreInv(env, s)
    ensures StoreInv(env, DropJob(s, j))
  {
  }

  lemma StoreRun(env: Env, s: Client, step: Step)
    requires StoreInv(env, s) && step.RunJob? && Enabled(s, step)
    ensures StoreInv(env, RunJobStep(env, s, step.job, step.victim, step.alive))
  {
    var job, t := s.jobs[step.job], DropJob(s, step.job);
    StoreDropJob(env, s, step.job);
    if step.alive {
      var user := if job.AsyncRefresh? then job.initiator else s.user;
      SyncSourced(t, env.key(user), step.victim);
      var current := if job.current.Some? then job.current else SyncOutcome(s.memory, s.files, env.key(user)).value;
      var kept := if job.current.Some? then t else t.(memory := SyncMemory(s.memory, s.files, env.key(user), step.victim));
      StoreAddJob(env, kept, Fetching(user, current, CallOf(job)));
    }
  }

  lemma StoreWritten(env: Env, s: Client, j: nat, alive: bool)
    requires StoreInv(env, s) && Enabled(s, Written(j, alive))
    ensures StoreInv(env, WrittenStep(env, s, j, alive))
  {
    var t := DropJob(s, j).(files := s.files[env.key(s.jobs[j].user) := Stored(s.jobs[j].latest)]);
    StoreComplete(env, t, s.jobs[j].user, s.jobs[j].callback, Outcome(Ok, Some(s.jobs[j].latest)), alive);
  }

  lemma StoreStep(env: Env, s: Client, step: Step)
    requires StoreInv(env, s) && Enabled(s, step)
    ensures StoreInv(env, Apply(env, s, step))
  {
    match step {
      case UpdateSync(user, victim) => StoreUpdate(env, s, user, victim);
      case UpdateAsync(user, victim) => StoreUpdate(env, s, user, victim);
      case RunJob(_, _, _) => StoreRun(env, s, step);
      case Respond(_, _, _, _, _, _, _, _) => StoreRespond(env, s, step);
      case Written(j, alive) => StoreWritten(env, s, j, alive);
    }
  }

  // ---- where the values come from ----

  /** The server sent this data for a user with this full hash. */
  ghost predicate Authentic(env: Env, served: set<(User, string)>, r: AdapterResult) {
    exists u :: (u, r.data) in served && env.hash(u) == r.fullUserHash
  }

  /** Some user has this full hash and, under some SDK key, reads the entry with this key. */
  ghost predicate Owner(env: Env, key: string, hash: string) {
    exists k, u :: env.keyFor(k, u) == key && env.hash(u) == hash
  }

  ghost predicate Keyed(env: Env, served: set<(User, string)>, key: string, r: AdapterResult) {
    Authentic(env, served, r) && Owner(env, key, r.fullUserHash)
  }

  ghost predicate JobAuthentic(env: Env, served: set<(User, string)>, job: Job) {
    match job
    case SyncRefresh(current) => current.Some? ==> Authentic(env, served, current.value)
    case AsyncRefresh(_, current, _) => current.Some? ==> Authentic(env, served, current.value)
    case Fetching(_, current, _) => current.Some? ==> Authentic(env, served, current.value)
    case Writing(user, latest, _) => Authentic(env, served, latest) && latest.fullUserHash == env.hash(user)
  }

  /** The values were sent for a user with the full hash of `user`, or for one who shares its cache entry. */
  ghost predicate Shown(env: Env, served: set<(User, string)>, values: InitializeResponse, user: User) {
    exists r: AdapterResult ::
      && Authentic(env, served, r)
      && env.parse(r.data) == Some(values)
      && (r.fullUserHash == env.hash(user) || Owner(env, env.key(user), r.fullUserHash))
  }

  ghost predicate FilesAuthentic(env: Env, served: set<(User, string)>, files: Files) {
    forall k :: k in files && files[k].Stored? ==> Keyed(env, served, k, files[k].result)
  }

  ghost predicate Provenance(env: Env, s: Client) {
    && (forall k :: k in s.memory ==> Keyed(env, s.served, k, s.memory[k]))
    && FilesAuthentic(env, s.served, s.files)
    && (forall j :: j in s.jobs ==> JobAuthentic(env, s.served, s.jobs[j]))
    && (s.store.values.Some? ==> Shown(env, s.served, s.store.values.value, s.user))
  }

  lemma AuthenticGrows(env: Env, a: set<(User, string)>, b: set<(User, string)>, r: AdapterResult)
    requires a <= b && Authentic(env, a, r)
    ensures Authentic(env, b, r)
  {
  }

  /** What is on record can only make more results authentic. */
  lemma ProvenanceGrows(env: Env, s: Client, served: set<(User, string)>)
    requires Provenance(env, s) && s.served <= served
    ensures Provenance(env, s.(served := served))
  {
    var t := s.(served := served);
    forall k | k in t.memory ensures Keyed(env, served, k, t.memory[k]) {
      AuthenticGrows(env, s.served, served, s.memory[k]);
    }
    forall k | k in t.files && t.files[k].Stored? ensures Keyed(env, served, k, t.files[k].result) {
      AuthenticGrows(env, s.served, served, s.files[k].result);
    }
    forall j | j in t.jobs ensures JobAuthentic(env, served, t.jobs[j]) {
      JobAuthenticGrows(env, s.served, served, s.jobs[j]);
    }
    if s.store.values.Some? {
      var r :| Authentic(env, s.served, r) && env.parse(r.data) == Some(s.store.values.value)
        && (r.fullUserHash == env.hash(s.user) || Owner(env, env.key(s.user), r.fullUserHash));
      AuthenticGrows(env, s.served, served, r);
    }
  }

  lemma JobAuthenticGrows(env: Env, a: set<(User, string)>, b: set<(User, string)>, job: Job)
    requires a <= b && JobAuthentic(env, a, job)
    ensures JobAuthentic(env, b, job)
  {
    match job {
      case SyncRefresh(current) => if current.Some? { AuthenticGrows(env, a, b, current.value); }
      case AsyncRefresh(_, current, _) => if current.Some? { AuthenticGrows(env, a, b, current.value); }
      case Fetching(_, current, _) => if current.Some? { AuthenticGrows(env, a, b, current.value); }
      case Writing(_, latest, _) => AuthenticGrows(env, a, b, latest);
    }
  }

  /** A synchronous lookup returns a result kept under the user's key; relabelling does not matter. */
  lemma SyncKeyed(env: Env, s: Client, key: string, victim: Option<string>)
    requires Provenance(env, s)
    ensures SyncOutcome(s.memory, s.files, key).value.Some? ==>
      Keyed(env, s.served, key, SyncOutcome(s.memory, s.files, key).value.value)
    ensures forall k :: k in SyncMemory(s.memory, s.files, key, victim) ==>
      Keyed(env, s.served, k, SyncMemory(s.memory, s.files, key, victim)[k])
  {
    if key !in s.memory && key in s.files && s.files[key].Stored? {
      var r := s.files[key].result;
      var u :| (u, r.data) in s.served && env.hash(u) == r.fullUserHash;
      assert Authentic(env, s.served, r.(source := Cache));
    }
  }

  lemma ProvenanceBegin(env: Env, s: Client, given: User, victim: Option<string>)
    requires Provenance(env, s)
    ensures Provenance(env, BeginUpdate(env, s, given, victim))
    ensures CachedResult(env, s, given).Some? ==> Authentic(env, s.served, CachedResult(env, s, given).value)
  {
    var user := NormalizeUser(given, env.environment);
    SyncKeyed(env, s, env.key(user), victim);
  }

  lemma ProvenanceUpdate(env: Env, s: Client, step: Step)
    requires Provenance(env, s) && (step.UpdateSync? || step.UpdateAsync?) && Enabled(s, step)
    ensures Provenance(env, Apply(env, s, step))
  {
    ProvenanceBegin(env, s, step.user, step.victim);
  }

  lemma ProvenanceRun(env: Env, s: Client, step: Step)
    requires Provenance(env, s) && step.RunJob? && Enabled(s, step)
    ensures Provenance(env, RunJobStep(env, s, step.job, step.victim, step.alive))
  {
    var job, t := s.jobs[step.job], DropJob(s, step.job);
    ProvenanceDrop(env, s, step.job);
    if step.alive {
      var user := if job.AsyncRefresh? then job.initiator else s.user;
      SyncKeyed(env, s, env.key(user), step.victim);
      var current := if job.current.Some? then job.current else SyncOutcome(s.memory, s.files, env.key(user)).value;
      var kept := if job.current.Some? then t else t.(memory := SyncMemory(s.memory, s.files, env.key(user), step.victim));
      assert Provenance(env, kept);
      assert RunJobStep(env, s, step.job, step.victim, step.alive) == AddJob(kept, Fetching(user, current, CallOf(job)));
    }
  }

  lemma ProvenanceComplete(env: Env, s: Client, initiator: User, callback: Option<nat>, outcome: Outcome, alive: bool)
    requires Provenance(env, s)
    requires outcome.value.Some? ==>
      Authentic(env, s.served, outcome.value.value) && outcome.value.value.fullUserHash == env.hash(initiator)
    ensures Provenance(env, Complete(env, s, initiator, callback, outcome, alive))
  {
    var t := Complete(env, s, initiator, callback, outcome, alive);
    if t.store.values.Some? && t.store.values != s.store.values {
      assert Authentic(env, t.served, outcome.value.value);
    }
  }

  lemma ProvenanceDrop(env: Env, s: Client, j: nat)
    requires Provenance(env, s)
    ensures Provenance(env, DropJob(s, j))
  {
  }

  /** The server keeps its word in this step. */
  predicate HonestStep(env: Env, s: Client, step: Step) {
    step.Respond? && step.job in s.jobs && s.jobs[step.job].Fetching? ==>
      var job := s.jobs[step.job];
      Honest(env.parse, SinceTime(CacheFor204(env.parse, env.hash(job.user), job.current)), step.response)
  }

  /** An honest answer yields data on record for a user with the requester's full hash. */
  lemma LatestAuthentic(env: Env, s: Client, step: Step)
    requires Provenance(env, s) && step.Respond? && Enabled(s, step) && HonestStep(env, s, step)
    requires LatestOf(env, s, step).value.Some?
    ensures Authentic(env, Answered(env, s, step).served, LatestOf(env, s, step).value.value)
    ensures LatestOf(env, s, step).value.value.fullUserHash == env.hash(s.jobs[step.job].user)
    ensures LatestOf(env, s, step).code == Ok
  {
    var job, latest, t := s.jobs[step.job], LatestOf(env, s, step).value.value, Answered(env, s, step);
    NotModifiedSound(env.parse, env.hash(job.user), job.current, step.response, step.now);
    if latest.source == Network {
      assert (job.user, latest.data) in t.served;
    } else {
      var u :| (u, job.current.value.data) in s.served && env.hash(u) == job.current.value.fullUserHash;
      assert (u, latest.data) in t.served;
    }
  }

  lemma ProvenanceKeep(env: Env, s: Client, job: Job, latest: AdapterResult, step: Step)
    requires Provenance(env, s) && step.Respond? && job.Fetching?
    requires Authentic(env, s.served, latest) && latest.fullUserHash == env.hash(job.user)
    ensures Provenance(env, KeepLatest(env, s, job, latest, step.victim, step.deleted, step.alive))
  {
    assert Owner(env, env.key(job.user), latest.fullUserHash);
    var kept := s.(memory := Added(s.memory, env.key(job.user), latest, step.victim));
    assert Provenance(env, kept);
    if latest.source != Network {
      ProvenanceComplete(env, kept, job.user, job.callback, Outcome(Ok, Some(latest)), step.alive);
    }
  }

  lemma ProvenanceRespond(env: Env, s: Client, step: Step)
    requires Provenance(env, s) && step.Respond? && Enabled(s, step) && HonestStep(env, s, step)
    ensures Provenance(env, RespondStep(env, s, step))
  {
    var job, latest, t := s.jobs[step.job], LatestOf(env, s, step), Answered(env, s, step);
    ProvenanceDrop(env, s, step.job);
    ProvenanceGrows(env, DropJob(s, step.job), t.served);
    assert Provenance(env, t);
    if !step.networkAlive {
    } else if !step.adapterAlive {
      ProvenanceComplete(env, t, job.user, job.callback, Outcome(SharedPointerLost, None), step.alive);
    } else if latest.value.None? {
      ProvenanceComplete(env, t, job.user, job.callback, latest, step.alive);
    } else {
      LatestAuthentic(env, s, step);
      ProvenanceKeep(env, t, job, latest.value.value, step);
    }
  }

  lemma ProvenanceWritten(env: Env, s: Client, j: nat, alive: bool)
    requires Provenance(env, s) && Enabled(s, Written(j, alive))
    ensures Provenance(env, WrittenStep(env, s, j, alive))
  {
    var job := s.jobs[j];
    var t := DropJob(s, j).(files := s.files[env.key(job.user) := Stored(job.latest)]);
    assert Owner(env, env.key(job.user), job.latest.fullUserHash);
    assert Provenance(env, t);
    ProvenanceComplete(env, t, job.user, job.callback, Outcome(Ok, Some(job.latest)), alive);
  }

  lemma ProvenanceStep(env: Env, s: Client, step: Step)
    requires Provenance(env, s) && Enabled(s, step) && HonestStep(env, s, step)
    ensures Provenance(env, Apply(env, s, step))
  {
    match step {
      case UpdateSync(_, _) => ProvenanceUpdate(env, s, step);
      case UpdateAsync(_, _) => ProvenanceUpdate(env, s, step);
      case RunJob(_, _, _) => ProvenanceRun(env, s, step);
      case Respond(_, _, _, _, _, _, _, _) => ProvenanceRespond(env, s, step);
      case Written(j, alive) => ProvenanceWritten(env, s, j, alive);
    }
  }

  // ---- completed updates and lost calls ----

  /** The update that the step completes is over: it showed its result and called back. */
  predicate Completes(s: Client, t: Client, step: Step) {
    step.UpdateSync? || (t.invoked != s.invoked && !step.UpdateAsync?)
  }

  lemma CompletedNotLoading(env: Env, s: Client, step: Step)
    requires StoreInv(env, s) && Enabled(s, step)
    ensures Completes(s, Apply(env, s, step), step) ==> Apply(env, s, step).store.source != Loading
  {
    if step.UpdateSync? {
      StoreBegin(env, s, step.user, step.victim);
    } else if step.Respond? {
      StoreRespond(env, s, step);
    } else if step.Written? {
      var t := DropJob(s, step.job).(files := s.files[env.key(s.jobs[step.job].user) := Stored(s.jobs[step.job].latest)]);
      StoreComplete(env, t, s.jobs[step.job].user, s.jobs[step.job].callback, Outcome(Ok, Some(s.jobs[step.job].latest)), step.alive);
    }
  }

  /** The step settles a waiting call although what it has to lock is gone, so the call is lost. */
  predicate Abandons(env: Env, s: Client, step: Step)
    requires Enabled(s, step)
  {
    match step
    case UpdateSync(_, _) => false
    case UpdateAsync(_, _) => false
    case RunJob(j, _, alive) => CallOf(s.jobs[j]).Some? && !alive
    case Respond(j, _, _, _, _, networkAlive, adapterAlive, alive) =>
      CallOf(s.jobs[j]).Some? && (!networkAlive || (!alive && !(adapterAlive && IsUpdate(LatestOf(env, s, step)))))
    case Written(j, alive) => CallOf(s.jobs[j]).Some? && !alive
  }

  /** New values from the network, which are written to a file before the callback. */
  predicate IsUpdate(latest: Outcome) {
    latest.value.Some? && latest.value.value.source == Network
  }

  lemma LostExactly(env: Env, s: Client, step: Step)
    requires Calls(s) && Enabled(s, step)
    ensures s.lost <= Apply(env, s, step).lost
    ensures Apply(env, s, step).lost == s.lost <==> !Abandons(env, s, step)
  {
    match step {
      case UpdateSync(_, _) =>
      case UpdateAsync(_, _) =>
      case RunJob(_, _, _) =>
      case Respond(_, _, _, _, _, _, _, _) => LostRespond(env, s, step);
      case Written(j, alive) =>
        var t := DropJob(s, j).(files := s.files[env.key(s.jobs[j].user) := Stored(s.jobs[j].latest)]);
        LostComplete(env, t, s.jobs[j].user, s.jobs[j].callback, Outcome(Ok, Some(s.jobs[j].latest)), alive);
    }
  }

  lemma LostComplete(env: Env, s: Client, initiator: User, callback: Option<nat>, outcome: Outcome, alive: bool)
    requires callback.Some? ==> callback.value !in s.lost
    ensures s.lost <= Complete(env, s, initiator, callback, outcome, alive).lost
    ensures Complete(env, s, initiator, callback, outcome, alive).lost == s.lost <==> alive || callback.None?
  {
  }

  lemma LostRespond(env: Env, s: Client, step: Step)
    requires Calls(s) && step.Respond? && Enabled(s, step)
    ensures s.lost <= RespondStep(env, s, step).lost
    ensures RespondStep(env, s, step).lost == s.lost <==> !Abandons(env, s, step)
  {
    var job, latest, t := s.jobs[step.job], LatestOf(env, s, step), Answered(env, s, step);
    assert t.lost == s.lost;
    assert CallOf(job).Some? ==> Waiting(s, CallOf(job).value);
    if step.networkAlive {
      if !step.adapterAlive {
        LostComplete(env, t, job.user, job.callback, Outcome(SharedPointerLost, None), step.alive);
      } else if latest.value.None? {
        LostComplete(env, t, job.user, job.callback, latest, step.alive);
      } else if !IsUpdate(latest) {
        var kept := t.(memory := Added(t.memory, env.key(job.user), latest.value.value, step.victim));
        LostComplete(env, kept, job.user, job.callback, Outcome(Ok, latest.value), step.alive);
      }
    }
  }

  lemma ServedGrows(env: Env, s: Client, step: Step)
    requires Enabled(s, step)
    ensures s.served <= Apply(env, s, step).served
  {
    match step {
      case UpdateSync(_, _) =>
      case UpdateAsync(_, _) =>
      case RunJob(_, _, _) =>
      case Respond(_, _, _, _, _, _, _, _) =>
        RespondServes(env, s, step);
      case Written(_, _) =>
    }
  }

  lemma RespondServes(env: Env, s: Client, step: Step)
    requires step.Respond? && Enabled(s, step)
    ensures s.served <= RespondStep(env, s, step).served
  {
    assert s.served <= Answered(env, s, step).served;
  }

  // ---- the jobs run out ----

  predicate FromCaller(step: Step) {
    step.UpdateSync? || step.UpdateAsync?
  }

  /** How many steps a job can still take. */
  function StepsLeft(job: Job): nat {
    if job.SyncRefresh? || job.AsyncRefresh? then 3 else if job.Fetching? then 2 else 1
  }

  function WithAtLeast(jobs: map<nat, Job>, k: nat): set<nat> {
    set j | j in jobs && StepsLeft(jobs[j]) >= k
  }

  /** The number of steps that all jobs together can still take. */
  function Work(jobs: map<nat, Job>): (work: nat)
    ensures work <= 3 * |jobs|
  {
    WithAtLeastBound(jobs, 1);
    WithAtLeastBound(jobs, 2);
    WithAtLeastBound(jobs, 3);
    |WithAtLeast(jobs, 1)| + |WithAtLeast(jobs, 2)| + |WithAtLeast(jobs, 3)|
  }

  lemma WithAtLeastBound(jobs: map<nat, Job>, k: nat)
    ensures |WithAtLeast(jobs, k)| <= |jobs|
  {
    assert jobs.Keys == WithAtLeast(jobs, k) + (jobs.Keys - WithAtLeast(jobs, k));
    assert |jobs.Keys| == |WithAtLeast(jobs, k)| + |jobs.Keys - WithAtLeast(jobs, k)|;
  }

  lemma WithAtLeastRemove(jobs: map<nat, Job>, j: nat, k: nat)
    requires j in jobs
    ensures |WithAtLeast(jobs, k)| == |WithAtLeast(jobs - {j}, k)| + if StepsLeft(jobs[j]) >= k then 1 else 0
  {
    var rest := WithAtLeast(jobs - {j}, k);
    assert j !in rest;
    assert WithAtLeast(jobs, k) == if StepsLeft(jobs[j]) >= k then rest + {j} else rest;
  }

  lemma WorkRemove(jobs: map<nat, Job>, j: nat)
    requires j in jobs
    ensures Work(jobs) == Work(jobs - {j}) + StepsLeft(jobs[j])
  {
    WithAtLeastRemove(jobs, j, 1);
    WithAtLeastRemove(jobs, j, 2);
    WithAtLeastRemove(jobs, j, 3);
  }

  /** A job that ends, or is replaced by one that has fewer steps left, is progress. */
  lemma LessWork(jobs: map<nat, Job>, after: map<nat, Job>, j: nat, id: nat)
    requires j in jobs && id !in jobs
    requires after == jobs - {j}
      || (id in after && after == (jobs - {j})[id := after[id]] && StepsLeft(after[id]) < StepsLeft(jobs[j]))
    ensures Work(after) < Work(jobs)
  {
    WorkRemove(jobs, j);
    if after != jobs - {j} {
      WorkRemove(after, id);
      assert after - {id} == jobs - {j};
    }
  }

  /** A response ends its job or turns it into a write. */
  lemma RespondJobs(env: Env, s: Client, step: Step)
    requires step.Respond? && Enabled(s, step)
    ensures var t := RespondStep(env, s, step).jobs;
      || t == s.jobs - {step.job}
      || (s.nextJob in t && t[s.nextJob].Writing? && t == (s.jobs - {step.job})[s.nextJob := t[s.nextJob]])
  {
    var t := Answered(env, s, step);
    assert t.jobs == s.jobs - {step.job} && t.nextJob == s.nextJob;
    if step.networkAlive {
      ConcludeJobs(env, t, s.jobs[step.job], LatestOf(env, s, step), step.victim, step.deleted, step.adapterAlive, step.alive);
    }
  }

  lemma ConcludeJobs(env: Env, s: Client, job: Job, latest: Outcome, victim: Option<string>,
                     deleted: set<string>, adapterAlive: bool, alive: bool)
    requires job.Fetching?
    ensures var t := Conclude(env, s, job, latest, victim, deleted, adapterAlive, alive).jobs;
      t == s.jobs || (s.nextJob in t && t[s.nextJob].Writing? && t == s.jobs[s.nextJob := t[s.nextJob]])
  {
  }

  lemma JobsAfter(env: Env, s: Client, step: Step)
    requires Enabled(s, step) && !FromCaller(step)
    ensures var t := Apply(env, s, step).jobs;
      || t == s.jobs - {step.job}
      || (s.nextJob in t && t == (s.jobs - {step.job})[s.nextJob := t[s.nextJob]]
          && StepsLeft(t[s.nextJob]) < StepsLeft(s.jobs[step.job]))
  {
    match step {
      case RunJob(_, _, _) => RunJobs(env, s, step);
      case Respond(_, _, _, _, _, _, _, _) => RespondJobs(env, s, step);
      case Written(j, alive) => assert WrittenStep(env, s, j, alive).jobs == s.jobs - {j};
    }
  }

  lemma JobStepIsProgress(env: Env, s: Client, step: Step)
    requires Calls(s) && Enabled(s, step) && !FromCaller(step)
    ensures Work(Apply(env, s, step).jobs) < Work(s.jobs)
  {
    JobsAfter(env, s, step);
    LessWork(s.jobs, Apply(env, s, step).jobs, step.job, s.nextJob);
  }

  /** A job can always take its next step, and none that loses its call. */
  lemma JobCanStep(env: Env, s: Client, j: nat, response: Response, now: Timestamp)
    returns (step: Step)
    requires j in s.jobs
    ensures Enabled(s, step) && !FromCaller(step) && step.job == j && !Abandons(env, s, step)
  {
    var victim := AnyVictim(s.memory);
    match s.jobs[j] {
      case SyncRefresh(_) => step := RunJob(j, victim, true);
      case AsyncRefresh(_, _, _) => step := RunJob(j, victim, true);
      case Fetching(_, _, _) => step := Respond(j, response, now, victim, {}, true, true, true);
      case Writing(_, _, _) => step := Written(j, true);
    }
  }

  // ---- what an update and its job ask for ----

  /**
   * An update takes the user as given, but with the environment of the options, and its job goes on
   * with the result found for that user.
   */
  lemma UpdateNormalizes(env: Env, s: Client, given: User, victim: Option<string>)
    ensures UpdateSyncStep(env, s, given, victim).user == given.(environment := env.environment)
    ensures UpdateAsyncStep(env, s, given, victim).user == given.(environment := env.environment)
    ensures var found := SyncOutcome(s.memory, s.files, env.key(given.(environment := env.environment))).value;
      && UpdateSyncStep(env, s, given, victim).jobs == s.jobs[s.nextJob := SyncRefresh(found)]
      && UpdateAsyncStep(env, s, given, victim).jobs
         == s.jobs[s.nextJob := AsyncRefresh(given.(environment := env.environment), found, |s.invoked|)]
  {
    NormalizedExactly(given, env.environment);
  }

  /** Users who differ in their own environments only become the same user, and so count as equal. */
  lemma EnvironmentsDoNotMatter(env: Env, s: Client, given: User, victim: Option<string>, other: Option<Environment>)
    ensures UpdateAsyncStep(env, s, given.(environment := other), victim) == UpdateAsyncStep(env, s, given, victim)
    ensures UpdateSyncStep(env, s, given.(environment := other), victim) == UpdateSyncStep(env, s, given, victim)
    ensures Equal(env, NormalizeUser(given.(environment := other), env.environment), NormalizeUser(given, env.environment))
  {
    NormalizedExactly(given, env.environment);
  }

  /**
   * What an update shows at once: the result that is found, if it parses, with its own source and
   * times; otherwise an asynchronous update is loading, and a synchronous one has no values.
   */
  lemma UpdateShowsFound(env: Env, s: Client, given: User, victim: Option<string>)
    ensures var found := SyncOutcome(s.memory, s.files, env.key(given.(environment := env.environment))).value;
      if found.Some? && env.parse(found.value.data).Some? then
        var values := env.parse(found.value.data).value;
        UpdateAsyncStep(env, s, given, victim).store == UpdateSyncStep(env, s, given, victim).store
          == Store(Some(values), found.value.source, values.time, found.value.receivedAt)
      else
        && UpdateAsyncStep(env, s, given, victim).store == Store(None, Loading, 0, 0)
        && UpdateSyncStep(env, s, given, victim).store == Store(None, NoValues, 0, 0)
  {
  }

  /**
   * The request of a job is made for its initiator, or for the user of the moment after a synchronous
   * update, and with the result that the update found, or what a lookup finds now.
   */
  lemma RequestCarries(env: Env, s: Client, j: nat, victim: Option<string>)
    requires Enabled(s, RunJob(j, victim, true)) && s.nextJob !in s.jobs
    ensures var user := Requester(s.jobs[j], s.user);
      var current := if s.jobs[j].current.Some? then s.jobs[j].current
                     else SyncOutcome(s.memory, s.files, env.key(user)).value;
      RunJobStep(env, s, j, victim, true).jobs == (s.jobs - {j})[s.nextJob := Fetching(user, current, CallOf(s.jobs[j]))]
  {
  }

  /**
   * What the callback of a request is given: the error that the request ended with, a result that was
   * not modified, or the loss of the adapter. New values are written to their file before it is called.
   */
  lemma ConcludedMeaning(parse: Parser, hash: string, current: Option<AdapterResult>, response: Response, now: Timestamp)
    ensures var latest := LatestFrom(parse, hash, current, response, now);
      && Concluded(latest, false) == Some(Outcome(SharedPointerLost, None))
      && (response.status / 100 != 2 ==>
            Concluded(latest, true).Some? && Concluded(latest, true).value.code == NetworkFailureBadStatusCode
            && Concluded(latest, true).value.extra == latest.extra)
      && (response.status / 100 == 2 && SaysNoUpdates(parse, response) ==>
            Concluded(latest, true) == Some(Outcome(Ok, latest.value)) && latest.value.Some?)
      && (response.status / 100 == 2 && response.status != 204 && parse(response.text).None? ==>
            Concluded(latest, true) == Some(Outcome(JsonFailureInitializeResponse, None)))
      && (response.status / 100 == 2 && !SaysNoUpdates(parse, response) && parse(response.text).Some? ==>
            Concluded(latest, true).None?)
  {
  }

  // ---- what a step shows ----

  /** The user of the adapter call that a job makes; that of a synchronous refresh is not fixed yet. */
  function Requester(job: Job, current: User): User {
    match job
    case SyncRefresh(_) => current
    case AsyncRefresh(initiator, _, _) => initiator
    case Fetching(user, _, _) => user
    case Writing(user, _, _) => user
  }

  /** A job that takes the place of another has its call, and its user. */
  lemma SuccessorSame(env: Env, s: Client, step: Step)
    requires Enabled(s, step) && !FromCaller(step) && s.nextJob !in s.jobs
    ensures var t := Apply(env, s, step);
      s.nextJob in t.jobs ==>
        && CallOf(t.jobs[s.nextJob]) == CallOf(s.jobs[step.job])
        && Requester(t.jobs[s.nextJob], s.user) == Requester(s.jobs[step.job], s.user)
        && !t.jobs[s.nextJob].SyncRefresh?
  {
    match step {
      case RunJob(_, _, _) =>
      case Respond(_, _, _, _, _, _, _, _) => SuccessorOfRequest(env, s, step);
      case Written(j, alive) => assert s.nextJob !in WrittenStep(env, s, j, alive).jobs;
    }
  }

  lemma SuccessorOfRequest(env: Env, s: Client, step: Step)
    requires step.Respond? && Enabled(s, step) && s.nextJob !in s.jobs
    ensures var t := RespondStep(env, s, step);
      s.nextJob in t.jobs ==>
        CallOf(t.jobs[s.nextJob]) == CallOf(s.jobs[step.job]) && t.jobs[s.nextJob].Writing?
        && t.jobs[s.nextJob].user == s.jobs[step.job].user
  {
    assert s.nextJob !in Answered(env, s, step).jobs;
  }

  /**
   * `t` differs from `s`, in what it shows and in the calls, exactly by the callback for this result:
   * it is made if there is a result, a call waits for it, and what it locks is there.
   */
  ghost predicate Shows(env: Env, s: Client, t: Client, initiator: User, callback: Option<nat>, result: Option<Outcome>, alive: bool) {
    && t.user == s.user
    && if callback.Some? && result.Some? && alive then
         && t.store == Finalized(if result.value.code == Ok && Equal(env, initiator, s.user)
                                 then WithResult(s.store, env.parse, result.value.value) else s.store)
         && t.invoked == if callback.value < |s.invoked|
                         then s.invoked[callback.value := s.invoked[callback.value] + 1] else s.invoked
       else t.store == s.store && t.invoked == s.invoked
  }

  predicate SameShown(s: Client, t: Client) {
    s.user == t.user && s.store == t.store && s.invoked == t.invoked
  }

  lemma ShownByComplete(env: Env, s: Client, t: Client, initiator: User, callback: Option<nat>, outcome: Outcome, alive: bool)
    requires SameShown(s, t)
    ensures Shows(env, s, Complete(env, t, initiator, callback, outcome, alive), initiator, callback, Some(outcome), alive)
  {
  }

  lemma ShownByConclude(env: Env, s: Client, t: Client, job: Job, latest: Outcome, victim: Option<string>,
                        deleted: set<string>, adapterAlive: bool, alive: bool)
    requires SameShown(s, t) && job.Fetching?
    ensures Shows(env, s, Conclude(env, t, job, latest, victim, deleted, adapterAlive, alive), job.user, job.callback,
                  Concluded(latest, adapterAlive), alive)
  {
    if !adapterAlive {
      ShownByComplete(env, s, t, job.user, job.callback, Outcome(SharedPointerLost, None), alive);
    } else if latest.value.None? {
      ShownByComplete(env, s, t, job.user, job.callback, latest, alive);
    } else if latest.value.value.source != Network {
      var kept := t.(memory := Added(t.memory, env.key(job.user), latest.value.value, victim));
      ShownByComplete(env, s, kept, job.user, job.callback, Outcome(Ok, latest.value), alive);
    }
  }

  lemma ShownByResponse(env: Env, s: Client, step: Step)
    requires step.Respond? && Enabled(s, step)
    ensures Shows(env, s, RespondStep(env, s, step), s.jobs[step.job].user, s.jobs[step.job].callback,
                  ResultOf(env, s, step), step.alive)
  {
    if step.networkAlive {
      assert SameShown(s, Answered(env, s, step));
      ShownByConclude(env, s, Answered(env, s, step), s.jobs[step.job], LatestOf(env, s, step), step.victim, step.deleted,
                      step.adapterAlive, step.alive);
    }
  }

  lemma ShownByWrite(env: Env, s: Client, j: nat, alive: bool)
    requires Enabled(s, Written(j, alive))
    ensures Shows(env, s, WrittenStep(env, s, j, alive), s.jobs[j].user, s.jobs[j].callback, ResultOf(env, s, Written(j, alive)), alive)
  {
    var job := s.jobs[j];
    var t := DropJob(s, j).(files := s.files[env.key(job.user) := Stored(job.latest)]);
    ShownByComplete(env, s, t, job.user, job.callback, Outcome(Ok, Some(job.latest)), alive);
  }

  /** A step of a job changes what is shown, and the calls, exactly by calling back with its result. */
  lemma ShownByStep(env: Env, s: Client, step: Step)
    requires Enabled(s, step) && !FromCaller(step)
    ensures Shows(env, s, Apply(env, s, step), Requester(s.jobs[step.job], s.user), CallOf(s.jobs[step.job]),
                  ResultOf(env, s, step), step.alive)
  {
    match step {
      case RunJob(_, _, _) =>
      case Respond(_, _, _, _, _, _, _, _) => ShownByResponse(env, s, step);
      case Written(j, alive) => ShownByWrite(env, s, j, alive);
    }
  }

  // ---- what a stale completion does ----

  /**
   * A completion for another user shows nothing, but it still finalises: while a newer update is
   * loading, the source turns to "no values" before that update has an answer.
   */
  lemma StaleCompletionFinalizes(env: Env, s: Client, initiator: User, call: nat, outcome: Outcome)
    requires !Equal(env, initiator, s.user) && s.store == LOADING_STORE
    ensures Complete(env, s, initiator, Some(call), outcome, true).store == Store(None, NoValues, 0, 0)
    ensures Complete(env, s, initiator, Some(call), outcome, true).jobs == s.jobs
  {
  }
}
