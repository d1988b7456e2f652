/**
 * All contexts of a process: initialising again puts a new context in place of the current one, while
 * jobs of earlier contexts go on for as long as something still holds what they lock. The contexts
 * share the cache files and the background jobs; each has its own user, store and memory.
 */
module ClientSessions {
  import opened Wrappers
  import opened UserKeys
  import opened EvaluationStore
  import opened MemoryCache
  import opened NetworkService
  import opened DataAdapter
  import opened ClientProtocol
  import opened ClientTheorems

  datatype Context = Context(
    env: Env,
    user: User,
    store: Store,
    memory: MemoryCache.Cache,
    origin: Option<User>)

  datatype Shared = Shared(
    files: Files,
    jobs: map<nat, Job>,
    nextJob: nat,
    invoked: seq<nat>,
    lost: set<nat>,
    served: set<(User, string)>)

  /** `owner` says which context a job belongs to. The last context is the current one. */
  datatype Sessions = Sessions(contexts: seq<Context>, owner: map<nat, nat>, shared: Shared)

  datatype Action =
    | Initialize(env: Env, user: User)
    | Within(context: nat, step: Step)

  /** A context with the shared state. */
  function View(x: Context, h: Shared): Client {
    Client(x.user, x.store, x.memory, h.files, h.jobs, h.nextJob, x.origin, h.invoked, h.lost, h.served)
  }

  function NewContext(env: Env, user: User): Context {
    Context(env, user, INITIAL_STORE, map[], None)
  }

  function Focus(m: Sessions, c: nat): Client
    requires c < |m.contexts|
  {
    View(m.contexts[c], m.shared)
  }

  /** Context `c` has made a step to `t`; a new job of this step is its own. */
  function Put(m: Sessions, c: nat, t: Client): Sessions
    requires c < |m.contexts|
  {
    Sessions(
      m.contexts[c := Context(m.contexts[c].env, t.user, t.store, t.memory, t.origin)],
      m.owner[m.shared.nextJob := c],
      Shared(t.files, t.jobs, t.nextJob, t.invoked, t.lost, t.served))
  }

  /** Updates go to the current context, the steps of a job to the context that it belongs to. */
  predicate Addressed(m: Sessions, c: nat, step: Step) {
    if FromCaller(step) then c + 1 == |m.contexts| else step.job in m.owner && m.owner[step.job] == c
  }

  predicate Enabled(m: Sessions, a: Action) {
    match a
    case Initialize(_, _) => true
    case Within(c, step) =>
      c < |m.contexts| && ClientProtocol.Enabled(Focus(m, c), step) && Addressed(m, c, step)
  }

  function Apply(m: Sessions, a: Action): Sessions
    requires Enabled(m, a)
  {
    match a
    case Initialize(env, user) => m.(contexts := m.contexts + [NewContext(env, user)])
    case Within(c, step) => Put(m, c, ClientProtocol.Apply(m.contexts[c].env, Focus(m, c), step))
  }

  /** Contexts differ in their SDK key and options only. */
  ghost predicate Agree(a: Env, b: Env) {
    a.keyFor == b.keyFor && a.hash == b.hash && a.parse == b.parse
  }

  // ---- the calls ----

  lemma CallsSame(s: Client, t: Client)
    requires Calls(s) && t.jobs == s.jobs && t.nextJob == s.nextJob && t.invoked == s.invoked && t.lost == s.lost
    ensures Calls(t)
  {
    forall c: nat | HasJob(s, c) ensures HasJob(t, c) {
      var j :| j in s.jobs && CallOf(s.jobs[j]) == Some(c);
      assert j in t.jobs;
    }
  }

  /** The shared state, seen from a context that has not done anything. */
  function Outside(h: Shared): Client {
    Client(DEFAULT_USER, INITIAL_STORE, map[], h.files, h.jobs, h.nextJob, None, h.invoked, h.lost, h.served)
  }

  ghost predicate Owned(m: Sessions) {
    forall j :: j in m.shared.jobs ==> j in m.owner && m.owner[j] < |m.contexts|
  }

  ghost predicate CallsInv(m: Sessions) {
    Calls(Outside(m.shared)) && Owned(m)
  }

  lemma JobsOf(env: Env, s: Client, step: Step)
    requires ClientProtocol.Enabled(s, step)
    ensures forall j :: j in ClientProtocol.Apply(env, s, step).jobs ==> j in s.jobs || j == s.nextJob
  {
    if !FromCaller(step) { JobsAfter(env, s, step); }
  }

  lemma CallsInvStep(m: Sessions, a: Action)
    requires CallsInv(m) && Enabled(m, a)
    ensures CallsInv(Apply(m, a))
  {
    if a.Within? {
      var s, env := Focus(m, a.context), m.contexts[a.context].env;
      CallsSame(Outside(m.shared), s);
      CallsStep(env, s, a.step);
      CallsSame(ClientProtocol.Apply(env, s, a.step), Outside(Apply(m, a).shared));
      JobsOf(env, s, a.step);
    }
  }

  // ---- the stores ----

  ghost predicate StoreAt(m: Sessions, c: nat)
    requires c < |m.contexts|
  {
    StoreInv(m.contexts[c].env, Focus(m, c))
  }

  ghost predicate JobsSourced(h: Shared) {
    forall j :: j in h.jobs ==> JobSourced(h.jobs[j])
  }

  ghost predicate StoresInv(m: Sessions) {
    JobsSourced(m.shared) && forall c :: 0 <= c < |m.contexts| ==> StoreAt(m, c)
  }

  /** Another context took a step. */
  lemma StoreBeside(x: Context, h: Shared, g: Shared)
    requires StoreInv(x.env, View(x, h)) && JobsSourced(g)
    ensures StoreInv(x.env, View(x, g))
  {
  }

  lemma StoresStep(m: Sessions, a: Action)
    requires StoresInv(m) && Enabled(m, a)
    ensures StoresInv(Apply(m, a))
  {
    var t := Apply(m, a);
    if a.Within? {
      var s, env := Focus(m, a.context), m.contexts[a.context].env;
      assert StoreAt(m, a.context);
      StoreStep(env, s, a.step);
      assert Focus(t, a.context) == ClientProtocol.Apply(env, s, a.step);
    }
    forall c | 0 <= c < |t.contexts| ensures StoreAt(t, c) {
      if c < |m.contexts| && t.contexts[c] == m.contexts[c] {
        assert StoreAt(m, c);
        StoreBeside(m.contexts[c], m.shared, t.shared);
      }
    }
  }

  // ---- where the values come from ----

  ghost predicate ProvenanceAt(world: Env, m: Sessions, c: nat)
    requires c < |m.contexts|
  {
    Agree(world, m.contexts[c].env) && Provenance(m.contexts[c].env, Focus(m, c))
  }

  ghost predicate SharedAuthentic(world: Env, h: Shared) {
    && FilesAuthentic(world, h.served, h.files)
    && forall j :: j in h.jobs ==> JobAuthentic(world, h.served, h.jobs[j])
  }

  ghost predicate ProvenanceInv(world: Env, m: Sessions) {
    SharedAuthentic(world, m.shared) && forall c :: 0 <= c < |m.contexts| ==> ProvenanceAt(world, m, c)
  }

  lemma KeyedAgrees(a: Env, b: Env, served: set<(User, string)>, key: string, r: AdapterResult)
    requires Agree(a, b) && Keyed(a, served, key, r)
    ensures Keyed(b, served, key, r)
  {
    var u :| (u, r.data) in served && a.hash(u) == r.fullUserHash;
    assert b.hash(u) == r.fullUserHash;
    var k, v :| a.keyFor(k, v) == key && a.hash(v) == r.fullUserHash;
    assert b.keyFor(k, v) == key && b.hash(v) == r.fullUserHash;
  }

  lemma AuthenticAgrees(a: Env, b: Env, served: set<(User, string)>, r: AdapterResult)
    requires Agree(a, b) && Authentic(a, served, r)
    ensures Authentic(b, served, r)
  {
    var u :| (u, r.data) in served && a.hash(u) == r.fullUserHash;
    assert b.hash(u) == r.fullUserHash;
  }

  lemma JobAgrees(a: Env, b: Env, served: set<(User, string)>, job: Job)
    requires Agree(a, b) && JobAuthentic(a, served, job)
    ensures JobAuthentic(b, served, job)
  {
    match job {
      case SyncRefresh(current) => if current.Some? { AuthenticAgrees(a, b, served, current.value); }
      case AsyncRefresh(_, current, _) => if current.Some? { AuthenticAgrees(a, b, served, current.value); }
      case Fetching(_, current, _) => if current.Some? { AuthenticAgrees(a, b, served, current.value); }
      case Writing(_, latest, _) => AuthenticAgrees(a, b, served, latest);
    }
  }

  lemma SharedAgrees(a: Env, b: Env, h: Shared)
    requires Agree(a, b) && SharedAuthentic(a, h)
    ensures SharedAuthentic(b, h)
  {
    forall k | k in h.files && h.files[k].Stored? ensures Keyed(b, h.served, k, h.files[k].result) {
      KeyedAgrees(a, b, h.served, k, h.files[k].result);
    }
    forall j | j in h.jobs ensures JobAuthentic(b, h.served, h.jobs[j]) {
      JobAgrees(a, b, h.served, h.jobs[j]);
    }
  }

  /** Another context took a step, which made only the record of what was served grow. */
  lemma ProvenanceBeside(env: Env, x: Context, h: Shared, g: Shared)
    requires Provenance(env, View(x, h)) && SharedAuthentic(env, g) && h.served <= g.served
    ensures Provenance(env, View(x, g))
  {
    ProvenanceGrows(env, View(x, h), g.served);
    assert View(x, h).(served := g.served) == View(x, h.(served := g.served));
  }

  lemma ProvenanceWithin(world: Env, m: Sessions, a: Action)
    requires ProvenanceInv(world, m) && Enabled(m, a) && a.Within?
    requires HonestStep(m.contexts[a.context].env, Focus(m, a.context), a.step)
    ensures SharedAuthentic(world, Apply(m, a).shared) && ProvenanceAt(world, Apply(m, a), a.context)
    ensures m.shared.served <= Apply(m, a).shared.served
  {
    var t, s, env := Apply(m, a), Focus(m, a.context), m.contexts[a.context].env;
    assert ProvenanceAt(world, m, a.context);
    ProvenanceStep(env, s, a.step);
    ServedGrows(env, s, a.step);
    assert Focus(t, a.context) == ClientProtocol.Apply(env, s, a.step);
    SharedAgrees(env, world, t.shared);
  }

  lemma ProvenanceSessions(world: Env, m: Sessions, a: Action)
    requires ProvenanceInv(world, m) && Enabled(m, a) && Admissible(world, m, a)
    ensures ProvenanceInv(world, Apply(m, a))
  {
    var t := Apply(m, a);
    if a.Within? { ProvenanceWithin(world, m, a); }
    forall c | 0 <= c < |t.contexts| ensures ProvenanceAt(world, t, c) {
      if c == |m.contexts| {
        SharedAgrees(world, t.contexts[c].env, t.shared);
      } else if a.Within? && c != a.context {
        assert ProvenanceAt(world, m, c);
        SharedAgrees(world, m.contexts[c].env, t.shared);
        ProvenanceBeside(m.contexts[c].env, m.contexts[c], m.shared, t.shared);
      } else {
        assert c < |m.contexts| && a.Initialize? ==> ProvenanceAt(world, m, c);
      }
    }
  }

  // ---- whole runs ----

  /** A process begins without a context, with the cache files of earlier processes. */
  predicate IsStart(m: Sessions) {
    && m.contexts == [] && m.shared.jobs == map[] && m.shared.invoked == [] && m.shared.lost == {}
  }

  ghost predicate IsRun(states: seq<Sessions>, actions: seq<Action>) {
    && |states| == |actions| + 1
    && IsStart(states[0])
    && forall i :: 0 <= i < |actions| ==> Enabled(states[i], actions[i]) && states[i + 1] == Apply(states[i], actions[i])
  }

  lemma {:induction false} RunInv(states: seq<Sessions>, actions: seq<Action>, n: nat)
    requires IsRun(states, actions) && n < |states|
    ensures CallsInv(states[n]) && StoresInv(states[n])
  {
    if n > 0 {
      RunInv(states, actions, n - 1);
      CallsInvStep(states[n - 1], actions[n - 1]);
      StoresStep(states[n - 1], actions[n - 1]);
    }
  }

  /**
   * Whenever the store of a context holds values, they came from an adapter call made for a user who
   * equals that context's user, for any number of contexts and of synchronous and asynchronous
   * updates in any interleaving.
   */
  lemma StaleResultSafety(states: seq<Sessions>, actions: seq<Action>, n: nat, c: nat)
    requires IsRun(states, actions) && n < |states| && c < |states[n].contexts|
    ensures var x := states[n].contexts[c];
      x.store.values.Some? ==> x.origin.Some? && Equal(x.env, x.origin.value, x.user)
  {
    RunInv(states, actions, n);
    assert StoreAt(states[n], c);
  }

  /** In every reachable state source, times and values agree, and no completed update leaves `Loading`. */
  lemma StoreStates(states: seq<Sessions>, actions: seq<Action>, n: nat, c: nat)
    requires IsRun(states, actions) && n < |states| && c < |states[n].contexts|
    ensures Coherent(states[n].contexts[c].store)
    ensures n < |actions| && actions[n].Within? && actions[n].context == c
      && Completes(Focus(states[n], c), Focus(states[n + 1], c), actions[n].step)
      ==> states[n + 1].contexts[c].store.source != Loading
  {
    RunInv(states, actions, n);
    assert StoreAt(states[n], c);
    if n < |actions| && actions[n].Within? && actions[n].context == c {
      CompletedNotLoading(states[n].contexts[c].env, Focus(states[n], c), actions[n].step);
      assert Focus(states[n + 1], c) == ClientProtocol.Apply(states[n].contexts[c].env, Focus(states[n], c), actions[n].step);
    }
  }

  /** The server says "no updates" only to a positive `sinceTime`, and contexts differ as they may. */
  ghost predicate Admissible(world: Env, m: Sessions, a: Action)
    requires Enabled(m, a)
  {
    match a
    case Initialize(env, _) => Agree(world, env)
    case Within(c, step) => HonestStep(m.contexts[c].env, Focus(m, c), step)
  }

  /**
   * If the server says "no updates" only to a positive `sinceTime`, then whatever the store of any
   * context ever shows was sent by the server for a user with the full hash of the context's user, or
   * for a user who reads the same cache entry.
   */
  lemma {:induction false} ServedValuesOnly(world: Env, states: seq<Sessions>, actions: seq<Action>, n: nat)
    requires IsRun(states, actions) && n < |states|
    requires FilesAuthentic(world, states[0].shared.served, states[0].shared.files)
    requires forall i :: 0 <= i < n ==> Admissible(world, states[i], actions[i])
    ensures ProvenanceInv(world, states[n])
    ensures forall c :: 0 <= c < |states[n].contexts| ==>
      var x := states[n].contexts[c];
      x.store.values.Some? ==> Shown(x.env, states[n].shared.served, x.store.values.value, x.user)
  {
    if n > 0 {
      ServedValuesOnly(world, states, actions, n - 1);
      ProvenanceSessions(world, states[n - 1], actions[n - 1]);
    }
    forall c | 0 <= c < |states[n].contexts|
      ensures var x := states[n].contexts[c];
        x.store.values.Some? ==> Shown(x.env, states[n].shared.served, x.store.values.value, x.user)
    {
      assert ProvenanceAt(world, states[n], c);
    }
  }

  // ---- callbacks ----

  /** The action settles a waiting call although what it has to lock is gone. */
  predicate LosesCall(m: Sessions, a: Action)
    requires Enabled(m, a)
  {
    a.Within? && Abandons(m.contexts[a.context].env, Focus(m, a.context), a.step)
  }

  predicate NoneLostUntil(states: seq<Sessions>, actions: seq<Action>, n: nat)
    requires n <= |actions| <= |states| && forall i :: 0 <= i < n ==> Enabled(states[i], actions[i])
  {
    forall i :: 0 <= i < n ==> !LosesCall(states[i], actions[i])
  }

  lemma LostByStep(m: Sessions, a: Action)
    requires CallsInv(m) && Enabled(m, a)
    ensures m.shared.lost <= Apply(m, a).shared.lost
    ensures Apply(m, a).shared.lost == m.shared.lost <==> !LosesCall(m, a)
  {
    if a.Within? {
      CallsSame(Outside(m.shared), Focus(m, a.context));
      LostExactly(m.contexts[a.context].env, Focus(m, a.context), a.step);
    }
  }

  lemma NoneLostStep(states: seq<Sessions>, actions: seq<Action>, n: nat)
    requires n < |actions| <= |states| && forall i :: 0 <= i <= n ==> Enabled(states[i], actions[i])
    ensures NoneLostUntil(states, actions, n + 1) <==> NoneLostUntil(states, actions, n) && !LosesCall(states[n], actions[n])
  {
  }

  lemma {:induction false} LostInRun(states: seq<Sessions>, actions: seq<Action>, n: nat)
    requires IsRun(states, actions) && n < |states|
    ensures states[n].shared.lost == {} <==> NoneLostUntil(states, actions, n)
  {
    if n > 0 {
      var m, a := states[n - 1], actions[n - 1];
      LostInRun(states, actions, n - 1);
      RunInv(states, actions, n - 1);
      LostByStep(m, a);
      NoneLostStep(states, actions, n - 1);
    }
  }

  /**
   * Every asynchronous update calls back at most once. When the jobs have drained, every one has
   * called back exactly once if and only if no step settled a waiting call whose owner was gone.
   */
  lemma CallbackDelivery(states: seq<Sessions>, actions: seq<Action>, n: nat)
    requires IsRun(states, actions) && n < |states|
    ensures forall c :: 0 <= c < |states[n].shared.invoked| ==> states[n].shared.invoked[c] <= 1
    ensures states[n].shared.jobs == map[] ==>
      ((forall c :: 0 <= c < |states[n].shared.invoked| ==> states[n].shared.invoked[c] == 1)
        <==> NoneLostUntil(states, actions, n))
  {
    RunInv(states, actions, n);
    LostInRun(states, actions, n);
    var h := states[n].shared;
    if h.jobs == map[] {
      forall c | 0 <= c < |h.invoked| ensures h.invoked[c] == 1 <==> c !in h.lost {
        assert !HasJob(Outside(h), c);
      }
    }
  }

  // ---- the last update shows its own result ----

  /** No update goes to context `c` from action `k` to action `n`. */
  predicate NoUpdate(actions: seq<Action>, c: nat, k: nat, n: nat)
    requires k <= n <= |actions|
  {
    forall i :: k <= i < n && actions[i].Within? && actions[i].context == c ==> !FromCaller(actions[i].step)
  }

  /** Every job with this call belongs to context `c` and asks for this user. */
  ghost predicate Carried(m: Sessions, c: nat, call: nat, user: User) {
    && c < |m.contexts| && m.contexts[c].user == user && call < |m.shared.invoked|
    && forall j :: j in m.shared.jobs && CallOf(m.shared.jobs[j]) == Some(call) ==>
         j in m.owner && m.owner[j] == c && Requester(m.shared.jobs[j], user) == user
  }

  lemma CarriedFromUpdate(m: Sessions, c: nat, given: User, victim: Option<string>)
    requires CallsInv(m) && Enabled(m, Within(c, UpdateAsync(given, victim)))
    ensures var user := NormalizeUser(given, m.contexts[c].env.environment);
      Carried(Apply(m, Within(c, UpdateAsync(given, victim))), c, |m.shared.invoked|, user)
  {
    var h := m.shared;
    forall j | j in h.jobs ensures CallOf(h.jobs[j]) != Some(|h.invoked|) {
      assert CallOf(h.jobs[j]).Some? ==> Waiting(Outside(h), CallOf(h.jobs[j]).value);
    }
  }

  /** A step of another context, or of a job, keeps what belongs to the call. */
  lemma CarriedStep(m: Sessions, a: Action, c: nat, call: nat, user: User)
    requires CallsInv(m) && Enabled(m, a) && Carried(m, c, call, user)
    requires a.Within? && a.context == c ==> !FromCaller(a.step)
    ensures Carried(Apply(m, a), c, call, user)
  {
    if a.Within? {
      if FromCaller(a.step) {
        CarriedBesideUpdate(m, a, c, call, user);
      } else {
        CarriedByJob(m, a, c, call, user);
      }
    }
  }

  lemma CarriedByJob(m: Sessions, a: Action, c: nat, call: nat, user: User)
    requires CallsInv(m) && Enabled(m, a) && Carried(m, c, call, user)
    requires a.Within? && !FromCaller(a.step)
    ensures Carried(Apply(m, a), c, call, user)
  {
    var env, s, t := m.contexts[a.context].env, Focus(m, a.context), Apply(m, a);
    SuccessorSame(env, s, a.step);
    ShownByStep(env, s, a.step);
    JobsAfter(env, s, a.step);
    forall j | j in t.shared.jobs && CallOf(t.shared.jobs[j]) == Some(call)
      ensures j in t.owner && t.owner[j] == c && Requester(t.shared.jobs[j], user) == user
    {
      if j == s.nextJob { assert CallOf(m.shared.jobs[a.step.job]) == Some(call); }
    }
  }

  lemma CarriedBesideUpdate(m: Sessions, a: Action, c: nat, call: nat, user: User)
    requires CallsInv(m) && Enabled(m, a) && Carried(m, c, call, user)
    requires a.Within? && a.context != c && FromCaller(a.step)
    ensures Carried(Apply(m, a), c, call, user)
  {
  }

  lemma {:induction false} CarriedInRun(states: seq<Sessions>, actions: seq<Action>, k: nat, n: nat, c: nat, given: User, victim: Option<string>)
    requires IsRun(states, actions) && k < n < |states| && NoUpdate(actions, c, k + 1, n)
    requires actions[k] == Within(c, UpdateAsync(given, victim))
    ensures var user := NormalizeUser(given, states[k].contexts[c].env.environment);
      Carried(states[n], c, |states[k].shared.invoked|, user)
    ensures states[n].contexts[c].env == states[k].contexts[c].env
  {
    RunInv(states, actions, n - 1);
    if n == k + 1 {
      CarriedFromUpdate(states[k], c, given, victim);
    } else {
      CarriedInRun(states, actions, k, n - 1, c, given, victim);
      CarriedStep(states[n - 1], actions[n - 1], c, |states[k].shared.invoked|,
                  NormalizeUser(given, states[k].contexts[c].env.environment));
    }
  }

  predicate InvokedBetween(m: Sessions, t: Sessions, call: nat) {
    call < |m.shared.invoked| && call < |t.shared.invoked| && t.shared.invoked[call] != m.shared.invoked[call]
  }

  /** The action is a step of the job with this call in context `c`, and shows exactly its result. */
  ghost predicate Answers(m: Sessions, a: Action, t: Sessions, c: nat, call: nat) {
    && a.Within? && a.context == c && Enabled(m, a) && c < |t.contexts|
    && !FromCaller(a.step) && CallOf(m.shared.jobs[a.step.job]) == Some(call)
    && var x, result := m.contexts[c], ResultOf(m.contexts[c].env, Focus(m, c), a.step);
       && result.Some?
       && t.contexts[c].store
          == Finalized(if result.value.code == Ok then WithResult(x.store, x.env.parse, result.value.value) else x.store)
  }

  /**
   * Suppose the asynchronous update of action `k` is the last of its context until its call is
   * answered by action `n`, while anything else goes on: jobs of earlier updates, updates of other
   * contexts, replacements. Then the store shows exactly the result that the call is answered with,
   * or, if this is an error or does not parse, what it showed before.
   */
  lemma LastUpdateShows(states: seq<Sessions>, actions: seq<Action>, k: nat, n: nat, c: nat, given: User, victim: Option<string>)
    requires IsRun(states, actions) && k < n < |actions| && NoUpdate(actions, c, k + 1, n + 1)
    requires actions[k] == Within(c, UpdateAsync(given, victim))
    requires InvokedBetween(states[n], states[n + 1], |states[k].shared.invoked|)
    ensures Answers(states[n], actions[n], states[n + 1], c, |states[k].shared.invoked|)
  {
    RunInv(states, actions, n);
    CarriedInRun(states, actions, k, n, c, given, victim);
    AnswersCall(states[n], actions[n], c, |states[k].shared.invoked|,
                NormalizeUser(given, states[k].contexts[c].env.environment));
  }

  lemma AnswersCall(m: Sessions, a: Action, c: nat, call: nat, user: User)
    requires CallsInv(m) && Enabled(m, a) && Carried(m, c, call, user) && InvokedBetween(m, Apply(m, a), call)
    requires a.Within? && a.context == c ==> !FromCaller(a.step)
    ensures Answers(m, a, Apply(m, a), c, call)
  {
    InvokedByJob(m, a, call);
    ShownByStep(m.contexts[a.context].env, Focus(m, a.context), a.step);
  }

  /** A call is invoked only by a step of its own job. */
  lemma InvokedByJob(m: Sessions, a: Action, call: nat)
    requires CallsInv(m) && Enabled(m, a) && InvokedBetween(m, Apply(m, a), call)
    ensures a.Within? && !FromCaller(a.step) && CallOf(m.shared.jobs[a.step.job]) == Some(call)
    ensures ResultOf(m.contexts[a.context].env, Focus(m, a.context), a.step).Some? && a.step.alive
  {
    if a.Within? && !FromCaller(a.step) { ShownByStep(m.contexts[a.context].env, Focus(m, a.context), a.step); }
  }

  // ---- the jobs run out ----

  predicate FromOutside(a: Action) {
    a.Initialize? || FromCaller(a.step)
  }

  lemma ProgressAt(states: seq<Sessions>, actions: seq<Action>, i: nat)
    requires IsRun(states, actions) && i < |actions| && !FromOutside(actions[i])
    ensures Work(states[i + 1].shared.jobs) < Work(states[i].shared.jobs)
  {
    RunInv(states, actions, i);
    var m, a := states[i], actions[i];
    CallsSame(Outside(m.shared), Focus(m, a.context));
    JobStepIsProgress(m.contexts[a.context].env, Focus(m, a.context), a.step);
  }

  /**
   * Once calls from outside cease, the jobs run out: from state `m` on there are at most three steps
   * for every job of that state.
   */
  lemma {:induction false} JobsRunOut(states: seq<Sessions>, actions: seq<Action>, m: nat, n: nat)
    requires IsRun(states, actions) && m <= n < |states|
    requires forall i :: m <= i < n ==> !FromOutside(actions[i])
    ensures n - m + Work(states[n].shared.jobs) <= Work(states[m].shared.jobs) <= 3 * |states[m].shared.jobs|
  {
    if m < n {
      JobsRunOut(states, actions, m, n - 1);
      ProgressAt(states, actions, n - 1);
    }
  }

  /** A job can always take its next step without losing its call, so a run that cannot go on has no jobs. */
  lemma JobsNeverStuck(states: seq<Sessions>, actions: seq<Action>, n: nat, j: nat, response: Response, now: Timestamp)
    returns (a: Action)
    requires IsRun(states, actions) && n < |states| && j in states[n].shared.jobs
    ensures Enabled(states[n], a) && !FromOutside(a) && a.step.job == j && !LosesCall(states[n], a)
  {
    RunInv(states, actions, n);
    var c := states[n].owner[j];
    var step := JobCanStep(states[n].contexts[c].env, Focus(states[n], c), j, response, now);
    a := Within(c, step);
  }
}
