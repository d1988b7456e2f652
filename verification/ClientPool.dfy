/**
 * The jobs of the client on top of the worker pool: an update adds a task, a worker that runs it takes
 * the steps of its job, and a file write is a task of its own. All steps of pool and client interleave.
 */
module ClientPool {
  import opened Wrappers
  import opened UserKeys
  import opened EvaluationStore
  import opened MemoryCache
  import opened NetworkService
  import opened DataAdapter
  import opened PoolProtocol
  import C = ClientProtocol
  import T = ClientTheorems
  import S = ClientSessions
  import P = PoolTheorems

  datatype Task = Refresh(job: nat) | WriteFile(job: nat) | Other

  /**
   * `task` is the position of the pool task that a job belongs to, and `callTask` that of the task
   * with which a call began.
   */
  datatype Client = Client(pool: Pool<Task>, sessions: S.Sessions, task: map<nat, nat>, callTask: seq<nat>)

  /** `caller` is the worker whose task makes the call, or none for a thread outside the pool. */
  datatype Step =
    | Initialize(env: C.Env, user: User)
    | Update(update: C.Step, caller: Option<WorkerId>)
    | Work(w: WorkerId, step: C.Step)
    | PoolStep(action: Action<Task>)

  /** Steps of the pool alone; a task returns only when no job has a step left in it. */
  predicate Internal(s: Client, a: Action<Task>) {
    match a
    case Add(task) => task == Other
    case AddFrom(_, task) => task == Other
    case Finish(w) =>
      IsRunning(s.pool, w) ==>
        forall j :: j in s.sessions.shared.jobs && j in s.task ==> s.task[j] != s.pool.workers[w].task
    case _ => true
  }

  function Current(m: S.Sessions): nat {
    if m.contexts == [] then 0 else |m.contexts| - 1
  }

  /** The action of the client that a step performs. */
  function ActionOf(s: Client, step: Step): S.Action
    requires step.Update? || (step.Work? && !T.FromCaller(step.step))
  {
    if step.Update? then S.Within(Current(s.sessions), step.update)
    else S.Within(if step.step.job in s.sessions.owner then s.sessions.owner[step.step.job] else 0, step.step)
  }

  predicate Enabled(s: Client, step: Step) {
    match step
    case Initialize(_, _) => true
    case Update(update, caller) =>
      T.FromCaller(update) && S.Enabled(s.sessions, ActionOf(s, step)) && CanAdd(s.pool, caller)
    case Work(w, step') =>
      && !T.FromCaller(step') && S.Enabled(s.sessions, ActionOf(s, step)) && IsRunning(s.pool, w) && !s.pool.broken
      && step'.job in s.task && s.task[step'.job] == s.pool.workers[w].task
      && (Writes(s, S.Apply(s.sessions, ActionOf(s, step))) ==> s.pool.mutex.None?)
    case PoolStep(a) => PoolProtocol.Enabled(s.pool, a) && Internal(s, a)
  }

  /** The step has turned its job into a file write. */
  predicate Writes(s: Client, m: S.Sessions) {
    s.sessions.shared.nextJob in m.shared.jobs && m.shared.jobs[s.sessions.shared.nextJob].Writing?
  }

  function WorkStep(s: Client, w: WorkerId, position: nat, m: S.Sessions): Client {
    var id := s.sessions.shared.nextJob;
    if Writes(s, m) then s.(sessions := m, pool := Push(s.pool, WriteFile(id), false), task := s.task[id := |s.pool.added|])
    else s.(sessions := m, task := s.task[id := position])
  }

  function UpdateStep(s: Client, update: C.Step, outside: bool, m: S.Sessions): Client {
    var id := s.sessions.shared.nextJob;
    s.(sessions := m, pool := Push(s.pool, Refresh(id), outside), task := s.task[id := |s.pool.added|],
       callTask := if update.UpdateAsync? then s.callTask + [|s.pool.added|] else s.callTask)
  }

  function Apply(s: Client, step: Step): Client
    requires Enabled(s, step)
  {
    match step
    case Initialize(env, user) => s.(sessions := S.Apply(s.sessions, S.Initialize(env, user)))
    case Update(update, caller) => UpdateStep(s, update, caller.None?, S.Apply(s.sessions, ActionOf(s, step)))
    case Work(w, step') => WorkStep(s, w, s.task[step'.job], S.Apply(s.sessions, ActionOf(s, step)))
    case PoolStep(a) => s.(pool := PoolProtocol.Apply(s.pool, a))
  }

  // ---- every job has a task that has not returned ----

  /** A file write was added by a worker; any other job is still in the task of its update. */
  ghost predicate PlacedJob(s: Client, j: nat)
    requires j in s.sessions.shared.jobs
  {
    var job := s.sessions.shared.jobs[j];
    && j in s.task && s.task[j] < |s.pool.added| && s.task[j] !in s.pool.finished
    && (job.Writing? ==> s.task[j] !in s.pool.late)
    && (!job.Writing? && C.CallOf(job).Some? ==>
          C.CallOf(job).value < |s.callTask| && s.callTask[C.CallOf(job).value] == s.task[j])
  }

  ghost predicate Placed(s: Client) {
    && |s.callTask| == |s.sessions.shared.invoked|
    && forall j :: j in s.sessions.shared.jobs ==> PlacedJob(s, j)
  }

  lemma ActionKeepsCalls(s: Client, step: Step)
    requires S.CallsInv(s.sessions) && Enabled(s, step)
    ensures S.CallsInv(Apply(s, step).sessions)
  {
    match step {
      case Initialize(env, user) => S.CallsInvStep(s.sessions, S.Initialize(env, user));
      case Update(_, _) => S.CallsInvStep(s.sessions, ActionOf(s, step));
      case Work(_, _) => S.CallsInvStep(s.sessions, ActionOf(s, step));
      case PoolStep(_) =>
    }
  }

  /** What an update does to the jobs and calls. */
  lemma UpdateJobs(m: S.Sessions, a: S.Action)
    requires S.Enabled(m, a) && a.Within? && T.FromCaller(a.step)
    ensures var h, g := m.shared, S.Apply(m, a).shared;
      && h.nextJob in g.jobs && g.jobs == h.jobs[h.nextJob := g.jobs[h.nextJob]] && !g.jobs[h.nextJob].Writing?
      && g.invoked == (if a.step.UpdateAsync? then h.invoked + [0] else h.invoked)
      && C.CallOf(g.jobs[h.nextJob]) == if a.step.UpdateAsync? then Some(|h.invoked|) else None
  {
  }

  lemma PlacedUpdate(s: Client, step: Step)
    requires Inv(s.pool) && S.CallsInv(s.sessions) && Placed(s) && step.Update? && Enabled(s, step)
    ensures Placed(Apply(s, step))
  {
    var t := Apply(s, step);
    UpdateJobs(s.sessions, ActionOf(s, step));
    var id := s.sessions.shared.nextJob;
    assert |s.pool.added| !in s.pool.finished;
    forall j | j in t.sessions.shared.jobs ensures PlacedJob(t, j) {
      if j != id {
        assert PlacedJob(s, j);
        PlacedBeside(s, t, j);
      }
    }
  }

  /** A job that the step does not concern stays where it is. */
  lemma PlacedBeside(s: Client, t: Client, j: nat)
    requires j in s.sessions.shared.jobs && PlacedJob(s, j)
    requires j in t.sessions.shared.jobs && t.sessions.shared.jobs[j] == s.sessions.shared.jobs[j]
    requires j in t.task && t.task[j] == s.task[j] && s.callTask <= t.callTask && s.pool.added <= t.pool.added
    requires t.pool.finished == s.pool.finished && forall i :: i in t.pool.late ==> i in s.pool.late || i >= |s.pool.added|
    ensures PlacedJob(t, j)
  {
  }

  /** What a step of a job does to the jobs and calls. */
  lemma WorkJobs(m: S.Sessions, a: S.Action)
    requires S.CallsInv(m) && S.Enabled(m, a) && a.Within? && !T.FromCaller(a.step)
    ensures var h, g := m.shared, S.Apply(m, a).shared;
      && |g.invoked| == |h.invoked|
      && (forall j :: j in g.jobs && j != h.nextJob ==> j in h.jobs && g.jobs[j] == h.jobs[j])
      && (h.nextJob in g.jobs ==> C.CallOf(g.jobs[h.nextJob]) == C.CallOf(h.jobs[a.step.job]))
      && h.nextJob !in h.jobs && a.step.job in h.jobs && (h.jobs[a.step.job].Writing? ==> h.nextJob !in g.jobs)
  {
    var env, s := m.contexts[a.context].env, S.Focus(m, a.context);
    T.JobsAfter(env, s, a.step);
    T.SuccessorSame(env, s, a.step);
    T.ShownByStep(env, s, a.step);
  }

  lemma PlacedWork(s: Client, step: Step)
    requires Inv(s.pool) && S.CallsInv(s.sessions) && Placed(s) && step.Work? && Enabled(s, step)
    ensures Placed(Apply(s, step))
  {
    var t, id := Apply(s, step), s.sessions.shared.nextJob;
    WorkJobs(s.sessions, ActionOf(s, step));
    assert PlacedJob(s, step.step.job);
    forall j | j in t.sessions.shared.jobs ensures PlacedJob(t, j) {
      if j != id { assert PlacedJob(s, j); }
    }
  }

  /** A step of the pool makes only new tasks late, and finishes only a task without jobs. */
  lemma PlacedPool(s: Client, a: Action<Task>)
    requires Inv(s.pool) && Placed(s) && PoolProtocol.Enabled(s.pool, a) && Internal(s, a)
    ensures Placed(s.(pool := PoolProtocol.Apply(s.pool, a)))
  {
    var t := s.(pool := PoolProtocol.Apply(s.pool, a));
    P.StepExtendsHistory(s.pool, a);
    assert forall i :: i in t.pool.finished ==> i in s.pool.finished || (a.Finish? && i == s.pool.workers[a.w].task);
    forall j | j in t.sessions.shared.jobs ensures PlacedJob(t, j) {
      assert PlacedJob(s, j);
    }
  }

  lemma PlacedStep(s: Client, step: Step)
    requires Inv(s.pool) && S.CallsInv(s.sessions) && Placed(s) && Enabled(s, step)
    ensures Placed(Apply(s, step))
  {
    match step {
      case Initialize(_, _) =>
        forall j | j in s.sessions.shared.jobs ensures PlacedJob(Apply(s, step), j) { assert PlacedJob(s, j); }
      case Update(_, _) => PlacedUpdate(s, step);
      case Work(_, _) => PlacedWork(s, step);
      case PoolStep(a) => PlacedPool(s, a);
    }
  }

  // ---- what the caller of the pool knows ----

  function Learn(known: P.Known, s: Client, step: Step): P.Known {
    if step.PoolStep? then P.Learn(known, s.pool, step.action) else known
  }

  function KnownAt(states: seq<Client>, steps: seq<Step>, n: nat): P.Known
    requires n <= |steps| <= |states|
  {
    if n == 0 then P.Settled else Learn(KnownAt(states, steps, n - 1), states[n - 1], steps[n - 1])
  }

  /** The pool is started with workers, and left alone once a shutdown of it has returned false. */
  predicate ProperUntil(states: seq<Client>, steps: seq<Step>, n: nat)
    requires n <= |steps| <= |states|
  {
    forall i :: 0 <= i < n && steps[i].PoolStep? ==>
      P.Proper(KnownAt(states, steps, i), states[i].pool, steps[i].action)
  }

  lemma PoolKeeps(known: P.Known, s: Client, step: Step)
    requires Inv(s.pool) && P.Justified(known, s.pool) && Enabled(s, step)
    requires step.PoolStep? ==> P.Proper(known, s.pool, step.action)
    ensures Inv(Apply(s, step).pool) && P.Justified(Learn(known, s, step), Apply(s, step).pool)
  {
    match step {
      case Initialize(_, _) =>
      case Update(_, caller) => P.PushKeeps(known, s.pool, Refresh(s.sessions.shared.nextJob), caller);
      case Work(w, _) =>
        if Writes(s, S.Apply(s.sessions, ActionOf(s, step))) {
          P.PushKeeps(known, s.pool, WriteFile(s.sessions.shared.nextJob), Some(w));
        }
      case PoolStep(a) =>
        StepKeepsInv(s.pool, a);
        P.JustifiedStep(known, s.pool, a);
    }
  }

  // ---- whole runs ----

  predicate IsStart(s: Client) {
    s.pool == Initial<Task>() && S.IsStart(s.sessions) && s.task == map[] && s.callTask == []
  }

  ghost predicate IsRun(states: seq<Client>, steps: seq<Step>) {
    && |states| == |steps| + 1
    && IsStart(states[0])
    && forall i :: 0 <= i < |steps| ==> Enabled(states[i], steps[i]) && states[i + 1] == Apply(states[i], steps[i])
  }

  ghost predicate ClientInv(known: P.Known, s: Client) {
    Inv(s.pool) && P.Justified(known, s.pool) && S.CallsInv(s.sessions) && Placed(s)
  }

  lemma {:induction false} RunInv(states: seq<Client>, steps: seq<Step>, n: nat)
    requires IsRun(states, steps) && n < |states| && ProperUntil(states, steps, n)
    ensures ClientInv(KnownAt(states, steps, n), states[n])
  {
    if n == 0 {
      InitialInv<Task>();
    } else {
      var s, step := states[n - 1], steps[n - 1];
      RunInv(states, steps, n - 1);
      PoolKeeps(KnownAt(states, steps, n - 1), s, step);
      ActionKeepsCalls(s, step);
      PlacedStep(s, step);
    }
  }

  /**
   * When a shutdown of the pool is about to return true, every call is answered or lost, except those
   * of updates that an outside thread made after the flag was cleared: every other job has come to
   * its end, through retries, file writes and all.
   */
  lemma ShutdownSettlesCalls(states: seq<Client>, steps: seq<Step>, n: nat)
    requires IsRun(states, steps) && n < |states| && ProperUntil(states, steps, n)
    requires PoolProtocol.Enabled(states[n].pool, Join)
    ensures var s := states[n];
      && |s.callTask| == |s.sessions.shared.invoked|
      && (forall c :: 0 <= c < |s.callTask| && s.callTask[c] !in s.pool.late ==>
            (s.sessions.shared.invoked[c] == 1) != (c in s.sessions.shared.lost))
      && (forall j :: j in s.sessions.shared.jobs ==> j in s.task && s.task[j] in s.pool.late)
  {
    RunInv(states, steps, n);
    var s := states[n];
    P.Drained(KnownAt(states, steps, n), s.pool);
    forall j | j in s.sessions.shared.jobs ensures j in s.task && s.task[j] in s.pool.late && !s.sessions.shared.jobs[j].Writing? {
      assert PlacedJob(s, j);
    }
    var h := s.sessions.shared;
    forall c | 0 <= c < |s.callTask| && s.callTask[c] !in s.pool.late ensures (h.invoked[c] == 1) != (c in h.lost) {
      SettledCall(s, c);
    }
  }

  lemma SettledCall(s: Client, c: nat)
    requires S.CallsInv(s.sessions) && Placed(s) && c < |s.callTask| && s.callTask[c] !in s.pool.late
    requires forall j :: j in s.sessions.shared.jobs ==>
      j in s.task && s.task[j] in s.pool.late && !s.sessions.shared.jobs[j].Writing?
    ensures (s.sessions.shared.invoked[c] == 1) != (c in s.sessions.shared.lost)
  {
    var outside := S.Outside(s.sessions.shared);
    forall j | j in outside.jobs ensures C.CallOf(outside.jobs[j]) != Some(c) {
      assert PlacedJob(s, j);
    }
    assert !T.HasJob(outside, c);
  }

  // ---- and nothing lost ----

  predicate LosesCall(s: Client, step: Step)
    requires Enabled(s, step)
  {
    step.Work? && S.LosesCall(s.sessions, ActionOf(s, step))
  }

  lemma LostOnlyByWork(s: Client, step: Step)
    requires S.CallsInv(s.sessions) && Enabled(s, step) && !LosesCall(s, step)
    ensures Apply(s, step).sessions.shared.lost == s.sessions.shared.lost
  {
    match step {
      case Initialize(_, _) =>
      case Update(_, _) => S.LostByStep(s.sessions, ActionOf(s, step));
      case Work(_, _) => S.LostByStep(s.sessions, ActionOf(s, step));
      case PoolStep(_) =>
    }
  }

  lemma {:induction false} NoneLost(states: seq<Client>, steps: seq<Step>, n: nat)
    requires IsRun(states, steps) && n < |states| && ProperUntil(states, steps, n)
    requires forall i :: 0 <= i < n ==> !LosesCall(states[i], steps[i])
    ensures states[n].sessions.shared.lost == {}
  {
    if n > 0 {
      NoneLost(states, steps, n - 1);
      RunInv(states, steps, n - 1);
      LostOnlyByWork(states[n - 1], steps[n - 1]);
    }
  }

  /** If moreover everything stayed alive, each of these calls was answered exactly once. */
  lemma ShutdownAnswersCalls(states: seq<Client>, steps: seq<Step>, n: nat)
    requires IsRun(states, steps) && n < |states| && ProperUntil(states, steps, n)
    requires PoolProtocol.Enabled(states[n].pool, Join)
    requires forall i :: 0 <= i < n ==> !LosesCall(states[i], steps[i])
    ensures var s := states[n];
      |s.callTask| == |s.sessions.shared.invoked|
      && forall c :: 0 <= c < |s.callTask| && s.callTask[c] !in s.pool.late ==> s.sessions.shared.invoked[c] == 1
  {
    ShutdownSettlesCalls(states, steps, n);
    NoneLost(states, steps, n);
  }
}
