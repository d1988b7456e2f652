/**
 * The way of an event: buffer, batch, pool task, request with retries, and then either the server or
 * the failed-event file. The logger is composed with the pool protocol; all their steps interleave.
 */
module Pipeline {
  import opened Wrappers
  import opened UserKeys
  import opened EventCodec
  import opened EventLogger
  import opened PoolProtocol
  import PoolTheorems
  import D = Diagnostics
  import N = NetworkService

  /**
   * `enqueued` and `accepted` are all events and markers taken so far. Of the batches, named by the
   * position of their task: those answered with a 2xx, those handed to the failed-event file with the
   * position of the task that writes it, and those that found their logger or network gone. `sealed`
   * is taken when the logger shuts down: the number of events and the number of tasks until then.
   */
  datatype Pipeline = Pipeline(
    pool: Pool<Task>,
    logger: Logger,
    maxBufferSize: int,
    enqueued: seq<Event>,
    accepted: seq<D.Marker>,
    delivered: set<nat>,
    handed: map<nat, nat>,
    dropped: set<nat>,
    sealed: Option<(nat, nat)>)

  /** `caller` is the worker whose task makes the call, or none for a thread outside the pool. */
  datatype Step =
    | Enqueue(event: Event, caller: Option<WorkerId>, now: int)
    | Flush(caller: Option<WorkerId>, now: int)
    | LoggerShutdown(now: int)
    | Mark(marker: D.Marker)
    | SetUser(user: User)
    | Send(w: WorkerId, server: N.Server, alive: bool, callbackAlive: bool)
    | PoolStep(action: Action<Task>)

  /** The batch that worker `w` is sending. */
  predicate Sending(s: Pipeline, w: WorkerId) {
    && IsRunning(s.pool, w)
    && s.pool.workers[w].task < |s.pool.added|
    && s.pool.added[s.pool.workers[w].task].SendBatch?
  }

  predicate Decided(s: Pipeline, batch: nat) {
    batch in s.delivered || batch in s.handed || batch in s.dropped
  }

  /** Steps of the pool alone: a batch task ends only when its fate is decided. */
  predicate Internal(s: Pipeline, a: Action<Task>) {
    match a
    case Add(task) => task == Other
    case AddFrom(_, task) => task == Other
    case Finish(w) => Sending(s, w) ==> Decided(s, s.pool.workers[w].task)
    case _ => true
  }

  predicate Enabled(s: Pipeline, step: Step) {
    match step
    case Enqueue(_, caller, _) => CanAdd(s.pool, caller)
    case Flush(caller, _) => CanAdd(s.pool, caller)
    case LoggerShutdown(_) => CanAdd(s.pool, None)
    case Mark(_) => true
    case SetUser(_) => true
    case Send(w, server, alive, callbackAlive) =>
      && !s.pool.broken && Sending(s, w) && !Decided(s, s.pool.workers[w].task)
      && (Saves(server, alive, callbackAlive) ==> CanAdd(s.pool, Some(w)))
    case PoolStep(a) => PoolProtocol.Enabled(s.pool, a) && Internal(s, a)
  }

  function FlushStep(s: Pipeline, outside: bool, now: int): Pipeline {
    s.(logger := Emptied(s.logger), pool := Submitted(s.pool, FlushedBatch(s.logger, now), outside))
  }

  /** The request failed and there is a logger to save the batch, which adds a task. */
  predicate Saves(server: N.Server, alive: bool, callbackAlive: bool) {
    alive && callbackAlive && !N.IsSuccess(server(N.FinalAttempt(server, N.LOG_EVENT_RETRY_COUNT, 1)).status)
  }

  /** The fate of a batch: a 2xx delivers it, anything else hands it to the failed-event file. */
  function SendStep(s: Pipeline, w: WorkerId, server: N.Server, alive: bool, callbackAlive: bool): Pipeline
    requires Sending(s, w)
  {
    var batch := s.pool.workers[w].task;
    var final := N.FinalAttempt(server, N.LOG_EVENT_RETRY_COUNT, 1);
    if !alive then s.(dropped := s.dropped + {batch})
    else if N.IsSuccess(server(final).status) then s.(delivered := s.delivered + {batch})
    else if !callbackAlive then s.(dropped := s.dropped + {batch})
    else s.(handed := s.handed[batch := |s.pool.added|], pool := Push(s.pool, SaveBatch(batch), false))
  }

  function Apply(s: Pipeline, step: Step): Pipeline
    requires Enabled(s, step)
  {
    match step
    case Enqueue(e, caller, now) =>
      var r := Enqueued(s.logger, e, s.maxBufferSize, now);
      s.(logger := r.0, pool := Submitted(s.pool, r.1, caller.None?), enqueued := s.enqueued + [e])
    case Flush(caller, now) => FlushStep(s, caller.None?, now)
    case LoggerShutdown(now) =>
      var t := FlushStep(s, true, now);
      // the flush counts as final only for a pool that is running
      if s.pool.running then t.(sealed := Some((|t.enqueued|, |t.pool.added|))) else t
    case Mark(m) =>
      s.(logger := s.logger.(markers := D.Marked(s.logger.markers, m)),
         accepted := if D.Marked(s.logger.markers, m) == s.logger.markers then s.accepted else s.accepted + [m])
    case SetUser(user) => s.(logger := s.logger.(user := user))
    case Send(w, server, alive, callbackAlive) => SendStep(s, w, server, alive, callbackAlive)
    case PoolStep(a) => s.(pool := PoolProtocol.Apply(s.pool, a))
  }

  function Start(maxBufferSize: int): Pipeline {
    Pipeline(Initial<Task>(), Logger([], [], DEFAULT_USER), maxBufferSize, [], [], {}, map[], {}, None)
  }

  // ---- events in batches ----

  function BatchItems(tasks: seq<Task>): seq<Item> {
    if tasks == [] then []
    else
      var front, last := BatchItems(tasks[..|tasks| - 1]), tasks[|tasks| - 1];
      if last.SendBatch? then front + last.items else front
  }

  function LoggedOf(items: seq<Item>): seq<Event> {
    if items == [] then []
    else
      var front, last := LoggedOf(items[..|items| - 1]), items[|items| - 1];
      if last.Logged? then front + [last.event] else front
  }

  function MarkersOf(items: seq<Item>): seq<D.Marker> {
    if items == [] then []
    else
      var front, last := MarkersOf(items[..|items| - 1]), items[|items| - 1];
      if last.DiagnosticsEvent? then front + last.markers else front
  }

  /** Everything on its way: the batches in the order of the pool's queue, then the buffer. */
  function OnTheWay(s: Pipeline): seq<Item> {
    BatchItems(s.pool.added) + s.logger.buffer
  }

  lemma BatchItemsPush(tasks: seq<Task>, task: Task)
    ensures BatchItems(tasks + [task]) == BatchItems(tasks) + if task.SendBatch? then task.items else []
  {
    assert (tasks + [task])[..|tasks|] == tasks;
  }

  lemma LoggedPush(items: seq<Item>, item: Item)
    ensures LoggedOf(items + [item]) == LoggedOf(items) + if item.Logged? then [item.event] else []
    ensures MarkersOf(items + [item]) == MarkersOf(items) + if item.DiagnosticsEvent? then item.markers else []
  {
    assert (items + [item])[..|items|] == items;
  }

  // ---- the invariants ----

  /** No event or marker is lost, duplicated or reordered on its way. */
  ghost predicate Conserved(s: Pipeline) {
    && LoggedOf(OnTheWay(s)) == s.enqueued
    && MarkersOf(OnTheWay(s)) + s.logger.markers == s.accepted
    && |s.logger.markers| <= D.MAX_DIAGNOSTICS_MARKERS + 1
    && (0 <= s.maxBufferSize ==> |s.logger.buffer| <= s.maxBufferSize)
  }

  predicate IsBatch(s: Pipeline, i: nat) {
    i < |s.pool.added| && s.pool.added[i].SendBatch?
  }

  /** A finished batch has one fate, and a failed one a task that writes it to the file. */
  ghost predicate Fates(s: Pipeline) {
    && (forall i :: i in s.delivered ==> IsBatch(s, i) && i !in s.handed && i !in s.dropped)
    && (forall i :: i in s.dropped ==> IsBatch(s, i) && i !in s.handed)
    && (forall i :: i in s.handed ==>
          && IsBatch(s, i)
          && s.handed[i] < |s.pool.added| && s.pool.added[s.handed[i]] == SaveBatch(i)
          && s.handed[i] !in s.pool.late)
    && (forall i :: i in s.pool.finished && IsBatch(s, i) ==> Decided(s, i))
  }

  /** The final flush left every event before it in a batch that was added while the flag was set. */
  ghost predicate Sealed(s: Pipeline) {
    s.sealed.Some? ==>
      var (n, c) := s.sealed.value;
      && n <= |s.enqueued| && c <= |s.pool.added|
      && LoggedOf(BatchItems(s.pool.added[..c])) == s.enqueued[..n]
      && forall i :: i in s.pool.late ==> i >= c
  }

  ghost predicate PipelineInv(s: Pipeline) {
    Inv(s.pool) && Conserved(s) && Fates(s) && (!s.pool.tainted ==> Sealed(s))
  }

  // ---- each part is kept ----

  /** The diagnostics event takes over the markers and hides no logged event. */
  lemma DiagnosticsConserve(s: Pipeline, now: int)
    requires LoggedOf(OnTheWay(s)) == s.enqueued
    requires MarkersOf(OnTheWay(s)) + s.logger.markers == s.accepted
    ensures LoggedOf(BatchItems(s.pool.added) + WithDiagnostics(s.logger, now)) == s.enqueued
    ensures MarkersOf(BatchItems(s.pool.added) + WithDiagnostics(s.logger, now)) == s.accepted
  {
    if s.logger.markers != [] {
      var d := DiagnosticsEvent(now, s.logger.user, s.logger.markers);
      LoggedPush(OnTheWay(s), d);
      assert BatchItems(s.pool.added) + WithDiagnostics(s.logger, now) == OnTheWay(s) + [d];
    }
  }

  lemma FlushConserves(s: Pipeline, outside: bool, now: int)
    requires LoggedOf(OnTheWay(s)) == s.enqueued
    requires MarkersOf(OnTheWay(s)) + s.logger.markers == s.accepted
    ensures Conserved(FlushStep(s, outside, now))
  {
    DiagnosticsConserve(s, now);
    var items := WithDiagnostics(s.logger, now);
    assert OnTheWay(FlushStep(s, outside, now)) == BatchItems(s.pool.added) + items by {
      if items != [] {
        BatchItemsPush(s.pool.added, SendBatch(items));
      }
    }
  }

  lemma EnqueueConserves(s: Pipeline, e: Event, caller: Option<WorkerId>, now: int)
    requires Conserved(s) && CanAdd(s.pool, caller)
    ensures Conserved(Apply(s, Enqueue(e, caller, now)))
  {
    var a := s.(logger := Appended(s.logger, e), enqueued := s.enqueued + [e]);
    LoggedPush(OnTheWay(s), Logged(e));
    assert OnTheWay(a) == OnTheWay(s) + [Logged(e)];
    if Exceeds(|a.logger.buffer|, s.maxBufferSize) {
      FlushConserves(a, caller.None?, now);
      assert Apply(s, Enqueue(e, caller, now)) == FlushStep(a, caller.None?, now);
    }
  }

  lemma MarkConserves(s: Pipeline, m: D.Marker)
    requires Conserved(s)
    ensures Conserved(Apply(s, Mark(m)))
  {
  }

  lemma OtherTaskConserves(s: Pipeline, task: Task, outside: bool)
    requires Conserved(s) && !task.SendBatch?
    ensures Conserved(s.(pool := Push(s.pool, task, outside)))
  {
    BatchItemsPush(s.pool.added, task);
  }

  lemma PoolStepConserves(s: Pipeline, a: Action<Task>)
    requires Conserved(s) && PoolProtocol.Enabled(s.pool, a) && Internal(s, a)
    ensures Conserved(s.(pool := PoolProtocol.Apply(s.pool, a)))
  {
    match a {
      case Add(task) => OtherTaskConserves(s, task, true);
      case AddFrom(_, task) => OtherTaskConserves(s, task, false);
      case _ => assert PoolProtocol.Apply(s.pool, a).added == s.pool.added;
    }
  }

  lemma SendConserves(s: Pipeline, step: Step)
    requires Conserved(s) && step.Send? && Enabled(s, step)
    ensures Conserved(Apply(s, step))
  {
    OtherTaskConserves(s, SaveBatch(s.pool.workers[step.w].task), false);
  }

  lemma ConservedStep(s: Pipeline, step: Step)
    requires Conserved(s) && Enabled(s, step)
    ensures Conserved(Apply(s, step))
  {
    match step {
      case Enqueue(e, caller, now) => EnqueueConserves(s, e, caller, now);
      case Flush(caller, now) => FlushConserves(s, caller.None?, now);
      case LoggerShutdown(now) => FlushConserves(s, true, now);
      case Mark(m) => MarkConserves(s, m);
      case SetUser(_) =>
      case Send(w, _, _, _) => SendConserves(s, step);
      case PoolStep(a) => PoolStepConserves(s, a);
    }
  }

  lemma SubmitKeepsPool(pool: Pool<Task>, batch: Option<seq<Item>>, caller: Option<WorkerId>)
    requires Inv(pool) && CanAdd(pool, caller)
    ensures Inv(Submitted(pool, batch, caller.None?))
  {
    if batch.Some? {
      var task := SendBatch(batch.value);
      StepKeepsInv(pool, if caller.Some? then AddFrom(caller.value, task) else Add(task));
    }
  }

  lemma PoolInvStep(s: Pipeline, step: Step)
    requires Inv(s.pool) && Enabled(s, step)
    ensures Inv(Apply(s, step).pool)
  {
    match step {
      case Enqueue(e, caller, now) => SubmitKeepsPool(s.pool, Enqueued(s.logger, e, s.maxBufferSize, now).1, caller);
      case Flush(caller, now) => SubmitKeepsPool(s.pool, FlushedBatch(s.logger, now), caller);
      case LoggerShutdown(now) => SubmitKeepsPool(s.pool, FlushedBatch(s.logger, now), None);
      case Mark(_) =>
      case SetUser(_) =>
      case Send(w, server, alive, callbackAlive) =>
        if Saves(server, alive, callbackAlive) {
          StepKeepsInv(s.pool, AddFrom(w, SaveBatch(s.pool.workers[w].task)));
        }
      case PoolStep(a) => StepKeepsInv(s.pool, a);
    }
  }

  /** Adding tasks decides no fate. */
  lemma FatesPush(s: Pipeline, task: Task, outside: bool)
    requires Inv(s.pool) && Fates(s)
    ensures Fates(s.(pool := Push(s.pool, task, outside)))
  {
    var t := s.(pool := Push(s.pool, task, outside));
    forall i | i in t.pool.finished && IsBatch(t, i) ensures Decided(t, i) {
      assert i < s.pool.taken && IsBatch(s, i);
    }
  }

  lemma FatesSend(s: Pipeline, step: Step)
    requires Inv(s.pool) && Fates(s) && step.Send? && Enabled(s, step)
    ensures Fates(Apply(s, step))
  {
    var t := Apply(s, step);
    forall i | i in t.pool.finished && IsBatch(t, i) ensures Decided(t, i) {
      assert i < s.pool.taken && IsBatch(s, i);
    }
  }

  lemma FatesPoolStep(s: Pipeline, a: Action<Task>)
    requires Inv(s.pool) && Fates(s) && PoolProtocol.Enabled(s.pool, a) && Internal(s, a)
    ensures Fates(s.(pool := PoolProtocol.Apply(s.pool, a)))
  {
    match a {
      case Add(task) => FatesPush(s, task, true);
      case AddFrom(_, task) => FatesPush(s, task, false);
      case _ => FatesQuiet(s, a);
    }
  }

  lemma FatesQuiet(s: Pipeline, a: Action<Task>)
    requires Inv(s.pool) && Fates(s) && PoolProtocol.Enabled(s.pool, a) && Internal(s, a) && !a.Add? && !a.AddFrom?
    ensures Fates(s.(pool := PoolProtocol.Apply(s.pool, a)))
  {
    var pool := PoolProtocol.Apply(s.pool, a);
    assert pool.added == s.pool.added && pool.late <= s.pool.late;
    assert pool.finished == s.pool.finished + if a.Finish? then {s.pool.workers[a.w].task} else {};
    FatesKept(s, s.(pool := pool));
  }

  /** A step that adds nothing: a batch it finishes must have its fate. */
  lemma FatesKept(s: Pipeline, t: Pipeline)
    requires Fates(s) && t == s.(pool := t.pool)
    requires t.pool.added == s.pool.added && t.pool.late <= s.pool.late
    requires forall i :: i in t.pool.finished && i !in s.pool.finished && IsBatch(s, i) ==> Decided(s, i)
    ensures Fates(t)
  {
    forall i | i in t.pool.finished && IsBatch(t, i) ensures Decided(t, i) {
      assert IsBatch(s, i);
    }
  }

  lemma FatesSubmit(s: Pipeline, batch: Option<seq<Item>>, outside: bool)
    requires Inv(s.pool) && Fates(s)
    ensures Fates(s.(pool := Submitted(s.pool, batch, outside)))
  {
    if batch.Some? { FatesPush(s, SendBatch(batch.value), outside); }
  }

  /** Fates do not depend on the logger and the seal. */
  lemma FatesSame(s: Pipeline, t: Pipeline)
    requires Fates(s) && t.pool == s.pool && t.delivered == s.delivered && t.handed == s.handed && t.dropped == s.dropped
    ensures Fates(t)
  {
  }

  lemma FatesEnqueue(s: Pipeline, e: Event, caller: Option<WorkerId>, now: int)
    requires Inv(s.pool) && Fates(s) && Enabled(s, Enqueue(e, caller, now))
    ensures Fates(Apply(s, Enqueue(e, caller, now)))
  {
    var batch := Enqueued(s.logger, e, s.maxBufferSize, now).1;
    FatesSubmit(s, batch, caller.None?);
    FatesSame(s.(pool := Submitted(s.pool, batch, caller.None?)), Apply(s, Enqueue(e, caller, now)));
  }

  lemma FatesFlush(s: Pipeline, outside: bool, now: int)
    requires Inv(s.pool) && Fates(s)
    ensures Fates(FlushStep(s, outside, now))
  {
    FatesSubmit(s, FlushedBatch(s.logger, now), outside);
    FatesSame(s.(pool := Submitted(s.pool, FlushedBatch(s.logger, now), outside)), FlushStep(s, outside, now));
  }

  lemma FatesStep(s: Pipeline, step: Step)
    requires Inv(s.pool) && Fates(s) && Enabled(s, step)
    ensures Fates(Apply(s, step))
  {
    match step {
      case Enqueue(e, caller, now) => FatesEnqueue(s, e, caller, now);
      case Flush(caller, now) => FatesFlush(s, caller.None?, now);
      case LoggerShutdown(now) =>
        FatesFlush(s, true, now);
        FatesSame(FlushStep(s, true, now), Apply(s, step));
      case Mark(_) => FatesSame(s, Apply(s, step));
      case SetUser(_) => FatesSame(s, Apply(s, step));
      case Send(_, _, _, _) => FatesSend(s, step);
      case PoolStep(a) => FatesPoolStep(s, a);
    }
  }

  /** A step that only extends the events and tasks, and makes only new tasks late, keeps the seal. */
  lemma SealedExtends(s: Pipeline, t: Pipeline)
    requires Sealed(s) && t.sealed == s.sealed
    requires s.enqueued <= t.enqueued && s.pool.added <= t.pool.added
    requires forall i :: i in t.pool.late ==> i in s.pool.late || i >= |s.pool.added|
    ensures Sealed(t)
  {
    if s.sealed.Some? {
      var (n, c) := s.sealed.value;
      assert t.pool.added[..c] == s.pool.added[..c];
      assert t.enqueued[..n] == s.enqueued[..n];
    }
  }

  lemma SealedShutdown(s: Pipeline, now: int)
    requires PipelineInv(s) && !s.pool.tainted && CanAdd(s.pool, None) && s.pool.running
    ensures Sealed(Apply(s, LoggerShutdown(now)))
  {
    var t := FlushStep(s, true, now);
    FlushConserves(s, true, now);
    assert t.pool.added[..|t.pool.added|] == t.pool.added;
    assert t.enqueued[..|t.enqueued|] == t.enqueued;
    assert OnTheWay(t) == BatchItems(t.pool.added);
  }

  lemma SealedStep(s: Pipeline, step: Step)
    requires PipelineInv(s) && Enabled(s, step) && !s.pool.tainted
    ensures Sealed(Apply(s, step))
  {
    if step.LoggerShutdown? && s.pool.running {
      SealedShutdown(s, step.now);
    } else {
      if step.PoolStep? { PoolTheorems.StepExtendsHistory(s.pool, step.action); }
      SealedExtends(s, Apply(s, step));
    }
  }

  // ---- whole runs ----

  ghost predicate IsRun(states: seq<Pipeline>, steps: seq<Step>) {
    && |states| == |steps| + 1
    && (exists maxBufferSize :: states[0] == Start(maxBufferSize))
    && forall i :: 0 <= i < |steps| ==> Enabled(states[i], steps[i]) && states[i + 1] == Apply(states[i], steps[i])
  }

  lemma StartInv(maxBufferSize: int)
    ensures PipelineInv(Start(maxBufferSize))
  {
    InitialInv<Task>();
    assert OnTheWay(Start(maxBufferSize)) == [];
  }

  lemma TaintStays(s: Pipeline, step: Step)
    requires Enabled(s, step)
    ensures s.pool.tainted ==> Apply(s, step).pool.tainted
  {
    if step.PoolStep? { PoolTheorems.StepExtendsHistory(s.pool, step.action); }
  }

  lemma {:induction false} RunInv(states: seq<Pipeline>, steps: seq<Step>, n: nat)
    requires IsRun(states, steps) && n < |states|
    ensures PipelineInv(states[n])
  {
    if n == 0 {
      var maxBufferSize :| states[0] == Start(maxBufferSize);
      StartInv(maxBufferSize);
    } else {
      var s, step := states[n - 1], steps[n - 1];
      RunInv(states, steps, n - 1);
      PoolInvStep(s, step);
      ConservedStep(s, step);
      FatesStep(s, step);
      TaintStays(s, step);
      if !s.pool.tainted { SealedStep(s, step); }
    }
  }

  /**
   * In every run, the batches in the order in which the pool takes them, followed by the buffer, are
   * the enqueued events in order with diagnostics events in between; a non-negative buffer limit
   * holds; and every accepted marker is in exactly one place, at most 31 of them still held.
   */
  lemma EventsConserved(states: seq<Pipeline>, steps: seq<Step>, n: nat)
    requires IsRun(states, steps) && n < |states|
    ensures var s := states[n];
      && LoggedOf(BatchItems(s.pool.added) + s.logger.buffer) == s.enqueued
      && MarkersOf(BatchItems(s.pool.added) + s.logger.buffer) + s.logger.markers == s.accepted
      && |s.logger.markers| <= 31
      && (0 <= s.maxBufferSize ==> |s.logger.buffer| <= s.maxBufferSize)
      && s.pool.taken <= |s.pool.added|
      && s.pool.added == s.pool.added[..s.pool.taken] + s.pool.queue
  {
    RunInv(states, steps, n);
  }

  // ---- what the caller of the pool knows ----

  function Learn(known: PoolTheorems.Known, s: Pipeline, step: Step): PoolTheorems.Known {
    if step.PoolStep? then PoolTheorems.Learn(known, s.pool, step.action) else known
  }

  function KnownAt(states: seq<Pipeline>, steps: seq<Step>, n: nat): PoolTheorems.Known
    requires n <= |steps| <= |states|
  {
    if n == 0 then PoolTheorems.Settled else Learn(KnownAt(states, steps, n - 1), states[n - 1], steps[n - 1])
  }

  /** The pool is started with workers, and left alone once a shutdown of it has returned false. */
  predicate ProperUntil(states: seq<Pipeline>, steps: seq<Step>, n: nat)
    requires n <= |steps| <= |states|
  {
    forall i :: 0 <= i < n && steps[i].PoolStep? ==>
      PoolTheorems.Proper(KnownAt(states, steps, i), states[i].pool, steps[i].action)
  }

  lemma JustifiedSubmit(known: PoolTheorems.Known, pool: Pool<Task>, batch: Option<seq<Item>>, caller: Option<WorkerId>)
    requires Inv(pool) && PoolTheorems.Justified(known, pool) && CanAdd(pool, caller)
    ensures PoolTheorems.Justified(known, Submitted(pool, batch, caller.None?))
  {
    if batch.Some? { PoolTheorems.PushKeeps(known, pool, SendBatch(batch.value), caller); }
  }

  lemma JustifiedStep(known: PoolTheorems.Known, s: Pipeline, step: Step)
    requires Inv(s.pool) && PoolTheorems.Justified(known, s.pool) && Enabled(s, step)
    requires step.PoolStep? ==> PoolTheorems.Proper(known, s.pool, step.action)
    ensures PoolTheorems.Justified(Learn(known, s, step), Apply(s, step).pool)
  {
    match step {
      case Enqueue(e, caller, now) => JustifiedSubmit(known, s.pool, Enqueued(s.logger, e, s.maxBufferSize, now).1, caller);
      case Flush(caller, now) => JustifiedSubmit(known, s.pool, FlushedBatch(s.logger, now), caller);
      case LoggerShutdown(now) => JustifiedSubmit(known, s.pool, FlushedBatch(s.logger, now), None);
      case Mark(_) =>
      case SetUser(_) =>
      case Send(w, server, alive, callbackAlive) =>
        if Saves(server, alive, callbackAlive) {
          PoolTheorems.PushKeeps(known, s.pool, SaveBatch(s.pool.workers[w].task), Some(w));
        }
      case PoolStep(a) => PoolTheorems.JustifiedStep(known, s.pool, a);
    }
  }

  lemma {:induction false} CallerIsRight(states: seq<Pipeline>, steps: seq<Step>, n: nat)
    requires IsRun(states, steps) && n < |states| && ProperUntil(states, steps, n)
    ensures PoolTheorems.Justified(KnownAt(states, steps, n), states[n].pool)
  {
    if n > 0 {
      CallerIsRight(states, steps, n - 1);
      RunInv(states, steps, n - 1);
      JustifiedStep(KnownAt(states, steps, n - 1), states[n - 1], steps[n - 1]);
    }
  }

  /** A batch reached the server, or its payload was written to the failed-event file. */
  ghost predicate Accounted(s: Pipeline, batch: nat) {
    batch in s.delivered || (batch in s.handed && s.handed[batch] in s.pool.finished)
  }

  /**
   * No silent loss, from `Enqueue` to the server or the file, for a caller who starts the pool with workers and leaves it alone after
   * a failed shutdown. When a shutdown of the pool is about to return true, the events enqueued before
   * the logger's final flush are exactly the batches of the first `c` tasks, in order, and every one of
   * these batches was answered with a 2xx, or was handed to the failed-event file by a write that has
   * itself completed, or found its logger or network destroyed. What becomes of a payload in the file,
   * when other saves and retries use it, is the subject of `SavedBatches`.
   */
  lemma NoSilentLoss(states: seq<Pipeline>, steps: seq<Step>, n: nat)
    requires IsRun(states, steps) && n < |states|
    requires ProperUntil(states, steps, n) && PoolProtocol.Enabled(states[n].pool, Join) && states[n].sealed.Some?
    ensures var s := states[n];
      var (events, c) := s.sealed.value;
      && events <= |s.enqueued| && c <= |s.pool.added|
      && LoggedOf(BatchItems(s.pool.added[..c])) == s.enqueued[..events]
      && forall i :: 0 <= i < c && s.pool.added[i].SendBatch? ==> Accounted(s, i) || i in s.dropped
  {
    RunInv(states, steps, n);
    var s := states[n];
    CallerIsRight(states, steps, n);
    PoolTheorems.Drained(KnownAt(states, steps, n), s.pool);
    var (events, c) := s.sealed.value;
    forall i | 0 <= i < c && s.pool.added[i].SendBatch? ensures Accounted(s, i) || i in s.dropped {
      assert i in s.pool.finished && IsBatch(s, i);
      assert Decided(s, i);
    }
  }

  /**
   * What decides the fate of a batch: while the network lives it is delivered exactly when the first
   * request, or after a retryable failure of the first the second one, was answered with a 2xx;
   * otherwise its save is the next task of the pool if the logger lives, and it is dropped if not.
   */
  lemma SendMeaning(s: Pipeline, w: WorkerId, server: N.Server, alive: bool, callbackAlive: bool)
    requires Fates(s) && Enabled(s, Send(w, server, alive, callbackAlive))
    ensures var t, batch := Apply(s, Send(w, server, alive, callbackAlive)), s.pool.workers[w].task;
      var good := server(1).status / 100 == 2
        || (server(1).status in {408, 500, 502, 503, 504, 522, 524, 599} && server(2).status / 100 == 2);
      && t.delivered == s.delivered + (if alive && good then {batch} else {})
      && t.dropped == s.dropped + (if !alive || (!good && !callbackAlive) then {batch} else {})
      && t.handed.Keys == s.handed.Keys + (if alive && !good && callbackAlive then {batch} else {})
      && t.pool.added == s.pool.added + (if alive && !good && callbackAlive then [SaveBatch(batch)] else [])
      && (alive && !good && callbackAlive ==> t.handed[batch] == |s.pool.added|)
  {
    N.FinalAttemptMeaning(server, N.LOG_EVENT_RETRY_COUNT, N.FinalAttempt(server, N.LOG_EVENT_RETRY_COUNT, 1));
  }

  predicate AllAlive(step: Step) {
    step.Send? ==> step.alive && step.callbackAlive
  }

  /** While logger and network live, no batch is dropped. */
  lemma {:induction false} NothingDropped(states: seq<Pipeline>, steps: seq<Step>, n: nat)
    requires IsRun(states, steps) && n < |states|
    requires forall i :: 0 <= i < n ==> AllAlive(steps[i])
    ensures states[n].dropped == {}
  {
    if n > 0 {
      NothingDropped(states, steps, n - 1);
      assert AllAlive(steps[n - 1]);
    }
  }
}
