/**
 * The worker pool as a state machine.
 *
 * Every atomic access to the shared fields (queue, running flag, completion counter, thread list) is
 * one step; the steps of workers, of the single controller that starts and shuts down, and of
 * threads that add tasks interleave freely. A worker that holds the mutex excludes only the steps
 * that need the mutex: the flag and the counter are written outside it.
 */
module PoolProtocol {
  import opened Wrappers

  type WorkerId = nat

  /** Where a worker is in its loop. `Woken` and `Exiting` hold the mutex. */
  datatype Worker =
    | Waiting
    | Woken
    | Exiting(loaded: int)
    | Running(task: nat)
    | Exited

  /** Where the controller is in `Reset` or `Shutdown`. */
  datatype Control =
    | Idle
    | ResetCount(toSpawn: int)
    | ResetFlag(toSpawn: int)
    | Spawning(toSpawn: int)
    | Polling
    | Checking
    | Joining

  /**
   * `queue`, `workers`, `threads`, `running`, `completed`, `mutex` and `control` are the program's
   * state. The rest is history: every task ever added, by position; how many were taken from the
   * queue; which ones ran to completion; which ones an outside thread added while the flag was
   * clear; the workers of the latest start; and whether a start found a live worker of an earlier one.
   */
  datatype Pool<T> = Pool(
    queue: seq<T>,
    workers: seq<Worker>,
    threads: set<WorkerId>,
    running: bool,
    completed: int,
    mutex: Option<WorkerId>,
    control: Control,
    broken: bool,
    added: seq<T>,
    taken: nat,
    finished: set<nat>,
    late: set<nat>,
    generation: set<WorkerId>,
    tainted: bool)

  datatype Action<T> =
    | Add(task: T)                  // Add from outside the pool
    | AddFrom(w: WorkerId, task: T) // Add called by the task that worker w runs
    | Wake(w: WorkerId)             // the wait predicate holds: w leaves cv.wait with the mutex
    | Decide(w: WorkerId)           // w tests the flag and the queue again
    | Leave(w: WorkerId)            // w stores the counter, releases the mutex, ends
    | Finish(w: WorkerId)           // the task of w returns
    | Start(count: int)             // Reset: test the flag, clear the thread list
    | StoreCount                    // Reset: completed_count_.store(0)
    | StoreFlag                     // Reset: is_running_.store(true)
    | Spawn                         // Reset: create one thread, or return when all exist
    | ClearFlag                     // Shutdown: is_running_.store(false)
    | PollDone                      // Shutdown: the counter equals the number of threads
    | PollTimeout                   // Shutdown: the time is up
    | Check                         // Shutdown: compare once more; join, or detach and return false
    | Join                          // Shutdown: all threads joined, return true

  function Initial<T>(): Pool<T> {
    Pool([], [], {}, false, 0, None, Idle, false, [], 0, {}, {}, {}, false)
  }

  predicate At<T>(s: Pool<T>, w: WorkerId, at: Worker) {
    w < |s.workers| && s.workers[w] == at
  }

  predicate IsRunning<T>(s: Pool<T>, w: WorkerId) {
    w < |s.workers| && s.workers[w].Running?
  }

  /** `caller` is the worker whose task adds another one, or none for a thread outside the pool. */
  predicate CanAdd<T>(s: Pool<T>, caller: Option<WorkerId>) {
    !s.broken && s.mutex.None? && (caller.Some? ==> IsRunning(s, caller.value))
  }

  predicate AnyLive<T>(s: Pool<T>) {
    exists w :: 0 <= w < |s.workers| && s.workers[w] != Exited
  }

  predicate Enabled<T>(s: Pool<T>, a: Action<T>) {
    && !s.broken
    && match a
       case Add(_) => s.mutex.None?
       case AddFrom(w, _) => s.mutex.None? && IsRunning(s, w)
       case Wake(w) => s.mutex.None? && At(s, w, Waiting) && (!s.running || s.queue != [])
       case Decide(w) => At(s, w, Woken)
       case Leave(w) => w < |s.workers| && s.workers[w].Exiting?
       case Finish(w) => IsRunning(s, w)
       case Start(_) => s.control == Idle
       case StoreCount => s.control.ResetCount?
       case StoreFlag => s.control.ResetFlag?
       case Spawn => s.control.Spawning?
       case ClearFlag => s.control == Idle
       case PollDone => s.control == Polling && s.completed == |s.threads|
       case PollTimeout => s.control == Polling
       case Check => s.control == Checking
       case Join => s.control == Joining && forall w :: w in s.threads ==> At(s, w, Exited)
  }

  function Push<T>(s: Pool<T>, task: T, outside: bool): Pool<T> {
    s.(queue := s.queue + [task],
       added := s.added + [task],
       late := if outside && !s.running then s.late + {|s.added|} else s.late)
  }

  /** The test after `cv.wait`. Taking the front of an empty queue is undefined behaviour. */
  function DecideStep<T>(s: Pool<T>, w: WorkerId): Pool<T>
    requires w < |s.workers|
  {
    if !s.running && s.queue == [] then s.(workers := s.workers[w := Exiting(s.completed)])
    else if s.queue == [] then s.(broken := true)
    else s.(workers := s.workers[w := Running(s.taken)], queue := s.queue[1..],
            taken := s.taken + 1, mutex := None)
  }

  function StartStep<T>(s: Pool<T>, count: int): Pool<T> {
    if s.running then s
    else s.(threads := {}, generation := {}, control := ResetCount(count), tainted := s.tainted || AnyLive(s))
  }

  function SpawnStep<T>(s: Pool<T>): Pool<T>
    requires s.control.Spawning?
  {
    var id := |s.workers|;
    if s.control.toSpawn <= 0 then s.(control := Idle)
    else s.(workers := s.workers + [Waiting], threads := s.threads + {id},
            generation := s.generation + {id}, control := Spawning(s.control.toSpawn - 1))
  }

  function Apply<T>(s: Pool<T>, a: Action<T>): Pool<T>
    requires Enabled(s, a)
  {
    match a
    case Add(task) => Push(s, task, true)
    case AddFrom(_, task) => Push(s, task, false)
    case Wake(w) => s.(workers := s.workers[w := Woken], mutex := Some(w))
    case Decide(w) => DecideStep(s, w)
    case Leave(w) =>
      s.(workers := s.workers[w := Exited], completed := s.workers[w].loaded + 1, mutex := None)
    case Finish(w) =>
      s.(workers := s.workers[w := Waiting], finished := s.finished + {s.workers[w].task})
    case Start(count) => StartStep(s, count)
    case StoreCount => s.(completed := 0, control := ResetFlag(s.control.toSpawn))
    case StoreFlag => s.(running := true, late := {}, control := Spawning(s.control.toSpawn))
    case Spawn => SpawnStep(s)
    case ClearFlag => s.(running := false, control := Polling)
    case PollDone => s.(control := Checking)
    case PollTimeout => s.(control := Checking)
    case Check =>
      if s.completed == |s.threads| then s.(control := Joining) else s.(threads := {}, control := Idle)
    case Join => s.(threads := {}, control := Idle)
  }

  // ---- what holds in every run ----

  /** Tasks leave the queue in the order they were added, each is started at most once, none is lost. */
  ghost predicate History<T>(s: Pool<T>) {
    && s.taken <= |s.added|
    && s.queue == s.added[s.taken..]
    && (forall i :: i in s.finished ==> i < s.taken)
    && (forall i :: i in s.late ==> i < |s.added|)
    && (forall w: nat :: IsRunning(s, w) ==> s.workers[w].task < s.taken && s.workers[w].task !in s.finished)
    && (forall v: nat, w: nat :: IsRunning(s, v) && IsRunning(s, w) && v != w ==> s.workers[v].task != s.workers[w].task)
    && (forall i :: 0 <= i < s.taken ==> i in s.finished || InProgress(s, i))
  }

  ghost predicate InProgress<T>(s: Pool<T>, task: nat) {
    exists w :: 0 <= w < |s.workers| && s.workers[w] == Running(task)
  }

  predicate HoldsMutex(at: Worker) {
    at == Woken || at.Exiting?
  }

  /** At most one worker is between `cv.wait` and the end of its locked section. */
  ghost predicate MutualExclusion<T>(s: Pool<T>) {
    && (s.mutex.Some? ==> s.mutex.value < |s.workers| && HoldsMutex(s.workers[s.mutex.value]))
    && (forall w :: 0 <= w < |s.workers| && HoldsMutex(s.workers[w]) ==> s.mutex == Some(w))
  }

  // ---- what holds as long as no start met a live worker of an earlier start ----

  function ExitedOf<T>(s: Pool<T>): set<WorkerId> {
    set w | w in s.generation && At(s, w, Exited)
  }

  predicate Done(at: Worker) {
    at == Exited || at.Exiting?
  }

  /** Every worker of the latest start has seen the flag clear and the queue empty. */
  ghost predicate AllDone<T>(s: Pool<T>) {
    forall w :: w in s.generation && w < |s.workers| ==> Done(s.workers[w])
  }

  ghost predicate Workers<T>(s: Pool<T>) {
    && (forall w :: w in s.generation ==> w < |s.workers|)
    && (forall w :: 0 <= w < |s.workers| && w !in s.generation ==> s.workers[w] == Exited)
    && (s.running ==> forall w :: w in s.generation ==> !Done(s.workers[w]))
    && (forall w :: 0 <= w < |s.workers| && s.workers[w] == Woken && s.queue == [] ==> !s.running)
    && (forall w :: 0 <= w < |s.workers| && s.workers[w].Exiting? ==>
          s.workers[w].loaded == s.completed && s.queue == [] && !s.running)
  }

  ghost predicate Controller<T>(s: Pool<T>) {
    && (s.threads == {} || s.threads == s.generation)
    && (s.control.ResetCount? || s.control.ResetFlag? ==> s.generation == {} && !s.running)
    && (s.control.Spawning? ==> s.running && s.threads == s.generation)
    && (s.control == Polling || s.control == Checking || s.control == Joining ==> !s.running)
    && (s.control == Joining ==> forall w :: w in s.threads ==> At(s, w, Exited))
  }

  /** The counter is the number of workers that ended. */
  ghost predicate Counter<T>(s: Pool<T>) {
    !s.control.ResetCount? ==> s.completed == |ExitedOf(s)|
  }

  /** Once every worker is done, only tasks added from outside after the flag was cleared remain. */
  ghost predicate NothingLeft<T>(s: Pool<T>) {
    && (s.running ==> s.late == {})
    && (!s.running && s.generation != {} && AllDone(s) ==>
          forall i :: s.taken <= i < |s.added| ==> i in s.late)
  }

  ghost predicate Clean<T>(s: Pool<T>) {
    !s.tainted ==> !s.broken && Workers(s) && Controller(s) && Counter(s) && NothingLeft(s)
  }

  ghost predicate Inv<T>(s: Pool<T>) {
    History(s) && MutualExclusion(s) && Clean(s)
  }

  lemma HistoryPush<T>(s: Pool<T>, task: T, outside: bool)
    requires History(s)
    ensures History(Push(s, task, outside))
  {
    var t := Push(s, task, outside);
    assert t.queue == t.added[t.taken..];
    forall i | 0 <= i < t.taken ensures i in t.finished || InProgress(t, i) {
      if i !in s.finished { KeepsProgress(s, t, i); }
    }
  }

  lemma HistoryDecide<T>(s: Pool<T>, w: WorkerId)
    requires History(s) && At(s, w, Woken)
    ensures History(DecideStep(s, w))
  {
    if s.queue != [] {
      HistoryTake(s, w);
    } else {
      var t := DecideStep(s, w);
      forall i | 0 <= i < t.taken ensures i in t.finished || InProgress(t, i) {
        if i !in s.finished { KeepsProgress(s, t, i); }
      }
    }
  }

  lemma HistoryTake<T>(s: Pool<T>, w: WorkerId)
    requires History(s) && At(s, w, Woken) && s.queue != []
    ensures History(DecideStep(s, w))
  {
    var t := DecideStep(s, w);
    assert t.queue == t.added[t.taken..];
    forall i | 0 <= i < t.taken ensures i in t.finished || InProgress(t, i) {
      if i == s.taken {
        assert t.workers[w] == Running(i);
      } else if i !in s.finished {
        KeepsProgress(s, t, i);
      }
    }
  }

  /** A step that leaves the queue alone and starts no task; `done` is what it completes. */
  lemma HistoryFrame<T>(s: Pool<T>, t: Pool<T>, done: set<nat>)
    requires History(s)
    requires t.queue == s.queue && t.added == s.added && t.taken == s.taken && t.late <= s.late
    requires t.finished == s.finished + done && |s.workers| <= |t.workers|
    requires forall w: nat :: IsRunning(t, w) ==> At(s, w, t.workers[w]) && t.workers[w].task !in done
    requires forall w: nat :: IsRunning(s, w) && !IsRunning(t, w) ==> s.workers[w].task in done
    requires forall i :: i in done ==> InProgress(s, i)
    ensures History(t)
  {
    forall i | i in done ensures i < t.taken {
      var w :| 0 <= w < |s.workers| && s.workers[w] == Running(i);
      assert IsRunning(s, w);
    }
    forall i | 0 <= i < t.taken ensures i in t.finished || InProgress(t, i) {
      if i !in t.finished {
        var w :| 0 <= w < |s.workers| && s.workers[w] == Running(i);
        assert IsRunning(s, w) && IsRunning(t, w);
      }
    }
  }

  lemma HistoryFinish<T>(s: Pool<T>, w: WorkerId)
    requires History(s) && Enabled(s, Finish(w))
    ensures History(Apply(s, Finish(w)))
  {
    assert InProgress(s, s.workers[w].task);
    HistoryFrame(s, Apply(s, Finish(w)), {s.workers[w].task});
  }

  /** A step of the controller that creates no thread. */
  lemma HistoryControl<T>(s: Pool<T>, t: Pool<T>)
    requires History(s)
    requires t.queue == s.queue && t.added == s.added && t.taken == s.taken && t.late <= s.late
    requires t.finished == s.finished && s.workers == t.workers
    ensures History(t)
  {
    forall i | 0 <= i < t.taken ensures i in t.finished || InProgress(t, i) {
      if i !in s.finished { KeepsProgress(s, t, i); }
    }
  }

  lemma HistoryWake<T>(s: Pool<T>, w: WorkerId)
    requires History(s) && Enabled(s, Wake(w))
    ensures History(Apply(s, Wake(w)))
  {
    HistoryFrame(s, Apply(s, Wake(w)), {});
  }

  lemma HistoryLeave<T>(s: Pool<T>, w: WorkerId)
    requires History(s) && Enabled(s, Leave(w))
    ensures History(Apply(s, Leave(w)))
  {
    HistoryFrame(s, Apply(s, Leave(w)), {});
  }

  lemma HistorySpawn<T>(s: Pool<T>)
    requires History(s) && Enabled(s, Spawn)
    ensures History(SpawnStep(s))
  {
    HistoryFrame(s, SpawnStep(s), {});
  }

  lemma HistoryStep<T>(s: Pool<T>, a: Action<T>)
    requires History(s) && Enabled(s, a)
    ensures History(Apply(s, a))
  {
    match a {
      case Add(task) => HistoryPush(s, task, true);
      case AddFrom(_, task) => HistoryPush(s, task, false);
      case Decide(w) => HistoryDecide(s, w);
      case Finish(w) => HistoryFinish(s, w);
      case Wake(w) => HistoryWake(s, w);
      case Leave(w) => HistoryLeave(s, w);
      case Spawn => HistorySpawn(s);
      case _ => HistoryControl(s, Apply(s, a));
    }
  }

  lemma KeepsProgress<T>(s: Pool<T>, t: Pool<T>, i: nat)
    requires InProgress(s, i) && |s.workers| <= |t.workers|
    requires forall w :: 0 <= w < |s.workers| && s.workers[w] == Running(i) ==> t.workers[w] == Running(i)
    ensures InProgress(t, i)
  {
    var w :| 0 <= w < |s.workers| && s.workers[w] == Running(i);
    assert t.workers[w] == Running(i);
  }

  lemma MutexStep<T>(s: Pool<T>, a: Action<T>)
    requires MutualExclusion(s) && Enabled(s, a)
    ensures MutualExclusion(Apply(s, a))
  {
  }

  lemma WorkersStep<T>(s: Pool<T>, a: Action<T>)
    requires MutualExclusion(s) && Workers(s) && Controller(s) && Enabled(s, a)
    requires !Apply(s, a).tainted
    ensures Workers(Apply(s, a)) && !Apply(s, a).broken
  {
    if a.Wake? || a.Decide? || a.Leave? || a.Finish? {
      WorkersOwnStep(s, a);
    }
  }

  lemma WorkersOwnStep<T>(s: Pool<T>, a: Action<T>)
    requires MutualExclusion(s) && Workers(s) && Controller(s) && Enabled(s, a)
    requires (a.Wake? || a.Decide? || a.Leave? || a.Finish?) && !s.tainted
    ensures Workers(Apply(s, a)) && !Apply(s, a).broken
  {
  }

  lemma ControllerStep<T>(s: Pool<T>, a: Action<T>)
    requires Workers(s) && Controller(s) && Counter(s) && Enabled(s, a)
    requires !Apply(s, a).tainted
    ensures Controller(Apply(s, a))
  {
    if a == Check && s.completed == |s.threads| && s.threads != {} {
      SubsetOfSameSize(ExitedOf(s), s.generation);
      assert forall w :: w in s.threads ==> w in ExitedOf(s);
    }
  }

  lemma {:induction false} SubsetOfSameSize(a: set<WorkerId>, b: set<WorkerId>)
    requires a <= b && |a| == |b|
    ensures a == b
  {
    if a != b {
      var x :| x in b && x !in a;
      SubsetIsNoLarger(a, b - {x});
    }
  }

  lemma {:induction false} SubsetIsNoLarger(a: set<WorkerId>, b: set<WorkerId>)
    requires a <= b
    ensures |a| <= |b|
  {
    assert b == a + (b - a) && a !! (b - a);
  }

  /** A step that neither ends a worker nor starts a generation. */
  lemma CounterFrame<T>(s: Pool<T>, t: Pool<T>)
    requires Counter(s) && !s.control.ResetCount?
    requires t.completed == s.completed
    requires forall w :: w in s.generation && At(s, w, Exited) <==> w in t.generation && At(t, w, Exited)
    ensures Counter(t)
  {
    assert ExitedOf(t) == ExitedOf(s);
  }

  lemma OneMoreExited<T>(s: Pool<T>, t: Pool<T>, w: WorkerId)
    requires w in s.generation && w < |s.workers| && s.workers[w] != Exited
    requires t.generation == s.generation && t.workers == s.workers[w := Exited]
    ensures |ExitedOf(t)| == |ExitedOf(s)| + 1
  {
    assert w !in ExitedOf(s);
    assert ExitedOf(t) == ExitedOf(s) + {w};
  }

  lemma CounterLeave<T>(s: Pool<T>, w: WorkerId)
    requires Workers(s) && Controller(s) && Counter(s) && Enabled(s, Leave(w))
    ensures Counter(Apply(s, Leave(w)))
  {
    OneMoreExited(s, Apply(s, Leave(w)), w);
  }

  lemma CounterWorker<T>(s: Pool<T>, a: Action<T>)
    requires Workers(s) && Controller(s) && Counter(s) && Enabled(s, a)
    requires a.Wake? || a.Decide? || a.Finish? || a.Spawn?
    ensures Counter(Apply(s, a))
  {
    if !s.control.ResetCount? { CounterFrame(s, Apply(s, a)); }
  }

  lemma CounterStep<T>(s: Pool<T>, a: Action<T>)
    requires Workers(s) && Controller(s) && Counter(s) && Enabled(s, a)
    requires !Apply(s, a).tainted
    ensures Counter(Apply(s, a))
  {
    match a {
      case Leave(w) => CounterLeave(s, w);
      case Wake(_) => CounterWorker(s, a);
      case Decide(_) => CounterWorker(s, a);
      case Finish(_) => CounterWorker(s, a);
      case Spawn => CounterWorker(s, a);
      case StoreCount => assert ExitedOf(Apply(s, a)) == {};
      case Start(_) => if s.running { assert Apply(s, a) == s; }
      case _ => assert ExitedOf(Apply(s, a)) == ExitedOf(s);
    }
  }

  lemma NothingLeftStep<T>(s: Pool<T>, a: Action<T>)
    requires History(s) && MutualExclusion(s) && Workers(s) && Controller(s) && NothingLeft(s) && Enabled(s, a)
    requires !Apply(s, a).tainted
    ensures NothingLeft(Apply(s, a))
  {
  }

  lemma InitialInv<T>()
    ensures Inv(Initial<T>())
  {
    assert ExitedOf(Initial<T>()) == {};
  }

  lemma StepKeepsInv<T>(s: Pool<T>, a: Action<T>)
    requires Inv(s) && Enabled(s, a)
    ensures Inv(Apply(s, a))
  {
    HistoryStep(s, a);
    MutexStep(s, a);
    if !Apply(s, a).tainted {
      assert !s.tainted;
      WorkersStep(s, a);
      ControllerStep(s, a);
      CounterStep(s, a);
      NothingLeftStep(s, a);
    }
  }
}
