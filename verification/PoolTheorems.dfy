/** What the pool guarantees over whole runs, and the runs in which a guarantee fails. */
module PoolTheorems {
  import opened Wrappers
  import opened PoolProtocol

  /** Any interleaving of enabled steps from the fresh pool. */
  ghost predicate IsRun<T(!new)>(states: seq<Pool<T>>, actions: seq<Action<T>>) {
    && |states| == |actions| + 1
    && states[0] == Initial<T>()
    && forall i :: 0 <= i < |actions| ==> Enabled(states[i], actions[i]) && states[i + 1] == Apply(states[i], actions[i])
  }

  lemma {:induction false} RunInv<T(!new)>(states: seq<Pool<T>>, actions: seq<Action<T>>, n: nat)
    requires IsRun(states, actions) && n < |states|
    ensures Inv(states[n])
  {
    if n == 0 {
      InitialInv<T>();
    } else {
      RunInv(states, actions, n - 1);
      StepKeepsInv(states[n - 1], actions[n - 1]);
    }
  }

  /** The history of `t` continues that of `s`; only tasks added in between can be newly late. */
  ghost predicate Extends<T>(s: Pool<T>, t: Pool<T>) {
    && s.added <= t.added
    && s.taken <= t.taken
    && s.finished <= t.finished
    && (s.tainted ==> t.tainted)
    && (forall i :: i in t.late ==> i in s.late || i >= |s.added|)
  }

  lemma StepExtendsHistory<T>(s: Pool<T>, a: Action<T>)
    requires Enabled(s, a)
    ensures Extends(s, Apply(s, a))
  {
  }

  lemma ExtendsTransitive<T>(s: Pool<T>, t: Pool<T>, u: Pool<T>)
    requires Extends(s, t) && Extends(t, u)
    ensures Extends(s, u)
  {
  }

  lemma {:induction false} HistoryGrows<T(!new)>(states: seq<Pool<T>>, actions: seq<Action<T>>, k: nat, n: nat)
    requires IsRun(states, actions) && k <= n < |states|
    ensures Extends(states[k], states[n])
  {
    if k < n {
      HistoryGrows(states, actions, k, n - 1);
      StepExtendsHistory(states[n - 1], actions[n - 1]);
      ExtendsTransitive(states[k], states[n - 1], states[n]);
    }
  }

  /** `a` takes the front of the queue in `s`. */
  predicate Takes<T>(s: Pool<T>, a: Action<T>) {
    a.Decide? && Enabled(s, a) && s.queue != []
  }

  /**
   * FIFO and at-most-once, over every run, including restarts that meet surviving workers: what was
   * added is what was taken followed by the queue, the n-th task taken is the n-th task added, and a
   * taken task is either finished or in the hands of exactly one worker.
   */
  lemma Conservation<T(!new)>(states: seq<Pool<T>>, actions: seq<Action<T>>, n: nat)
    requires IsRun(states, actions) && n < |states|
    ensures states[n].taken <= |states[n].added|
    ensures states[n].added == states[n].added[..states[n].taken] + states[n].queue
    ensures n < |actions| && Takes(states[n], actions[n]) ==>
      && states[n].queue[0] == states[n].added[states[n].taken]
      && states[n + 1].workers[actions[n].w] == Running(states[n].taken)
    ensures forall i :: 0 <= i < states[n].taken ==> (i in states[n].finished) != InProgress(states[n], i)
  {
    RunInv(states, actions, n);
    var s := states[n];
    forall i | 0 <= i < s.taken ensures (i in s.finished) != InProgress(s, i) {
      if InProgress(s, i) {
        var w :| 0 <= w < |s.workers| && s.workers[w] == Running(i);
        assert IsRunning(s, w);
      }
    }
  }

  /** No position of the added sequence is taken twice. */
  lemma TakenOnce<T(!new)>(states: seq<Pool<T>>, actions: seq<Action<T>>, k: nat, n: nat)
    requires IsRun(states, actions) && k < n < |actions|
    requires Takes(states[k], actions[k]) && Takes(states[n], actions[n])
    ensures states[k].taken < states[n].taken
  {
    HistoryGrows(states, actions, k + 1, n);
    assert states[k + 1].taken == states[k].taken + 1;
  }

  /** In a clean run the counter is the number of ended workers, and the final join waits for nobody. */
  lemma CounterIsExact<T(!new)>(states: seq<Pool<T>>, actions: seq<Action<T>>, n: nat)
    requires IsRun(states, actions) && n < |states| && !states[n].tainted
    ensures !states[n].broken
    ensures !states[n].control.ResetCount? ==> states[n].completed == |ExitedOf(states[n])|
    ensures states[n].control == Joining ==> Enabled(states[n], Join)
  {
    RunInv(states, actions, n);
  }

  /**
   * What the second comparison of a shutdown comes to in a clean run. With threads it joins exactly
   * if all of them have ended; without threads, because an earlier shutdown has given them up, it
   * "joins" and returns true exactly if no worker has ended.
   */
  lemma ShutdownVerdict<T(!new)>(states: seq<Pool<T>>, actions: seq<Action<T>>, n: nat)
    requires IsRun(states, actions) && n < |states| && !states[n].tainted && states[n].control == Checking
    ensures Enabled(states[n], Check)
    ensures Apply(states[n], Check).control == Joining <==>
      if states[n].threads == {} then ExitedOf(states[n]) == {}
      else forall w :: w in states[n].threads ==> At(states[n], w, Exited)
  {
    RunInv(states, actions, n);
    var s := states[n];
    assert !s.broken;
    if s.threads != {} {
      if s.completed == |s.threads| {
        SubsetOfSameSize(ExitedOf(s), s.generation);
        assert forall w :: w in s.threads ==> w in ExitedOf(s);
      }
      if forall w :: w in s.threads ==> At(s, w, Exited) {
        assert ExitedOf(s) == s.threads;
      }
    }
  }

  /** No start takes effect from state `k` to state `n`. */
  predicate NoStart<T>(states: seq<Pool<T>>, actions: seq<Action<T>>, k: nat, n: nat)
    requires k <= n <= |actions| <= |states|
  {
    forall i :: k <= i < n && actions[i].Start? ==> states[i].running
  }

  /** All workers have ended and the thread list is empty. */
  predicate Ended<T>(s: Pool<T>) {
    && s.threads == {} && !s.running && s.generation != {}
    && (forall w :: w in s.generation ==> At(s, w, Exited))
    && (s.control == Idle || s.control == Polling || s.control == Checking)
  }

  lemma EndedStays<T>(s: Pool<T>, a: Action<T>)
    requires Ended(s) && Inv(s) && !s.tainted && Enabled(s, a) && (a.Start? ==> s.running)
    ensures Ended(Apply(s, a)) && !Apply(s, a).tainted
  {
    if a == Check {
      assert ExitedOf(s) == s.generation;
    }
  }

  lemma {:induction false} EndedForGood<T(!new)>(states: seq<Pool<T>>, actions: seq<Action<T>>, k: nat, n: nat)
    requires IsRun(states, actions) && k <= n < |states| && NoStart(states, actions, k, n)
    requires Ended(states[k]) && !states[k].tainted
    ensures Ended(states[n]) && !states[n].tainted
  {
    if k < n {
      EndedForGood(states, actions, k, n - 1);
      RunInv(states, actions, n - 1);
      EndedStays(states[n - 1], actions[n - 1]);
    }
  }

  /** After a shutdown that joined workers, every further shutdown before the next start returns false. */
  lemma SecondShutdownFails<T(!new)>(states: seq<Pool<T>>, actions: seq<Action<T>>, k: nat, n: nat)
    requires IsRun(states, actions) && k < n < |states| && NoStart(states, actions, k, n)
    requires !states[k].tainted && actions[k] == Join && states[k].threads != {}
    ensures states[n].control == Checking ==> Enabled(states[n], Check) && Apply(states[n], Check).control == Idle
    ensures states[n].control != Joining
  {
    RunInv(states, actions, k);
    EndedForGood(states, actions, k + 1, n);
    RunInv(states, actions, n);
    if states[n].control == Checking {
      EndedStays(states[n], Check);
    }
  }

  // ---- a reset creates the threads it is asked for ----

  function Positive(count: int): nat {
    if count > 0 then count else 0
  }

  function Range(from: nat, to: nat): (r: set<nat>)
    requires from <= to
    ensures (forall w :: w in r <==> from <= w < to) && |r| == to - from
  {
    if from == to then {} else Range(from, to - 1) + {to - 1}
  }

  /** A reset for `count` threads, which found `before` workers, is under way or has returned. */
  predicate Creating<T>(s: Pool<T>, before: nat, count: int) {
    match s.control
    case ResetCount(toSpawn) => toSpawn == count && |s.workers| == before && s.threads == {} && !s.running
    case ResetFlag(toSpawn) => toSpawn == count && |s.workers| == before && s.threads == {} && !s.running
    case Spawning(toSpawn) =>
      && before <= |s.workers| && |s.workers| + Positive(toSpawn) == before + Positive(count)
      && s.threads == Range(before, |s.workers|) && s.running
    case Idle => |s.workers| == before + Positive(count) && s.threads == Range(before, |s.workers|) && s.running
    case _ => false
  }

  /** What a reset does not change in other hands. */
  predicate SameThreads<T>(s: Pool<T>, t: Pool<T>) {
    && t.control == s.control && |t.workers| == |s.workers| && t.threads == s.threads && t.running == s.running
  }

  lemma SpawnCreates<T>(s: Pool<T>, before: nat, count: int)
    requires Creating(s, before, count) && Enabled(s, Spawn)
    ensures Creating(SpawnStep(s), before, count)
  {
    if s.control.toSpawn > 0 {
      assert Range(before, |s.workers| + 1) == Range(before, |s.workers|) + {|s.workers|};
    }
  }

  lemma CreatingStep<T>(s: Pool<T>, a: Action<T>, before: nat, count: int)
    requires Creating(s, before, count) && Enabled(s, a) && a != ClearFlag && (a.Start? ==> s.running)
    ensures Creating(Apply(s, a), before, count)
  {
    if a == Spawn {
      SpawnCreates(s, before, count);
    } else if a == StoreFlag {
      assert Range(before, before) == {};
    } else if a.Add? || a.AddFrom? || a.Wake? || a.Decide? || a.Leave? || a.Finish? {
      assert SameThreads(s, Apply(s, a));
    }
  }

  lemma {:induction false} CreatingInRun<T(!new)>(states: seq<Pool<T>>, actions: seq<Action<T>>, k: nat, n: nat)
    requires IsRun(states, actions) && k < n < |states| && NoStart(states, actions, k + 1, n)
    requires actions[k].Start? && !states[k].running
    requires forall i :: k < i < n ==> actions[i] != ClearFlag
    ensures Creating(states[n], |states[k].workers|, actions[k].count)
  {
    if k + 1 < n {
      CreatingInRun(states, actions, k, n - 1);
      CreatingStep(states[n - 1], actions[n - 1], |states[k].workers|, actions[k].count);
    }
  }

  /**
   * When the reset of action `k` has returned and no shutdown has begun, its thread list holds exactly
   * as many workers as it was asked for, all of them new, whatever other threads did meanwhile and
   * however often the running pool was asked to start again.
   */
  lemma ResetCreatesThreads<T(!new)>(states: seq<Pool<T>>, actions: seq<Action<T>>, k: nat, n: nat)
    requires IsRun(states, actions) && k < n < |states| && NoStart(states, actions, k + 1, n)
    requires actions[k].Start? && !states[k].running
    requires forall i :: k < i < n ==> actions[i] != ClearFlag
    requires states[n].control == Idle
    ensures var before, after := |states[k].workers|, |states[n].workers|;
      && states[n].running && after == before + (if actions[k].count > 0 then actions[k].count else 0)
      && |states[n].threads| == after - before
      && forall w :: w in states[n].threads <==> before <= w < after
  {
    CreatingInRun(states, actions, k, n);
  }

  // ---- a shutdown that returns true has drained the pool ----

  lemma AllTakenFinished<T>(s: Pool<T>)
    requires Inv(s) && !s.tainted && Enabled(s, Join) && s.threads != {}
    ensures forall i :: 0 <= i < |s.added| && i !in s.late ==> i in s.finished
  {
    assert s.threads == s.generation;
    assert forall w :: w in s.generation ==> s.workers[w] == Exited;
    assert AllDone(s);
    forall i | 0 <= i < |s.added| && i !in s.late ensures i in s.finished {
      assert i < s.taken;
      assert i in s.finished || InProgress(s, i);
    }
  }

  /**
   * What a caller knows from its own calls and their results: that no worker is left, that the pool
   * was started, or that a shutdown has given up on its workers.
   */
  datatype Known = Settled | Started | GivenUp

  function Learn<T>(known: Known, s: Pool<T>, a: Action<T>): Known {
    if a.Start? && !s.running then Started
    else if a == Join && known == Started then Settled
    else if a == Check && s.completed != |s.threads| && known == Started then GivenUp
    else known
  }

  function KnownAt<T>(states: seq<Pool<T>>, actions: seq<Action<T>>, n: nat): Known
    requires n <= |actions| <= |states|
  {
    if n == 0 then Settled else Learn(KnownAt(states, actions, n - 1), states[n - 1], actions[n - 1])
  }

  /** Starts ask for a worker, and after a shutdown that returned false the pool is left alone. */
  predicate Proper<T>(known: Known, s: Pool<T>, a: Action<T>) {
    && (a.Start? && !s.running ==> a.count > 0 && known != GivenUp)
    && (a == ClearFlag ==> known != GivenUp)
  }

  predicate ProperUntil<T>(states: seq<Pool<T>>, actions: seq<Action<T>>, n: nat)
    requires n <= |actions| <= |states|
  {
    forall i :: 0 <= i < n ==> Proper(KnownAt(states, actions, i), states[i], actions[i])
  }

  ghost predicate IsSettled<T>(s: Pool<T>) {
    && (forall w :: 0 <= w < |s.workers| ==> s.workers[w] == Exited)
    && !s.running && s.threads == {}
    && !s.control.ResetCount? && !s.control.ResetFlag? && !s.control.Spawning?
    && (forall i :: 0 <= i < |s.added| ==> i in s.late || i in s.finished)
  }

  ghost predicate IsStarted<T>(s: Pool<T>) {
    match s.control
    case ResetCount(toSpawn) => toSpawn > 0 && !s.running
    case ResetFlag(toSpawn) => toSpawn > 0 && !s.running
    case Spawning(toSpawn) => (toSpawn > 0 || s.generation != {}) && s.running
    case Idle => s.running && s.threads == s.generation != {}
    case _ => !s.running && s.threads == s.generation != {}
  }

  /** What the caller knows is true. */
  ghost predicate Justified<T>(known: Known, s: Pool<T>) {
    && !s.tainted
    && match known
       case Settled => IsSettled(s)
       case Started => IsStarted(s)
       case GivenUp => s.control == Idle && !s.running
  }

  lemma SettledStep<T>(s: Pool<T>, a: Action<T>)
    requires Inv(s) && Justified(Settled, s) && Enabled(s, a) && Proper(Settled, s, a)
    ensures Justified(Learn(Settled, s, a), Apply(s, a))
  {
  }

  lemma StartedStep<T>(s: Pool<T>, a: Action<T>)
    requires Inv(s) && Justified(Started, s) && Enabled(s, a) && Proper(Started, s, a) && a != Join
    ensures Justified(Learn(Started, s, a), Apply(s, a))
  {
  }

  lemma StartedJoin<T>(s: Pool<T>)
    requires Inv(s) && Justified(Started, s) && Enabled(s, Join)
    ensures Justified(Settled, Apply(s, Join))
  {
    AllTakenFinished(s);
  }

  lemma JustifiedStep<T>(known: Known, s: Pool<T>, a: Action<T>)
    requires Inv(s) && Justified(known, s) && Enabled(s, a) && Proper(known, s, a)
    ensures Justified(Learn(known, s, a), Apply(s, a))
  {
    match known {
      case Settled => SettledStep(s, a);
      case Started => if a == Join { StartedJoin(s); } else { StartedStep(s, a); }
      case GivenUp =>
    }
  }

  lemma PushKeeps<T>(known: Known, s: Pool<T>, task: T, caller: Option<WorkerId>)
    requires Inv(s) && Justified(known, s) && CanAdd(s, caller)
    ensures Inv(Push(s, task, caller.None?)) && Justified(known, Push(s, task, caller.None?))
  {
    var a := if caller.Some? then AddFrom(caller.value, task) else Add(task);
    StepKeepsInv(s, a);
    JustifiedStep(known, s, a);
  }

  lemma {:induction false} CallerIsRight<T(!new)>(states: seq<Pool<T>>, actions: seq<Action<T>>, n: nat)
    requires IsRun(states, actions) && n < |states| && ProperUntil(states, actions, n)
    ensures Justified(KnownAt(states, actions, n), states[n])
  {
    if n > 0 {
      CallerIsRight(states, actions, n - 1);
      RunInv(states, actions, n - 1);
      JustifiedStep(KnownAt(states, actions, n - 1), states[n - 1], actions[n - 1]);
    }
  }

  lemma Drained<T>(known: Known, s: Pool<T>)
    requires Inv(s) && Justified(known, s) && Enabled(s, Join)
    ensures forall i :: 0 <= i < |s.added| ==> i in s.late || i in s.finished
  {
    if known == Started { AllTakenFinished(s); }
  }

  /**
   * A caller who starts the pool with at least one worker, and leaves it alone once a shutdown has
   * returned false, can rely on a shutdown that returns true: whatever had been added at any moment
   * when the flag was set has run to completion, and so has every task that a running task added,
   * before or after the flag was cleared.
   */
  lemma DrainedShutdown<T(!new)>(states: seq<Pool<T>>, actions: seq<Action<T>>, k: nat, n: nat)
    requires IsRun(states, actions) && k <= n < |states| && ProperUntil(states, actions, n)
    requires Enabled(states[n], Join)
    ensures states[k].running ==> forall i :: 0 <= i < |states[k].added| ==> i in states[n].finished
    ensures k < n && actions[k].AddFrom? ==> |states[k].added| in states[n].finished
  {
    RunInv(states, actions, n);
    CallerIsRight(states, actions, n);
    Drained(KnownAt(states, actions, n), states[n]);
    FinishedUnlessLate(states, actions, k, n);
  }

  lemma FinishedUnlessLate<T(!new)>(states: seq<Pool<T>>, actions: seq<Action<T>>, k: nat, n: nat)
    requires IsRun(states, actions) && k <= n < |states| && !states[n].tainted
    requires forall i :: 0 <= i < |states[n].added| ==> i in states[n].late || i in states[n].finished
    ensures states[k].running ==> forall i :: 0 <= i < |states[k].added| ==> i in states[n].finished
    ensures k < n && actions[k].AddFrom? ==> |states[k].added| in states[n].finished
  {
    RunInv(states, actions, k);
    HistoryGrows(states, actions, k, n);
    if k < n && actions[k].AddFrom? {
      RunInv(states, actions, k + 1);
      HistoryGrows(states, actions, k + 1, n);
      assert |states[k].added| !in states[k + 1].late;
    }
  }

  // ---- each rule for the caller is needed ----

  ghost predicate Reachable<T(!new)>(s: Pool<T>) {
    exists states: seq<Pool<T>>, actions: seq<Action<T>> :: IsRun(states, actions) && states[|actions|] == s
  }

  lemma Begin<T(!new)>() returns (s: Pool<T>)
    ensures s == Initial<T>() && Reachable(s)
  {
    s := Initial<T>();
    var actions: seq<Action<T>> := [];
    assert IsRun([s], actions);
  }

  lemma Go<T(!new)>(s: Pool<T>, a: Action<T>) returns (t: Pool<T>)
    requires Reachable(s) && Enabled(s, a)
    ensures t == Apply(s, a) && Reachable(t)
  {
    t := Apply(s, a);
    var states, actions :| IsRun<T>(states, actions) && states[|actions|] == s;
    assert IsRun(states + [t], actions + [a]);
  }

  /** `Reset(1)` without interference. */
  lemma StartOne<T(!new)>(s: Pool<T>) returns (t: Pool<T>)
    requires Reachable(s) && !s.broken && s.control == Idle && !s.running
    ensures Reachable(t)
    ensures t == s.(workers := s.workers + [Waiting], threads := {|s.workers|}, generation := {|s.workers|},
                    completed := 0, running := true, late := {}, tainted := s.tainted || AnyLive(s))
  {
    t := Go(s, Start(1));
    t := Go(t, StoreCount);
    t := Go(t, StoreFlag);
    t := Go(t, Spawn);
    t := Go(t, Spawn);
  }

  /** A waiting worker that finds the flag clear and the queue empty ends. */
  lemma EndWorker<T(!new)>(s: Pool<T>, w: WorkerId) returns (t: Pool<T>)
    requires Reachable(s) && !s.broken && s.mutex.None? && At(s, w, Waiting) && !s.running && s.queue == []
    ensures Reachable(t)
    ensures t == s.(workers := s.workers[w := Exited], completed := s.completed + 1)
  {
    t := Go(s, Wake(w));
    t := Go(t, Decide(w));
    t := Go(t, Leave(w));
    assert t.workers == s.workers[w := Exited];
  }

  /** A start without workers: the shutdown returns true and leaves the queue as it was. */
  lemma ZeroThreadsNotDrained<T(!new)>(task: T) returns (s: Pool<T>)
    ensures Reachable(s) && !s.tainted && Enabled(s, Join)
    ensures s.queue == [task] && 0 !in s.late && 0 !in s.finished
  {
    s := Begin();
    s := Go(s, Add(task));
    s := Go(s, Start(0));
    s := Go(s, StoreCount);
    s := Go(s, StoreFlag);
    s := Go(s, Spawn);
    s := Go(s, ClearFlag);
    s := Go(s, PollDone);
    s := Go(s, Check);
  }

  /** The only worker takes the only task. */
  lemma TakeOne<T(!new)>(s: Pool<T>) returns (t: Pool<T>)
    requires Reachable(s) && !s.broken && s.mutex.None? && s.workers == [Waiting] && |s.queue| == 1
    ensures Reachable(t) && t == s.(workers := [Running(s.taken)], queue := [], taken := s.taken + 1)
  {
    t := Go(s, Wake(0));
    t := Go(t, Decide(0));
  }

  /** One worker is taken through a timed-out shutdown while it is at `Running(0)`. */
  lemma TimedOutShutdown<T(!new)>(task: T) returns (s: Pool<T>)
    ensures Reachable(s) && s.workers == [Running(0)] && s.added == [task] && s.queue == []
    ensures !s.running && s.control == Idle && s.threads == {} && s.mutex.None? && !s.broken && !s.tainted
    ensures s.finished == {} && s.taken == 1 && s.late == {} && s.completed == 0
  {
    s := Begin();
    s := Go(s, Add(task));
    s := StartOne(s);
    s := TakeOne(s);
    s := Go(s, ClearFlag);
    s := Go(s, PollTimeout);
    assert s.threads == {0} && s.completed == 0;
    s := Go(s, Check);
  }

  /**
   * A second shutdown after a timed-out one compares the counter of no ended worker with no threads:
   * it returns true at once, with a task still running and another one still queued.
   */
  lemma SecondShutdownNotDrained<T(!new)>(task: T, next: T) returns (s: Pool<T>)
    ensures Reachable(s) && !s.tainted && Enabled(s, Join) && s.threads == {}
    ensures InProgress(s, 0) && s.queue == [next] && s.late == {} && s.finished == {}
  {
    s := TimedOutShutdown(task);
    s := Go(s, AddFrom(0, next));
    s := Go(s, ClearFlag);
    assert |s.threads| == 0 && s.completed == 0;
    s := Go(s, PollDone);
    s := Go(s, Check);
    assert s.workers[0] == Running(0);
  }

  /** A start after a timed-out shutdown: the next shutdown returns true with a task still running. */
  lemma RestartNotDrained<T(!new)>(task: T) returns (s: Pool<T>)
    ensures Reachable(s) && Enabled(s, Join) && s.tainted
    ensures InProgress(s, 0) && 0 !in s.late && 0 !in s.finished
  {
    s := TimedOutShutdown(task);
    s := StartOne(s);
    s := Go(s, ClearFlag);
    s := EndWorker(s, 1);
    assert s.threads == {1} && s.completed == 1;
    s := Go(s, PollDone);
    s := Go(s, Check);
    assert s.workers[0] == Running(0);
  }

  /**
   * A worker that left `cv.wait` because the flag was clear can find the flag set again by a restart
   * and the queue empty: it then takes the front of an empty queue.
   */
  lemma RestartBreaksTheQueue<T(!new)>() returns (s: Pool<T>)
    ensures Reachable(s) && s.tainted && s.broken
  {
    s := Begin();
    s := StartOne(s);
    s := Go(s, ClearFlag);
    s := Go(s, Wake(0));
    s := Go(s, PollTimeout);
    assert s.threads == {0} && s.completed == 0;
    s := Go(s, Check);
    assert s.workers[0] == Woken;
    s := Go(s, Start(1));
    s := Go(s, StoreCount);
    s := Go(s, StoreFlag);
    s := Go(s, Decide(0));
  }

  // ---- a shutdown can always finish ----

  /** How many steps a worker can still take while the flag is clear and nothing is added. */
  function Rank(at: Worker): nat {
    match at
    case Running(_) => 4
    case Waiting => 3
    case Woken => 2
    case Exiting(_) => 1
    case Exited => 0
  }

  function Ranks(workers: seq<Worker>): nat {
    if workers == [] then 0 else Ranks(workers[..|workers| - 1]) + Rank(workers[|workers| - 1])
  }

  /** Taking a task costs less than the task in the queue counted. */
  function StepsLeft<T>(s: Pool<T>): nat {
    4 * |s.queue| + Ranks(s.workers)
  }

  lemma {:induction false} RanksUpdate(workers: seq<Worker>, w: nat, at: Worker)
    requires w < |workers|
    ensures Ranks(workers[w := at]) == Ranks(workers) - Rank(workers[w]) + Rank(at)
  {
    var n := |workers| - 1;
    if w == n {
      assert workers[w := at][..n] == workers[..n];
    } else {
      assert workers[w := at][..n] == workers[..n][w := at];
      RanksUpdate(workers[..n], w, at);
    }
  }

  /** While the flag is clear, a worker that has not ended can take a step, or the one with the mutex can. */
  lemma NextWorkerStep<T>(s: Pool<T>, w: nat) returns (a: Action<T>)
    requires MutualExclusion(s) && !s.broken && !s.running && w < |s.workers| && s.workers[w] != Exited
    ensures Enabled(s, a) && (a.Wake? || a.Decide? || a.Leave? || a.Finish?) && a.w < |s.workers|
  {
    var at := s.workers[w];
    if at.Running? {
      a := Finish(w);
    } else if at == Woken {
      a := Decide(w);
    } else if at.Exiting? {
      a := Leave(w);
    } else if s.mutex.None? {
      a := Wake(w);
    } else {
      var holder := s.mutex.value;
      a := if s.workers[holder] == Woken then Decide(holder) else Leave(holder);
    }
  }

  lemma WorkerStepIsProgress<T>(s: Pool<T>, a: Action<T>)
    requires Enabled(s, a) && (a.Wake? || a.Decide? || a.Leave? || a.Finish?) && !s.running
    ensures StepsLeft(Apply(s, a)) < StepsLeft(s)
    ensures var t := Apply(s, a);
      && t.control == s.control && t.threads == s.threads && t.generation == s.generation && t.tainted == s.tainted
      && t.running == s.running && t.added == s.added && |t.workers| == |s.workers|
  {
    RanksUpdate(s.workers, a.w, Apply(s, a).workers[a.w]);
  }

  /** The workers of a shutdown that polls, in the hands of nobody else. */
  ghost predicate Ending<T>(s: Pool<T>) {
    Inv(s) && !s.tainted && s.control == Polling && s.threads == s.generation
  }

  lemma {:induction false} WorkersEnd<T(!new)>(s: Pool<T>) returns (t: Pool<T>)
    requires Reachable(s) && Ending(s)
    ensures Reachable(t) && Ending(t) && t.added == s.added && t.threads == s.threads
    ensures forall w :: 0 <= w < |t.workers| ==> t.workers[w] == Exited
    decreases StepsLeft(s)
  {
    if w :| 0 <= w < |s.workers| && s.workers[w] != Exited {
      var a := NextWorkerStep(s, w);
      WorkerStepIsProgress(s, a);
      StepKeepsInv(s, a);
      t := Go(s, a);
      t := WorkersEnd(t);
    } else {
      t := s;
    }
  }

  /**
   * From every state in which a shutdown polls for workers of a clean start, the workers can run to
   * their ends by themselves, and then the shutdown joins them and has drained the pool.
   */
  lemma ShutdownCanFinish<T(!new)>(s: Pool<T>) returns (t: Pool<T>)
    requires Reachable(s) && Ending(s) && s.threads != {}
    ensures Reachable(t) && Enabled(t, Join) && t.threads == s.threads && t.added == s.added
    ensures forall i :: 0 <= i < |t.added| ==> i in t.late || i in t.finished
  {
    t := WorkersEnd(s);
    assert ExitedOf(t) == t.threads;
    var polled := Go(t, PollDone);
    StepKeepsInv(t, PollDone);
    t := Go(polled, Check);
    StepKeepsInv(polled, Check);
    AllTakenFinished(t);
  }
}
