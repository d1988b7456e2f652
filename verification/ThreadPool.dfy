/**
 * The pool object. Each method is one atomic access to the fields, made by a worker, by the
 * controller or by a thread that adds a task, and performs exactly one step of `PoolProtocol`, so
 * that every interleaving of the methods is a run of that protocol. Program counters (`workers`,
 * `control`), the holder of the mutex and the history are ghost.
 */
module ThreadPool {
  import opened Wrappers
  import opened PoolProtocol

  class ThreadPool<T> {
    var threads: set<WorkerId>
    var tasks: seq<T>
    var isRunning: bool
    var completedCount: int

    ghost var workers: seq<Worker>
    ghost var mutex: Option<WorkerId>
    ghost var control: Control
    ghost var added: seq<T>
    ghost var taken: nat
    ghost var finished: set<nat>
    ghost var late: set<nat>
    ghost var generation: set<WorkerId>
    ghost var tainted: bool
    ghost var broken: bool

    ghost function View(): Pool<T>
      reads this
    {
      Pool(tasks, workers, threads, isRunning, completedCount, mutex, control, broken,
           added, taken, finished, late, generation, tainted)
    }

    constructor ()
      ensures View() == Initial<T>()
    {
      threads, tasks, isRunning, completedCount := {}, [], false, 0;
      workers, mutex, control := [], None, Idle;
      added, taken, finished, late, generation, tainted, broken := [], 0, {}, {}, {}, false, false;
    }

    // ---- Add ----

    method Push(task: T, ghost outside: bool)
      modifies this
      ensures View() == PoolProtocol.Push(old(View()), task, outside)
    {
      late := if outside && !isRunning then late + {|added|} else late;
      tasks := tasks + [task];
      added := added + [task];
    }

    // ---- the worker loop ----

    /** `cv.wait` returns only with the mutex held and its predicate true. */
    ghost method LeaveWait(w: WorkerId)
      requires Enabled(View(), Wake(w))
      modifies this
      ensures View() == Apply(old(View()), Wake(w))
    {
      mutex := Some(w);
      workers := workers[w := Woken];
    }

    /** Returns the task to run, or nothing when the worker is to end. */
    method TakeOrExit(ghost w: WorkerId) returns (task: Option<T>)
      requires Enabled(View(), Decide(w))
      modifies this
      ensures View() == Apply(old(View()), Decide(w))
      ensures old(tasks) != [] ==> task == Some(old(tasks[0]))
      ensures old(tasks) == [] ==> task == None
    {
      task := None;
      if !isRunning && tasks == [] {
        workers := workers[w := Exiting(completedCount)];
      } else if tasks == [] {
        broken := true;
      } else {
        task := Some(tasks[0]);
        tasks := tasks[1..];
        workers := workers[w := Running(taken)];
        taken := taken + 1;
        mutex := None;
      }
    }

    /** Stores the counter that was loaded in the same locked section. */
    method CountAndEnd(ghost w: WorkerId, loaded: int)
      requires Enabled(View(), Leave(w)) && workers[w].loaded == loaded
      modifies this
      ensures View() == Apply(old(View()), Leave(w))
    {
      completedCount := loaded + 1;
      workers := workers[w := Exited];
      mutex := None;
    }

    ghost method TaskReturned(w: WorkerId)
      requires Enabled(View(), Finish(w))
      modifies this
      ensures View() == Apply(old(View()), Finish(w))
    {
      finished := finished + {workers[w].task};
      workers := workers[w := Waiting];
    }

    // ---- Reset ----

    method BeginReset(ghost count: int)
      requires Enabled(View(), Start(count))
      modifies this
      ensures View() == Apply(old(View()), Start(count))
    {
      if isRunning {
        return;
      }
      tainted := tainted || AnyLive(View());
      threads := {};
      generation := {};
      control := Control.ResetCount(count);
    }

    method ResetCount()
      requires Enabled(View(), StoreCount)
      modifies this
      ensures View() == Apply(old(View()), StoreCount)
    {
      completedCount := 0;
      control := Control.ResetFlag(control.toSpawn);
    }

    method ResetFlag()
      requires Enabled(View(), StoreFlag)
      modifies this
      ensures View() == Apply(old(View()), StoreFlag)
    {
      isRunning := true;
      late := {};
      control := Spawning(control.toSpawn);
    }

    /** One turn of the loop that creates threads; `remaining` is `num_threads - i`. */
    method CreateThread(remaining: int, id: WorkerId)
      requires Enabled(View(), Spawn) && control.toSpawn == remaining && id == |workers|
      modifies this
      ensures View() == Apply(old(View()), Spawn)
    {
      if remaining <= 0 {
        control := Idle;
      } else {
        threads := threads + {id};
        generation := generation + {|workers|};
        workers := workers + [Waiting];
        control := Spawning(remaining - 1);
      }
    }

    // ---- Shutdown ----

    method BeginShutdown()
      requires Enabled(View(), ClearFlag)
      modifies this
      ensures View() == Apply(old(View()), ClearFlag)
    {
      isRunning := false;
      control := Polling;
    }

    /** One turn of the polling loop; `expired` is the clock test. */
    method Poll(expired: bool)
      requires Enabled(View(), PollTimeout)
      modifies this
      ensures View() == if expired || completedCount == |threads| then Apply(old(View()), PollTimeout) else old(View())
    {
      if completedCount == |threads| || expired {
        control := Checking;
      }
    }

    method CheckCompleted() returns (joined: bool)
      requires Enabled(View(), Check)
      modifies this
      ensures View() == Apply(old(View()), Check)
      ensures joined <==> old(completedCount) == |old(threads)|
    {
      joined := completedCount == |threads|;
      if joined {
        control := Joining;
      } else {
        threads := {};
        control := Idle;
      }
    }

    method JoinThreads()
      requires Enabled(View(), Join)
      modifies this
      ensures View() == Apply(old(View()), Join)
    {
      threads := {};
      control := Idle;
    }
  }
}
