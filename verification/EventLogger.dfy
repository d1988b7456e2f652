/** The event logger: a buffer that is turned into batches for the worker pool. */
module EventLogger {
  import opened Wrappers
  import opened UserKeys
  import opened EventCodec
  import D = Diagnostics
  import P = PoolProtocol
  import TP = ThreadPool

  /** What the buffer holds: logged events, and the events that diagnostics adds at a flush. */
  datatype Item =
    | Logged(event: Event)
    | DiagnosticsEvent(time: int, user: User, markers: seq<D.Marker>)

  /** Pool tasks: send a batch; write the failed-event file for the batch sent by an earlier task; any other. */
  datatype Task =
    | SendBatch(items: seq<Item>)
    | SaveBatch(batch: nat)
    | Other

  /** The state behind the logger's lock, with the markers it shares with diagnostics. */
  datatype Logger = Logger(buffer: seq<Item>, markers: seq<D.Marker>, user: User)

  const MAX_QUEUED_EVENTS := 50
  const SIZE_LIMIT: int := 0x1_0000_0000_0000_0000

  /** `size() > max_buffer_size_`: the signed limit is converted to an unsigned one. */
  predicate Exceeds(size: nat, maxBufferSize: int) {
    size > if maxBufferSize < 0 then maxBufferSize + SIZE_LIMIT else maxBufferSize
  }

  /** The buffer with the diagnostics event, which exists only if there are markers. */
  function WithDiagnostics(l: Logger, now: int): seq<Item> {
    if l.markers == [] then l.buffer else l.buffer + [DiagnosticsEvent(now, l.user, l.markers)]
  }

  function Emptied(l: Logger): Logger {
    l.(buffer := [], markers := [])
  }

  /** The batch that a flush hands to the pool, if there is anything to send. */
  function FlushedBatch(l: Logger, now: int): Option<seq<Item>> {
    if WithDiagnostics(l, now) == [] then None else Some(WithDiagnostics(l, now))
  }

  function Appended(l: Logger, e: Event): Logger {
    l.(buffer := l.buffer + [Logged(e)])
  }

  /** Logger and batch after `Enqueue`. */
  function Enqueued(l: Logger, e: Event, maxBufferSize: int, now: int): (Logger, Option<seq<Item>>) {
    var a := Appended(l, e);
    if Exceeds(|a.buffer|, maxBufferSize) then (Emptied(a), FlushedBatch(a, now)) else (a, None)
  }

  /**
   * An event that leaves at most the allowed number in the buffer just stays there. One too many
   * sends everything, with the markers as one event at the end, and leaves nothing. A negative limit is
   * so large as an unsigned number that nothing is ever sent.
   */
  lemma EnqueueMeaning(l: Logger, e: Event, maxBufferSize: int, now: int)
    requires -0x8000_0000 <= maxBufferSize && |l.buffer| < 0x7fff_ffff_ffff_ffff
    ensures var (after, batch) := Enqueued(l, e, maxBufferSize, now);
      var items := l.buffer + [Logged(e)];
      if maxBufferSize < 0 || |items| <= maxBufferSize then after == Logger(items, l.markers, l.user) && batch.None?
      else
        && after == Logger([], [], l.user)
        && batch == Some(items + if l.markers == [] then [] else [DiagnosticsEvent(now, l.user, l.markers)])
  {
    var items := l.buffer + [Logged(e)];
    assert items + [] == items;
  }

  /** A flush sends what there is, and nothing at all if there is nothing. */
  lemma FlushMeaning(l: Logger, now: int)
    ensures FlushedBatch(l, now).None? <==> l.buffer == [] && l.markers == []
    ensures FlushedBatch(l, now).Some? ==>
      FlushedBatch(l, now).value == l.buffer + if l.markers == [] then [] else [DiagnosticsEvent(now, l.user, l.markers)]
    ensures Emptied(l) == Logger([], [], l.user)
  {
  }

  function Submitted(pool: P.Pool<Task>, batch: Option<seq<Item>>, outside: bool): P.Pool<Task> {
    if batch.Some? then P.Push(pool, SendBatch(batch.value), outside) else pool
  }

  class EventLogger {
    const maxBufferSize: int
    const diagnostics: D.Diagnostics
    const pool: TP.ThreadPool<Task>
    var events: seq<Item>
    var timerStopped: bool

    function View(): Logger
      reads this, diagnostics
    {
      Logger(events, diagnostics.markers, diagnostics.user)
    }

    constructor (configured: Option<int>, diagnostics: D.Diagnostics, pool: TP.ThreadPool<Task>)
      ensures maxBufferSize == configured.GetOr(MAX_QUEUED_EVENTS)
      ensures this.diagnostics == diagnostics && this.pool == pool && events == [] && !timerStopped
    {
      maxBufferSize := configured.GetOr(MAX_QUEUED_EVENTS);
      this.diagnostics, this.pool := diagnostics, pool;
      events, timerStopped := [], false;
    }

    method AppendDiagnostics(now: int)
      modifies this`events, diagnostics`markers
      ensures View() == old(View()).(buffer := WithDiagnostics(old(View()), now), markers := [])
    {
      if diagnostics.markers == [] {
        return;
      }
      var taken := diagnostics.TakeMarkers();
      events := events + [DiagnosticsEvent(now, diagnostics.user, taken)];
    }

    /** `outside` tells whether the caller is a thread outside the pool or a running task. */
    method FlushImpl(now: int, ghost outside: bool)
      modifies this`events, diagnostics`markers, pool
      ensures View() == Emptied(old(View()))
      ensures pool.View() == Submitted(old(pool.View()), FlushedBatch(old(View()), now), outside)
    {
      AppendDiagnostics(now);
      if events == [] {
        return;
      }
      var localEvents := events;
      events := [];
      pool.Push(SendBatch(localEvents), outside);
    }

    method Enqueue(event: Event, now: int, ghost outside: bool)
      modifies this`events, diagnostics`markers, pool
      ensures View() == Enqueued(old(View()), event, maxBufferSize, now).0
      ensures pool.View() == Submitted(old(pool.View()), Enqueued(old(View()), event, maxBufferSize, now).1, outside)
      ensures 0 <= maxBufferSize ==> |events| <= maxBufferSize
    {
      events := events + [Logged(event)];
      if Exceeds(|events|, maxBufferSize) {
        FlushImpl(now, outside);
      }
    }

    method Flush(now: int, ghost outside: bool)
      modifies this`events, diagnostics`markers, pool
      ensures View() == Emptied(old(View()))
      ensures pool.View() == Submitted(old(pool.View()), FlushedBatch(old(View()), now), outside)
    {
      FlushImpl(now, outside);
    }

    method Shutdown(now: int)
      modifies this, diagnostics`markers, pool
      ensures timerStopped && View() == Emptied(old(View()))
      ensures pool.View() == Submitted(old(pool.View()), FlushedBatch(old(View()), now), true)
    {
      timerStopped := true;
      FlushImpl(now, true);
    }
  }
}
