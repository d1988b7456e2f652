/**
 * The loop of a background timer, with a clock that advances only in sleeps and in the task, and
 * sleeps that last exactly as long as asked. `flag(n)` is what the n-th read of the shutdown flag
 * returns.
 */
module BackgroundTimer {

  const MAX_INTERVAL_SLEEP_MS := 10

  /** Once set, the shutdown flag stays set. */
  ghost predicate StaysSet(flag: nat -> bool) {
    forall i: nat, j: nat :: i <= j && flag(i) ==> flag(j)
  }

  /** A task start: when, and after how many reads of the flag. */
  datatype Start = Start(time: int, readsBefore: nat)

  /** Starts are at least `interval` apart, and the first that long after the loop began. */
  ghost predicate Spaced(starts: seq<Start>, begin: int, interval: int) {
    && (starts != [] ==> starts[0].time - begin >= interval)
    && (forall i :: 0 < i < |starts| ==> starts[i].time - starts[i - 1].time >= interval)
  }

  /**
   * With a positive interval the first start comes within interval and one sleep step, and every
   * next one within task time, interval and one sleep step.
   */
  ghost predicate Prompt(starts: seq<Start>, begin: int, duration: nat -> nat, interval: int) {
    && (starts != [] ==> starts[0].time < begin + interval + MAX_INTERVAL_SLEEP_MS)
    && (forall i :: 0 < i < |starts| ==>
          starts[i].time < starts[i - 1].time + duration(i - 1) + interval + MAX_INTERVAL_SLEEP_MS)
  }

  /** The read just before a start found the flag clear, and each start has a read of its own. */
  ghost predicate Guarded(starts: seq<Start>, flag: nat -> bool) {
    && (forall i :: 0 <= i < |starts| ==> starts[i].readsBefore > 0 && !flag(starts[i].readsBefore - 1))
    && (forall i, j :: 0 <= i < j < |starts| ==> starts[i].readsBefore < starts[j].readsBefore)
  }

  /** How many steps a sleep of this length takes. */
  function Naps(interval: int): int {
    (interval + MAX_INTERVAL_SLEEP_MS - 1) / MAX_INTERVAL_SLEEP_MS
  }

  /** How often the flag is read, at most, until a start, and for that start itself. */
  function ReadsPerStart(interval: int): int {
    if interval > 0 then 3 + Naps(interval) else 2
  }

  function ReadsFor(starts: nat, interval: int): int {
    if starts == 0 then 0 else ReadsFor(starts - 1, interval) + ReadsPerStart(interval)
  }

  /** Sleeps in steps until the interval has passed or the flag is seen set. */
  method Doze(begin: int, interval: int, flag: nat -> bool, first: nat) returns (now: int, count: nat)
    requires interval > 0
    ensures count > first
    ensures begin < now < begin + interval + MAX_INTERVAL_SLEEP_MS
    ensures flag(count - 1) || now - begin >= interval
    ensures count - first <= Naps(interval) && forall i :: first <= i < count - 1 ==> !flag(i)
  {
    now := begin + MAX_INTERVAL_SLEEP_MS;
    count := first + 1;
    while !flag(count - 1) && now - begin < interval
      invariant count > first && now == begin + MAX_INTERVAL_SLEEP_MS * (count - first)
      invariant forall i :: first <= i < count - 1 ==> !flag(i)
      invariant begin < now < begin + interval + MAX_INTERVAL_SLEEP_MS
      decreases begin + interval - now
    {
      now := now + MAX_INTERVAL_SLEEP_MS;
      count := count + 1;
    }
  }

  lemma AppendStart(starts: seq<Start>, s: Start, begin: int, duration: nat -> nat, interval: int)
    requires Spaced(starts, begin, interval)
    requires s.time - (if starts == [] then begin else starts[|starts| - 1].time) >= interval
    ensures Spaced(starts + [s], begin, interval)
    ensures Prompt(starts, begin, duration, interval)
      && s.time < (if starts == [] then begin else starts[|starts| - 1].time + duration(|starts| - 1)) + interval + MAX_INTERVAL_SLEEP_MS
      ==> Prompt(starts + [s], begin, duration, interval)
  {
  }

  lemma AppendGuarded(starts: seq<Start>, s: Start, flag: nat -> bool)
    requires Guarded(starts, flag) && s.readsBefore > 0 && !flag(s.readsBefore - 1)
    requires forall i :: 0 <= i < |starts| ==> starts[i].readsBefore < s.readsBefore
    ensures Guarded(starts + [s], flag)
  {
  }

  /** The last of the first `count` reads found the flag set. */
  predicate SeenSet(flag: nat -> bool, count: nat) {
    count > 0 && flag(count - 1)
  }

  /**
   * After `turn` turns: the flag was read at most once after it was seen set, there are not too many
   * reads for this number of starts, and not too few starts for this number of turns. `due` says that
   * a start is due, `rested` that the loop has slept since the last one.
   */
  ghost predicate Paced(starts: nat, count: nat, interval: int, flag: nat -> bool, turn: int, due: bool, rested: bool) {
    && (forall i :: 0 <= i < count - 1 ==> !flag(i))
    && count <= ReadsFor(starts, interval) + (if rested then ReadsPerStart(interval) - 2 else 0)
    && starts <= turn
    && (SeenSet(flag, count) || turn <= 2 * starts + (if due then 1 else 0))
    && (SeenSet(flag, count) || interval > 0 || turn <= starts)
  }

  lemma PacedStart(starts: nat, count: nat, interval: int, flag: nat -> bool, turn: int, rested: bool, due: bool)
    requires StaysSet(flag) && Paced(starts, count, interval, flag, turn, true, rested) && !flag(count) && !flag(count + 1)
    ensures Paced(starts + 1, count + 2, interval, flag, turn + 1, due, false)
  {
  }

  lemma PacedDoze(starts: nat, count: nat, slept: nat, interval: int, flag: nat -> bool, turn: int, due: bool)
    requires StaysSet(flag) && Paced(starts, count, interval, flag, turn, false, false) && !flag(count) && interval > 0
    requires count + 1 < slept <= count + 1 + Naps(interval) && forall i :: count < i < slept - 1 ==> !flag(i)
    requires SeenSet(flag, slept) || due
    ensures Paced(starts, slept, interval, flag, turn + 1, due, true)
  {
  }

  /** The clock is at `now`, the last attempt was at `last`, and the wait for the next start began at `base`. */
  ghost predicate Timed(starts: seq<Start>, count: nat, begin: int, interval: int, duration: nat -> nat, flag: nat -> bool,
                        now: int, last: int, base: int)
  {
    && last <= base <= now
    && (if starts == [] then last == begin == base
        else last == starts[|starts| - 1].time && base == last + duration(|starts| - 1))
    && (SeenSet(flag, count) || now == base || base + interval <= now < base + interval + MAX_INTERVAL_SLEEP_MS)
    && (forall i :: 0 <= i < |starts| ==> starts[i].readsBefore <= count)
    && Spaced(starts, begin, interval)
    && (interval > 0 ==> Prompt(starts, begin, duration, interval))
    && Guarded(starts, flag)
  }

  lemma TimedStart(starts: seq<Start>, count: nat, begin: int, interval: int, duration: nat -> nat, flag: nat -> bool,
                   now: int, last: int, base: int)
    requires StaysSet(flag) && !flag(count) && !flag(count + 1) && now - last >= interval
    requires Timed(starts, count, begin, interval, duration, flag, now, last, base)
    ensures Timed(starts + [Start(now, count + 2)], count + 2, begin, interval, duration, flag,
                  now + duration(|starts|), now, now + duration(|starts|))
  {
    AppendStart(starts, Start(now, count + 2), begin, duration, interval);
    AppendGuarded(starts, Start(now, count + 2), flag);
  }

  lemma TimedDoze(starts: seq<Start>, count: nat, slept: nat, begin: int, interval: int, duration: nat -> nat,
                  flag: nat -> bool, now: int, later: int, last: int, base: int)
    requires StaysSet(flag) && !flag(count) && now - last < interval && interval > 0
    requires Timed(starts, count, begin, interval, duration, flag, now, last, base)
    requires count < slept && now < later < now + interval + MAX_INTERVAL_SLEEP_MS
    requires SeenSet(flag, slept) || later - now >= interval
    ensures Timed(starts, slept, begin, interval, duration, flag, later, last, base)
    ensures now == base && (SeenSet(flag, slept) || later - last >= interval)
  {
  }

  /**
   * The first `turns` turns of the loop, which read the flag `count` times; `duration(k)` is how long
   * the k-th task takes. Unless the flag was seen set, at least every second turn starts a task, and
   * without an interval every turn does. The loop ends at the first or second read that finds the
   * flag set, and there are only so many reads from one start to the next.
   */
  method TimerLoop(begin: int, interval: int, duration: nat -> nat, flag: nat -> bool, turns: nat)
    returns (starts: seq<Start>, count: nat)
    requires StaysSet(flag)
    ensures Spaced(starts, begin, interval)
    ensures interval > 0 ==> Prompt(starts, begin, duration, interval)
    ensures Guarded(starts, flag) && forall i :: 0 <= i < |starts| ==> starts[i].readsBefore <= count
    ensures |starts| <= turns
    ensures SeenSet(flag, count) || turns <= if interval > 0 then 2 * |starts| + 1 else |starts|
    ensures forall i :: 0 <= i < count - 2 ==> !flag(i)
    ensures count <= ReadsFor(|starts| + 1, interval)
  {
    starts, count := [], 0;
    var now, lastAttempt, stopped := begin, begin, false;
    ghost var base := begin; // when the wait for the next start begins
    for turn := 0 to turns
      invariant !stopped
      invariant Timed(starts, count, begin, interval, duration, flag, now, lastAttempt, base)
      invariant Paced(|starts|, count, interval, flag, turn, now - lastAttempt >= interval, now != base)
    {
      starts, count, now, lastAttempt, stopped, base :=
        Turn(starts, count, now, lastAttempt, base, begin, interval, duration, flag, turn);
      if stopped {
        break;
      }
    }
  }

  /** One turn: it ends the loop, sleeps, or starts a task. */
  method Turn(starts: seq<Start>, count: nat, now: int, lastAttempt: int, ghost base: int,
              ghost begin: int, interval: int, duration: nat -> nat, flag: nat -> bool, ghost turn: int)
    returns (starts': seq<Start>, count': nat, now': int, lastAttempt': int, stopped: bool, ghost base': int)
    requires StaysSet(flag) && Timed(starts, count, begin, interval, duration, flag, now, lastAttempt, base)
    requires Paced(|starts|, count, interval, flag, turn, now - lastAttempt >= interval, now != base)
    ensures stopped ==>
      && starts' == starts && SeenSet(flag, count')
      && count <= count' <= ReadsFor(|starts| + 1, interval) && forall i :: 0 <= i < count' - 2 ==> !flag(i)
    ensures !stopped ==> Timed(starts', count', begin, interval, duration, flag, now', lastAttempt', base')
    ensures !stopped ==> Paced(|starts'|, count', interval, flag, turn + 1, now' - lastAttempt' >= interval, now' != base')
  {
    starts', count', now', lastAttempt', stopped, base' := starts, count + 1, now, lastAttempt, flag(count), base;
    if stopped {
      return;
    }
    if now - lastAttempt < interval {
      now', count' := SleepTurn(starts, count, now, lastAttempt, base, begin, interval, duration, flag, turn);
      return;
    }
    stopped := flag(count');
    count' := count' + 1;
    if stopped {
      return;
    }
    starts', now' := StartTurn(starts, count, now, lastAttempt, base, begin, interval, duration, flag, turn);
    lastAttempt', base' := now, now';
  }

  method StartTurn(starts: seq<Start>, count: nat, now: int, ghost lastAttempt: int, ghost base: int,
                   ghost begin: int, ghost interval: int, duration: nat -> nat, ghost flag: nat -> bool, ghost turn: int)
    returns (starts': seq<Start>, now': int)
    requires StaysSet(flag) && Timed(starts, count, begin, interval, duration, flag, now, lastAttempt, base)
    requires Paced(|starts|, count, interval, flag, turn, true, now != base)
    requires !flag(count) && !flag(count + 1) && now - lastAttempt >= interval
    ensures Timed(starts', count + 2, begin, interval, duration, flag, now', now, now')
    ensures Paced(|starts'|, count + 2, interval, flag, turn + 1, now' - now >= interval, false)
  {
    starts' := starts + [Start(now, count + 2)];
    now' := now + duration(|starts|);
    TimedStart(starts, count, begin, interval, duration, flag, now, lastAttempt, base);
    PacedStart(|starts|, count, interval, flag, turn, now != base, now' - now >= interval);
  }

  method SleepTurn(ghost starts: seq<Start>, count: nat, now: int, ghost lastAttempt: int, ghost base: int,
                   ghost begin: int, interval: int, ghost duration: nat -> nat, flag: nat -> bool, ghost turn: int)
    returns (now': int, count': nat)
    requires StaysSet(flag) && Timed(starts, count, begin, interval, duration, flag, now, lastAttempt, base)
    requires Paced(|starts|, count, interval, flag, turn, false, now != base)
    requires !flag(count) && now - lastAttempt < interval
    ensures Timed(starts, count', begin, interval, duration, flag, now', lastAttempt, base)
    ensures Paced(|starts|, count', interval, flag, turn + 1, now' - lastAttempt >= interval, now' != base)
  {
    now', count' := Doze(now, interval, flag, count + 1);
    TimedDoze(starts, count, count', begin, interval, duration, flag, now, now', lastAttempt, base);
    PacedDoze(|starts|, count, count', interval, flag, turn, now' - lastAttempt >= interval);
  }

  /**
   * Suppose the flag is set between read `m - 1` and read `m`. At most one task starts after the
   * setting: it is the one, if any, that starts between these two reads.
   */
  lemma AtMostOneStartAfterStop(starts: seq<Start>, flag: nat -> bool, m: nat, i: nat, j: nat)
    requires StaysSet(flag) && Guarded(starts, flag) && flag(m)
    requires i <= j < |starts| && starts[i].readsBefore >= m && starts[j].readsBefore >= m
    ensures i == j && starts[i].readsBefore == m
  {
    assert !flag(starts[i].readsBefore - 1) && !flag(starts[j].readsBefore - 1);
  }
}
