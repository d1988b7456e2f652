/** How often a batch can be sent, over all sessions and interleavings. */
module RetryBound {
  import opened Wrappers
  import opened FailedEvents
  import N = NetworkService

  // ---- the condition and the invariant ----

  /** No save is between its read and its write when a retry deletes the file. */
  predicate NoHalfSave(s: State, step: Step) {
    step.RetryDelete? || step.Retry? ==> s.pending == multiset{}
  }

  /** No retry is between its read and its deletion when another retry reads the file. */
  predicate NoHalfRetry(s: State, step: Step) {
    step.RetryRead? || step.Retry? ==> s.reading == []
  }

  ghost predicate Distinct(a: seq<Entry>) {
    forall i, j :: 0 <= i < j < |a| ==> a[i].batch != a[j].batch
  }

  ghost predicate Apart(a: seq<Entry>, b: seq<Entry>) {
    forall x, y :: x in a && y in b ==> x.batch != y.batch
  }

  /** The attempts of a payload are the number of times its batch was sent. */
  predicate Counted(s: State, e: Entry) {
    e.batch < |s.submitted| && s.submitted[e.batch] == e.attempts
  }

  /** A list in the file, about to be written, or read by a retry: none of its batches is under way. */
  ghost predicate Held(s: State, list: seq<Entry>) {
    && Distinct(list) && Apart(list, s.flight) && Apart(list, s.unsaved)
    && forall e :: e in list ==> Counted(s, e)
  }

  ghost predicate AllHeld(s: State) {
    && Held(s, Listed(s.file))
    && (forall list :: list in s.pending ==> Held(s, list))
    && (forall c :: c in s.reading ==> Held(s, Listed(c)))
    && |s.reading| <= 1
  }

  /** Every batch that is under way is so once. */
  ghost predicate Moving(s: State) {
    && Distinct(s.flight) && Distinct(s.unsaved) && Apart(s.flight, s.unsaved)
    && (forall e :: e in s.unsaved ==> Counted(s, e))
    && (forall e :: e in s.flight ==> Counted(s, e))
  }

  ghost predicate Bounded(s: State) {
    && |s.posted| == |s.submitted|
    && (forall b :: 0 <= b < |s.submitted| ==>
          s.submitted[b] <= RETRY_COUNT + 1 && s.posted[b] <= N.LOG_EVENT_RETRY_COUNT * s.submitted[b])
    && (forall e :: e in s.flight && e.batch < |s.posted| ==>
          s.posted[e.batch] <= N.LOG_EVENT_RETRY_COUNT * (e.attempts - 1))
  }

  ghost predicate RetryInv(s: State) {
    FileInv(s) && AllHeld(s) && Moving(s) && Bounded(s)
  }

  // ---- lists of entries ----

  lemma WithoutDistinct(a: seq<Entry>, k: nat)
    requires Distinct(a) && k < |a|
    ensures Distinct(Without(a, k))
    ensures forall x :: x in Without(a, k) ==> x.batch != a[k].batch
  {
    var r := Without(a, k);
    forall i | 0 <= i < |r| ensures r[i] == a[if i < k then i else i + 1] {
    }
  }

  lemma SavedDistinct(list: seq<Entry>, e: Entry)
    requires Distinct(list) && Apart(list, [e])
    ensures Distinct(SavedList(list, e))
    ensures forall x :: x in SavedList(list, e) ==> x == e || x in list
  {
    var r := SavedList(list, e);
    assert e in [e];
    forall i | 1 <= i < |r| ensures r[i] == list[i - 1] && r[i] in list {
    }
  }

  lemma BumpedEntries(list: seq<Entry>)
    ensures forall x :: x in Bumped(list) ==> exists e :: e in list && x == e.(attempts := e.attempts + 1)
    ensures Distinct(list) ==> Distinct(Bumped(list))
  {
    var r := Bumped(list);
    forall x | x in r ensures exists e :: e in list && x == e.(attempts := e.attempts + 1) {
      var i :| 0 <= i < |r| && r[i] == x;
      assert list[i] in list;
    }
  }

  lemma DistinctAppend(a: seq<Entry>, e: Entry)
    requires Distinct(a) && Apart(a, [e])
    ensures Distinct(a + [e])
  {
    assert e in [e];
    forall i | 0 <= i < |a| ensures a[i].batch != e.batch {
      assert a[i] in a;
    }
  }

  lemma DistinctConcat(a: seq<Entry>, b: seq<Entry>)
    requires Distinct(a) && Distinct(b) && Apart(a, b)
    ensures Distinct(a + b)
  {
    forall i, j | 0 <= i < j < |a + b| ensures (a + b)[i].batch != (a + b)[j].batch {
      if i < |a| && |a| <= j {
        assert a[i] in a && b[j - |a|] in b;
      }
    }
  }

  lemma {:induction false} OccursNot(list: seq<Entry>, b: nat)
    requires forall e :: e in list ==> e.batch != b
    ensures Occurs(list, b) == 0
  {
    if list != [] {
      assert list[0] in list;
      OccursNot(list[1..], b);
    }
  }

  lemma {:induction false} OccursOnce(list: seq<Entry>, k: nat)
    requires Distinct(list) && k < |list|
    ensures Occurs(list, list[k].batch) == 1
  {
    if k == 0 {
      forall e | e in list[1..] ensures e.batch != list[0].batch {
        var i :| 0 <= i < |list| - 1 && list[1..][i] == e;
        assert list[i + 1] == e;
      }
      OccursNot(list[1..], list[0].batch);
    } else {
      assert list[1..][k - 1] == list[k];
      OccursOnce(list[1..], k - 1);
    }
  }

  // ---- every step keeps the invariant ----

  /** The list stays held when its batches are neither sent nor put under way. */
  lemma StaysHeld(s: State, t: State, list: seq<Entry>)
    requires Held(s, list)
    requires |s.submitted| <= |t.submitted| && forall e :: e in list && e.batch < |s.submitted| ==> t.submitted[e.batch] == s.submitted[e.batch]
    requires forall y :: y in t.flight || y in t.unsaved ==>
      y in s.flight || y in s.unsaved || y.batch >= |s.submitted|
    ensures Held(t, list)
  {
    forall x, y | x in list && (y in t.flight || y in t.unsaved) ensures x.batch != y.batch {
      assert Counted(s, x);
    }
  }

  /** A step that changes neither the file nor what was read or is to be written. */
  lemma StoresStay(s: State, t: State)
    requires AllHeld(s)
    requires t.file == s.file && t.pending == s.pending && t.reading == s.reading
    requires s.submitted <= t.submitted
    requires forall y :: y in t.flight || y in t.unsaved ==>
      y in s.flight || y in s.unsaved || y.batch >= |s.submitted|
    ensures AllHeld(t)
  {
    StaysHeld(s, t, Listed(s.file));
    forall list | list in t.pending ensures Held(t, list) { StaysHeld(s, t, list); }
    forall c | c in t.reading ensures Held(t, Listed(c)) { StaysHeld(s, t, Listed(c)); }
  }

  lemma RetrySend(s: State)
    requires RetryInv(s)
    ensures RetryInv(Apply(s, Send))
  {
    FileStep(s, Send);
    var e, t := Entry(|s.submitted|, 1), Apply(s, Send);
    assert forall x :: x in t.flight ==> x in s.flight || x == e;
    StoresStay(s, t);
    forall x | x in s.flight || x in s.unsaved ensures x.batch != e.batch {
      assert Counted(s, x);
    }
    DistinctAppend(s.flight, e);
  }

  lemma AnswerMoves(s: State, k: nat, server: N.Server, alive: bool)
    requires Moving(s) && k < |s.flight|
    ensures Moving(AnswerStep(s, k, server, alive))
  {
    WithoutDistinct(s.flight, k);
    assert s.flight[k] in s.flight;
    DistinctAppend(s.unsaved, s.flight[k]);
  }

  lemma RetryCutOff(s: State, k: nat, requests: nat)
    requires RetryInv(s) && Enabled(s, CutOff(k, requests))
    ensures RetryInv(Apply(s, CutOff(k, requests)))
  {
    FileStep(s, CutOff(k, requests));
    StoresStay(s, Apply(s, CutOff(k, requests)));
    WithoutDistinct(s.flight, k);
    assert s.flight[k] in s.flight && Counted(s, s.flight[k]);
  }

  lemma AnswerBounded(s: State, k: nat, server: N.Server, alive: bool)
    requires Moving(s) && Bounded(s) && k < |s.flight|
    ensures Bounded(AnswerStep(s, k, server, alive))
  {
    WithoutDistinct(s.flight, k);
    assert s.flight[k] in s.flight && Counted(s, s.flight[k]);
  }

  lemma RetryAnswer(s: State, k: nat, server: N.Server, alive: bool)
    requires RetryInv(s) && k < |s.flight|
    ensures RetryInv(AnswerStep(s, k, server, alive))
  {
    FileStep(s, Answer(k, server, alive));
    StoresStay(s, AnswerStep(s, k, server, alive));
    AnswerMoves(s, k, server, alive);
    AnswerBounded(s, k, server, alive);
  }

  /** What a save makes of the file is held once the payload is no longer waiting to be saved. */
  lemma SavedHeld(s: State, k: nat, t: State)
    requires AllHeld(s) && Moving(s) && k < |s.unsaved|
    requires t.flight == s.flight && t.unsaved == Without(s.unsaved, k) && t.submitted == s.submitted
    ensures Held(t, SavedList(Listed(s.file), s.unsaved[k]))
    ensures Moving(t)
  {
    WithoutDistinct(s.unsaved, k);
    assert s.unsaved[k] in s.unsaved;
    SavedDistinct(Listed(s.file), s.unsaved[k]);
  }

  lemma RetrySaveRead(s: State, k: nat)
    requires RetryInv(s) && k < |s.unsaved|
    ensures RetryInv(Apply(s, SaveRead(k)))
  {
    var t := Apply(s, SaveRead(k));
    FileStep(s, SaveRead(k));
    SavedHeld(s, k, t);
    StoresStay(s, t.(pending := s.pending));
  }

  lemma RetrySave(s: State, k: nat)
    requires RetryInv(s) && k < |s.unsaved|
    ensures RetryInv(Apply(s, Save(k)))
  {
    var t := Apply(s, Save(k));
    FileStep(s, Save(k));
    SavedHeld(s, k, t);
    StoresStay(s, t.(file := s.file));
  }

  lemma RetryWrite(s: State, list: seq<Entry>)
    requires RetryInv(s) && list in s.pending
    ensures RetryInv(Apply(s, Write(list)))
  {
    var t := Apply(s, Write(list));
    FileStep(s, Write(list));
    assert Held(t, list);
    forall l | l in t.pending ensures Held(t, l) { assert l in s.pending; }
  }

  lemma RetryReads(s: State)
    requires RetryInv(s) && s.reading == []
    ensures RetryInv(Apply(s, RetryRead))
  {
    FileStep(s, RetryRead);
  }

  /** Sending a held list: its counters go up by one, all others stay. */
  lemma ResentCounters(s: State, list: seq<Entry>, count: nat)
    requires Held(s, list) && count <= |list|
    ensures var sent := Bumped(list[..count]);
      && (forall e :: e in sent ==> Counted(Resent(s, list, count), e) && s.submitted[e.batch] == e.attempts - 1)
      && (forall b :: 0 <= b < |s.submitted| && (forall e :: e in sent ==> e.batch != b) ==>
            CountedAlso(s.submitted, sent)[b] == s.submitted[b])
  {
    var some := list[..count];
    var sent := Bumped(some);
    BumpedEntries(some);
    forall e | e in sent ensures Counted(Resent(s, list, count), e) && s.submitted[e.batch] == e.attempts - 1 {
      var k :| 0 <= k < |sent| && sent[k] == e;
      assert some[k] in list && Counted(s, some[k]);
      OccursOnce(sent, k);
    }
    forall b | 0 <= b < |s.submitted| && (forall e :: e in sent ==> e.batch != b)
      ensures CountedAlso(s.submitted, sent)[b] == s.submitted[b]
    {
      OccursNot(sent, b);
    }
  }

  lemma ResentApart(s: State, list: seq<Entry>, count: nat)
    requires Held(s, list) && count <= |list|
    ensures var sent := Bumped(list[..count]);
      Distinct(sent) && Apart(s.flight, sent) && Apart(sent, s.unsaved)
  {
    var some := list[..count];
    BumpedEntries(some);
    assert forall e :: e in some ==> e in list;
  }

  lemma ResentMoves(s: State, list: seq<Entry>, count: nat)
    requires Held(s, list) && Moving(s) && count <= |list|
    ensures Moving(Resent(s, list, count))
  {
    var sent, t := Bumped(list[..count]), Resent(s, list, count);
    ResentApart(s, list, count);
    ResentCounters(s, list, count);
    DistinctConcat(s.flight, sent);
    forall e | e in s.flight || e in s.unsaved ensures Counted(t, e) {
      assert Counted(s, e);
    }
  }

  lemma ResentBounded(s: State, list: seq<Entry>, count: nat)
    requires Held(s, list) && Conforming(list) && Bounded(s) && Moving(s) && count <= |list|
    ensures Bounded(Resent(s, list, count))
  {
    var sent, t := Bumped(list[..count]), Resent(s, list, count);
    ResentCounters(s, list, count);
    BumpedConforms(list[..count]);
    forall b | 0 <= b < |t.submitted|
      ensures t.submitted[b] <= RETRY_COUNT + 1 && t.posted[b] <= N.LOG_EVENT_RETRY_COUNT * t.submitted[b]
    {
      if e :| e in sent && e.batch == b {
        assert Counted(t, e);
      }
    }
  }

  lemma RetryResent(s: State, list: seq<Entry>, count: nat)
    requires RetryInv(s) && Held(s, list) && Conforming(list) && count <= |list|
    requires FileInv(Resent(s, list, count))
    requires s.pending == multiset{} && s.reading == []
    ensures RetryInv(Resent(s, list, count))
  {
    ResentMoves(s, list, count);
    ResentBounded(s, list, count);
  }

  lemma RetryDeletes(s: State, k: nat, count: nat)
    requires RetryInv(s) && Enabled(s, RetryDelete(k, count)) && s.pending == multiset{}
    ensures RetryInv(Apply(s, RetryDelete(k, count)))
  {
    FileStep(s, RetryDelete(k, count));
    assert s.reading[k] in s.reading;
    var t := s.(reading := Without(s.reading, k));
    RetryResent(t, Listed(s.reading[k]), count);
  }

  lemma RetryAll(s: State, count: nat)
    requires RetryInv(s) && Enabled(s, Retry(count)) && s.pending == multiset{} && s.reading == []
    ensures RetryInv(Apply(s, Retry(count)))
  {
    FileStep(s, Retry(count));
    RetryResent(s, Listed(s.file), count);
  }

  lemma RetryCorrupt(s: State)
    requires RetryInv(s)
    ensures RetryInv(Apply(s, Corrupt))
  {
    FileStep(s, Corrupt);
  }

  lemma RetryNewSession(s: State)
    requires RetryInv(s) && Enabled(s, NewSession)
    ensures RetryInv(Apply(s, NewSession))
  {
    FileStep(s, NewSession);
  }

  lemma RetryStep(s: State, step: Step)
    requires RetryInv(s) && Enabled(s, step) && NoHalfSave(s, step) && NoHalfRetry(s, step)
    ensures RetryInv(Apply(s, step))
  {
    match step {
      case Send => RetrySend(s);
      case Answer(k, server, alive) => RetryAnswer(s, k, server, alive);
      case SaveRead(k) => RetrySaveRead(s, k);
      case Write(list) => RetryWrite(s, list);
      case Save(k) => RetrySave(s, k);
      case RetryRead => RetryReads(s);
      case RetryDelete(k, count) => RetryDeletes(s, k, count);
      case Retry(count) => RetryAll(s, count);
      case Corrupt => RetryCorrupt(s);
      case CutOff(k, requests) => RetryCutOff(s, k, requests);
      case NewSession => RetryNewSession(s);
    }
  }

  /**
   * Saves may interrupt each other and their writes come whenever they come. If only no save is half
   * done when a retry deletes the file, and no retry is half done when another one reads it, then
   * over any number of sessions no batch is submitted more than four times or posted more than eight
   * times, the attempts stored with a payload are the submissions made so far, and no batch that is
   * stored is being sent.
   */
  lemma {:induction false} RetryBound(states: seq<State>, steps: seq<Step>, n: nat)
    requires IsRun(states, steps) && n < |states|
    requires states[0] == Start(Absent)
    requires forall i :: 0 <= i < n ==> NoHalfSave(states[i], steps[i]) && NoHalfRetry(states[i], steps[i])
    ensures RetryInv(states[n])
    ensures forall b :: 0 <= b < |states[n].submitted| ==> states[n].submitted[b] <= 4 && states[n].posted[b] <= 8
  {
    if n > 0 {
      RetryBound(states, steps, n - 1);
      RetryStep(states[n - 1], steps[n - 1]);
    }
  }

  // ---- a batch is given up exactly when it must be ----

  /**
   * What becomes of a submission that gets its answer: it is delivered on a 2xx of the first request,
   * or of the second after a retryable failure; otherwise, if the logger is there to do it, it is
   * saved again for as long as it has been sent at most three times, and given up after that.
   */
  lemma AnswerMeaning(s: State, k: nat, server: N.Server, alive: bool)
    requires k < |s.flight|
    ensures var t, e := AnswerStep(s, k, server, alive), s.flight[k];
      var good := server(1).status / 100 == 2
        || (server(1).status in {408, 500, 502, 503, 504, 522, 524, 599} && server(2).status / 100 == 2);
      && t.delivered == s.delivered + (if good then {e.batch} else {})
      && t.unsaved == s.unsaved + (if !good && alive && e.attempts <= 3 then [e] else [])
      && t.exhausted == s.exhausted + (if !good && alive && e.attempts > 3 then {e.batch} else {})
      && t.cut == s.cut + (if !good && !alive then {e.batch} else {})
      && t.dropped == s.dropped && t.submitted == s.submitted
  {
    N.FinalAttemptMeaning(server, N.LOG_EVENT_RETRY_COUNT, N.FinalAttempt(server, N.LOG_EVENT_RETRY_COUNT, 1));
  }

  ghost predicate ExhaustedAtFour(s: State) {
    forall b :: b in s.exhausted ==> b < |s.submitted| && s.submitted[b] == 4
  }

  lemma ExhaustedByAnswer(s: State, k: nat, server: N.Server, alive: bool)
    requires RetryInv(s) && ExhaustedAtFour(s) && k < |s.flight|
    ensures ExhaustedAtFour(AnswerStep(s, k, server, alive))
  {
    assert s.flight[k] in s.flight && Counted(s, s.flight[k]);
  }

  /** A list that is sent holds no batch that was given up: its attempts are at most three. */
  lemma ExhaustedByResent(s: State, list: seq<Entry>, count: nat)
    requires Held(s, list) && Conforming(list) && ExhaustedAtFour(s) && count <= |list|
    ensures ExhaustedAtFour(Resent(s, list, count))
  {
    var sent := Bumped(list[..count]);
    ResentCounters(s, list, count);
    BumpedEntries(list[..count]);
    forall b | b in s.exhausted ensures CountedAlso(s.submitted, sent)[b] == s.submitted[b] {
      forall e | e in sent ensures e.batch != b {
        assert s.submitted[e.batch] == e.attempts - 1;
      }
    }
  }

  lemma ExhaustedStep(s: State, step: Step)
    requires RetryInv(s) && ExhaustedAtFour(s) && Enabled(s, step)
    ensures ExhaustedAtFour(Apply(s, step))
  {
    match step {
      case Send =>
      case Answer(k, server, alive) => ExhaustedByAnswer(s, k, server, alive);
      case SaveRead(_) =>
      case Write(_) =>
      case Save(_) =>
      case RetryRead =>
      case RetryDelete(k, count) =>
        assert s.reading[k] in s.reading;
        ExhaustedByResent(s.(reading := Without(s.reading, k)), Listed(s.reading[k]), count);
      case Retry(count) => ExhaustedByResent(s, Listed(s.file), count);
      case Corrupt =>
      case CutOff(_, _) =>
      case NewSession =>
    }
  }

  /** Under the conditions of `RetryBound`, a batch that is given up has been submitted four times. */
  lemma {:induction false} GivenUpAtFour(states: seq<State>, steps: seq<Step>, n: nat)
    requires IsRun(states, steps) && n < |states|
    requires states[0] == Start(Absent)
    requires forall i :: 0 <= i < n ==> NoHalfSave(states[i], steps[i]) && NoHalfRetry(states[i], steps[i])
    ensures forall b :: b in states[n].exhausted ==> b < |states[n].submitted| && states[n].submitted[b] == 4
  {
    if n > 0 {
      GivenUpAtFour(states, steps, n - 1);
      RetryBound(states, steps, n - 1);
      assert ExhaustedAtFour(states[n - 1]);
      ExhaustedStep(states[n - 1], steps[n - 1]);
    }
  }

  // ---- the bounds are met ----

  predicate Careful(s: State, step: Step) {
    NoHalfSave(s, step) && NoHalfRetry(s, step)
  }

  /** Every request is answered with a retryable failure. */
  function Unavailable(): N.Server {
    attempt => N.Response(503, "")
  }

  /** Batch 0 has been sent `a` times, with two requests each time, and is in the file. */
  function Round(a: nat): State {
    Start(Absent).(file := Entries([Entry(0, a)]), submitted := [a], posted := [2 * a])
  }

  /** The only batch in flight fails and is saved. */
  lemma FailAndSave(s: State, a: nat) returns (t: State)
    requires Reachable(Careful, s) && 1 <= a <= 3
    requires s == Start(Absent).(flight := [Entry(0, a)], submitted := [a], posted := [2 * (a - 1)])
    ensures t == Round(a) && Reachable(Careful, t)
  {
    t := Go(Careful, s, Answer(0, Unavailable(), true));
    assert t.unsaved == [Entry(0, a)] && t.flight == [];
    t := Go(Careful, t, Save(0));
    assert SavedList<Entry>([], Entry(0, a)) == [Entry(0, a)];
  }

  lemma Resend(a: nat) returns (t: State)
    requires Reachable(Careful, Round(a))
    ensures Reachable(Careful, t)
    ensures t == Start(Absent).(flight := [Entry(0, a + 1)], submitted := [a + 1], posted := [2 * a])
  {
    t := Go(Careful, Round(a), Retry(1));
    assert Bumped([Entry(0, a)][..1]) == [Entry(0, a + 1)];
    assert Occurs([Entry(0, a + 1)], 0) == 1;
    assert Batches([Entry(0, a)][1..]) == {};
  }

  lemma {:induction false} Rounds(a: nat)
    requires 1 <= a <= 3
    ensures Reachable(Careful, Round(a))
  {
    var s: State;
    if a == 1 {
      s := Start(Absent);
      assert IsRunTo(Careful, [s], [], s);
      s := Go(Careful, s, Send);
    } else {
      Rounds(a - 1);
      s := Resend(a - 1);
    }
    s := FailAndSave(s, a);
  }

  /** The bounds of `RetryBound` are reached by a run that meets its conditions. */
  lemma BoundsAreMet() returns (s: State)
    ensures Reachable(Careful, s) && s.submitted == [4] && s.posted == [8] && s.exhausted == {0}
  {
    Rounds(3);
    s := Resend(3);
    s := Go(Careful, s, Answer(0, Unavailable(), true));
  }

  // ---- without either half of the condition there is no bound ----

  /** The list that a save computes while the file holds batch 0. */
  predicate Stale(list: seq<Entry>) {
    |list| == 2 && list[0].batch != 0 && list[1] == Entry(0, 1)
  }

  ghost predicate AllStale(s: State, n: nat) {
    |s.pending| == n && forall list :: list in s.pending ==> Stale(list)
  }

  /** `n` saves have read the file with batch 0, and none has written it yet. */
  lemma {:induction false} StaleSaves(n: nat) returns (s: State)
    ensures Reachable(NoHalfRetry, s) && Quiet(s) && s.file == Entries([Entry(0, 1)]) && s.reading == []
    ensures |s.submitted| > 0 && s.submitted[0] == 1 && AllStale(s, n)
  {
    if n == 0 {
      s := SavedOnce(NoHalfRetry);
    } else {
      var t := StaleSaves(n - 1);
      s := SendRefused(NoHalfRetry, t);
      s := Go(NoHalfRetry, s, SaveRead(0));
      assert Stale(SavedList([Entry(0, 1)], Entry(|t.submitted|, 1)));
    }
  }

  /** The first request in flight is refused, and its logger is gone. */
  lemma Dropped(ok: (State, Step) -> bool, s: State) returns (t: State)
    requires Reachable(ok, s) && s.flight != [] && forall u, step: Step :: step.Answer? ==> ok(u, step)
    ensures Reachable(ok, t) && t == s.(flight := s.flight[1..], posted := t.posted, cut := t.cut)
  {
    t := Go(ok, s, Answer(0, Refused(), false));
    assert t.flight == s.flight[1..];
  }

  /** A stale list is sent. */
  lemma StaleSent(s: State, list: seq<Entry>)
    requires Stale(list) && |s.submitted| > 0 && s.flight == []
    ensures |Resent(s, list, 2).flight| == 2
    ensures Resent(s, list, 2).submitted[0] == s.submitted[0] + 1
  {
    var sent := Bumped(list[..2]);
    assert sent == [list[0].(attempts := list[0].attempts + 1), Entry(0, 2)];
    assert sent[1..] == [Entry(0, 2)] && sent[1..][1..] == [];
    assert Occurs(sent[1..], 0) == 1;
  }

  /** A stale list is written, sent, and refused without being saved. */
  lemma Revive(s: State, list: seq<Entry>) returns (t: State)
    requires Reachable(NoHalfRetry, s) && Quiet(s) && s.reading == [] && |s.submitted| > 0
    requires list in s.pending && Stale(list)
    ensures Reachable(NoHalfRetry, t) && Quiet(t) && t.reading == [] && t.pending == s.pending - multiset{list}
    ensures |t.submitted| == |s.submitted| && t.submitted[0] == s.submitted[0] + 1
  {
    t := Go(NoHalfRetry, s, Write(list));
    StaleSent(t, list);
    t := Go(NoHalfRetry, t, Retry(2));
    t := Dropped(NoHalfRetry, t);
    t := Dropped(NoHalfRetry, t);
  }

  lemma {:induction false} ReviveAll(s: State, n: nat) returns (t: State)
    requires Reachable(NoHalfRetry, s) && Quiet(s) && s.reading == [] && |s.submitted| > 0 && AllStale(s, n)
    ensures Reachable(NoHalfRetry, t) && |t.submitted| > 0 && t.submitted[0] == s.submitted[0] + n
    decreases n
  {
    if n == 0 {
      t := s;
    } else {
      var list :| list in s.pending;
      t := Revive(s, list);
      t := ReviveAll(t, n - 1);
    }
  }

  /**
   * A save that read the file before a retry and writes it afterwards brings deleted payloads back
   * with their old attempts. With such saves a batch is submitted as often as you like, although no
   * two retries overlap.
   */
  lemma HalfSavesBreakTheBound(n: nat) returns (s: State)
    ensures Reachable(NoHalfRetry, s) && |s.submitted| > 0 && s.submitted[0] == n + 1
  {
    s := StaleSaves(n);
    s := ReviveAll(s, n);
  }

  /** `n` retries have read the file with batch 0, and none has deleted it yet. */
  lemma {:induction false} ManyReaders(n: nat) returns (s: State)
    ensures Reachable(NoHalfSave, s) && s.submitted == [1] && s.pending == multiset{}
    ensures s.file == Entries([Entry(0, 1)]) && |s.reading| == n && forall c :: c in s.reading ==> c == s.file
  {
    if n == 0 {
      s := SavedOnce(NoHalfSave);
    } else {
      s := ManyReaders(n - 1);
      s := Go(NoHalfSave, s, RetryRead);
    }
  }

  lemma SendAnother(s: State) returns (t: State)
    requires Reachable(NoHalfSave, s) && |s.submitted| == 1 && s.pending == multiset{}
    requires s.reading != [] && s.reading[0] == Entries([Entry(0, 1)])
    ensures Reachable(NoHalfSave, t) && |t.submitted| == 1 && t.submitted[0] == s.submitted[0] + 1
    ensures t.pending == multiset{} && t.reading == s.reading[1..]
  {
    t := Go(NoHalfSave, s, RetryDelete(0, 1));
    assert Bumped([Entry(0, 1)][..1]) == [Entry(0, 2)];
    assert Occurs([Entry(0, 2)], 0) == 1;
  }

  lemma {:induction false} AllSend(s: State, n: nat) returns (t: State)
    requires Reachable(NoHalfSave, s) && |s.submitted| == 1 && s.pending == multiset{}
    requires |s.reading| == n && forall c :: c in s.reading ==> c == Entries([Entry(0, 1)])
    ensures Reachable(NoHalfSave, t) && |t.submitted| == 1 && t.submitted[0] == s.submitted[0] + n
    decreases n
  {
    if n == 0 {
      t := s;
    } else {
      assert s.reading[0] in s.reading;
      t := SendAnother(s);
      assert forall c :: c in t.reading ==> c in s.reading;
      t := AllSend(t, n - 1);
    }
  }

  /** Retries that read the file before one of them has deleted it all send it. */
  lemma HalfRetriesBreakTheBound(n: nat) returns (s: State)
    ensures Reachable(NoHalfSave, s) && |s.submitted| == 1 && s.submitted[0] == n + 1
  {
    s := ManyReaders(n);
    s := AllSend(s, n);
  }
}
