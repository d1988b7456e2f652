/** Which interleavings of saves and retries lose no batch. */
module SavedBatches {
  import opened Wrappers
  import opened FailedEvents
  import opened RetryBound
  import N = NetworkService

  // ---- no batch is forgotten ----

  /** Saves do not overlap: none reads the file before the one before it has written. */
  predicate SavesApart(s: State, step: Step) {
    step.SaveRead? || step.Save? ==> s.pending == multiset{}
  }

  /** No write falls between the read and the deletion of a retry. */
  predicate NoWriteInRetry(s: State, step: Step) {
    step.Write? || step.Save? ==> s.reading == []
  }

  /** The batch is being sent, about to be saved, in the file, about to be written, or read by a retry. */
  ghost predicate OnItsWay(s: State, b: nat) {
    || b in Batches(s.flight) || b in Batches(s.unsaved) || b in Batches(Listed(s.file))
    || (exists list :: list in s.pending && b in Batches(list))
    || (exists c :: c in s.reading && b in Batches(Listed(c)))
  }

  predicate Decided(s: State, b: nat) {
    b in s.delivered || b in s.exhausted || b in s.dropped || b in s.cut
  }

  ghost predicate Accounted(s: State, b: nat) {
    OnItsWay(s, b) || Decided(s, b)
  }

  /** What is in the file is also in what is to replace it, and in what a retry has read of it. */
  ghost predicate Covered(s: State) {
    && (forall list, b :: list in s.pending && b in Batches(Listed(s.file)) ==> b in Batches(list) || Decided(s, b))
    && (forall c, b :: c in s.reading && b in Batches(Listed(s.file)) ==> b in Batches(Listed(c)))
  }

  ghost predicate NothingForgotten(s: State) {
    Covered(s) && forall b :: 0 <= b < |s.submitted| ==> Accounted(s, b)
  }

  /** A batch is delivered and given up only by an answer. */
  lemma DeliveredOnly(s: State, step: Step)
    requires Enabled(s, step) && !step.Answer?
    ensures Apply(s, step).delivered == s.delivered && Apply(s, step).exhausted == s.exhausted
  {
  }

  /** A batch is pushed out only by a save into a list of five, whose last one it was. */
  lemma PushedOutOnly(s: State, step: Step)
    requires Enabled(s, step)
    ensures Apply(s, step).dropped == s.dropped +
      if (step.SaveRead? || step.Save?) && |Listed(s.file)| >= 5 then {Listed(s.file)[|Listed(s.file)| - 1].batch} else {}
  {
  }

  /** A batch is cut off only where something was gone: the process, the file, the logger or the network. */
  lemma CutOnly(s: State, step: Step)
    requires Enabled(s, step) && !step.CutOff? && !step.Corrupt? && !step.NewSession?
    requires step.Answer? ==> step.alive
    requires step.Retry? ==> step.count == |Listed(s.file)|
    requires step.RetryDelete? ==> step.count == |Listed(s.reading[step.k])|
    ensures Apply(s, step).cut == s.cut
  {
    if step.Retry? { assert Batches(Listed(s.file)[step.count..]) == {}; }
    if step.RetryDelete? { assert Batches(Listed(s.reading[step.k])[step.count..]) == {}; }
  }

  lemma BatchesWithout(list: seq<Entry>, k: nat)
    requires k < |list|
    ensures Batches(list) == Batches(Without(list, k)) + {list[k].batch}
  {
    forall e | e in list ensures e in Without(list, k) || e == list[k] {
      var i :| 0 <= i < |list| && list[i] == e;
      assert i < k ==> Without(list, k)[i] == e;
      assert i > k ==> Without(list, k)[i - 1] == e;
    }
  }

  lemma BatchesSaved(list: seq<Entry>, e: Entry)
    ensures forall b :: b in Batches(list) || b == e.batch ==> b in Batches(SavedList(list, e)) || b in PushedOut(list)
  {
    var r := SavedList(list, e);
    assert r[0] == e;
    forall x | x in list ensures x in r || x.batch in PushedOut(list) {
      var i :| 0 <= i < |list| && list[i] == x;
      assert i + 1 < |r| ==> r[i + 1] == x;
    }
  }

  lemma BatchesBumped(list: seq<Entry>, count: nat)
    requires count <= |list|
    ensures Batches(list) == Batches(Bumped(list[..count])) + Batches(list[count..])
  {
    var sent := Bumped(list[..count]);
    forall x | x in list ensures x.batch in Batches(sent) || x in list[count..] {
      var i :| 0 <= i < |list| && list[i] == x;
      assert i < count ==> sent[i] in sent && sent[i].batch == x.batch;
      assert i >= count ==> list[count..][i - count] == x;
    }
    BumpedEntries(list[..count]);
  }

  lemma KeptSave(s: State, k: nat)
    requires NothingForgotten(s) && k < |s.unsaved| && s.pending == multiset{}
    ensures NothingForgotten(Apply(s, SaveRead(k)))
    ensures s.reading == [] ==> NothingForgotten(Apply(s, Save(k)))
  {
    BatchesWithout(s.unsaved, k);
    BatchesSaved(Listed(s.file), s.unsaved[k]);
    var list := SavedList(Listed(s.file), s.unsaved[k]);
    var t := Apply(s, SaveRead(k));
    assert list in t.pending;
    forall b | 0 <= b < |s.submitted| ensures Accounted(t, b) {
      assert Accounted(s, b);
    }
    if s.reading == [] {
      forall b | 0 <= b < |s.submitted| ensures Accounted(Apply(s, Save(k)), b) {
        assert Accounted(s, b);
      }
    }
  }

  lemma KeptWrite(s: State, list: seq<Entry>)
    requires NothingForgotten(s) && list in s.pending && s.reading == [] && |s.pending| <= 1
    ensures NothingForgotten(Apply(s, Write(list)))
  {
    var t := Apply(s, Write(list));
    assert s.pending == multiset{list} by { OnlyOne(s.pending, list); }
    forall b | 0 <= b < |s.submitted| ensures Accounted(t, b) {
      assert Accounted(s, b);
    }
  }

  lemma OnlyOne(m: multiset<seq<Entry>>, list: seq<Entry>)
    requires list in m && |m| <= 1
    ensures m == multiset{list}
  {
    assert |m - multiset{list}| == 0;
    assert m == multiset{list} + (m - multiset{list});
  }

  lemma KeptRead(s: State)
    requires NothingForgotten(s)
    ensures NothingForgotten(Apply(s, RetryRead))
  {
    var t := Apply(s, RetryRead);
    assert !s.file.Absent? ==> t.reading == s.reading + [s.file];
    forall b | 0 <= b < |s.submitted| ensures Accounted(t, b) {
      assert Accounted(s, b);
    }
  }

  /** The list that is sent holds everything that was in the file. */
  lemma KeptResent(s: State, t: State, list: seq<Entry>, count: nat)
    requires NothingForgotten(s) && count <= |list| && t == Resent(s.(reading := t.reading), list, count)
    requires Batches(Listed(s.file)) <= Batches(list)
    requires forall c :: c in s.reading ==> c in t.reading || Listed(c) == list
    ensures NothingForgotten(t)
  {
    BatchesBumped(list, count);
    forall b | 0 <= b < |s.submitted| ensures Accounted(t, b) {
      assert Accounted(s, b);
      assert b in Batches(s.flight) ==> b in Batches(t.flight);
      assert b in Batches(list) ==> b in Batches(t.flight) || b in t.cut;
    }
  }

  lemma KeptDelete(s: State, k: nat, count: nat)
    requires NothingForgotten(s) && Enabled(s, RetryDelete(k, count))
    ensures NothingForgotten(Apply(s, RetryDelete(k, count)))
  {
    var t := Apply(s, RetryDelete(k, count));
    forall c | c in s.reading ensures c in t.reading || c == s.reading[k] {
      var i :| 0 <= i < |s.reading| && s.reading[i] == c;
      assert i < k ==> Without(s.reading, k)[i] == c;
      assert i > k ==> Without(s.reading, k)[i - 1] == c;
    }
    assert s.reading[k] in s.reading;
    KeptResent(s, t, Listed(s.reading[k]), count);
  }

  lemma KeptSend(s: State)
    requires NothingForgotten(s)
    ensures NothingForgotten(Apply(s, Send))
  {
    var t := Apply(s, Send);
    assert Entry(|s.submitted|, 1) in t.flight && forall e :: e in s.flight ==> e in t.flight;
    forall b | 0 <= b < |s.submitted| ensures Accounted(t, b) {
      assert Accounted(s, b);
    }
  }

  /** A batch leaves the flight and is decided or about to be saved. */
  lemma KeptLanding(s: State, t: State, k: nat)
    requires NothingForgotten(s) && k < |s.flight| && t.flight == Without(s.flight, k)
    requires t.file == s.file && t.pending == s.pending && t.reading == s.reading && |t.submitted| == |s.submitted|
    requires s.delivered <= t.delivered && s.exhausted <= t.exhausted && s.dropped <= t.dropped && s.cut <= t.cut
    requires Batches(s.unsaved) <= Batches(t.unsaved)
    requires Decided(t, s.flight[k].batch) || s.flight[k].batch in Batches(t.unsaved)
    ensures NothingForgotten(t)
  {
    BatchesWithout(s.flight, k);
    forall b | 0 <= b < |s.submitted| ensures Accounted(t, b) {
      assert Accounted(s, b);
    }
  }

  lemma KeptAnswer(s: State, k: nat, server: N.Server, alive: bool)
    requires NothingForgotten(s) && k < |s.flight|
    ensures NothingForgotten(AnswerStep(s, k, server, alive))
  {
    var t := AnswerStep(s, k, server, alive);
    assert t.unsaved != s.unsaved ==> s.flight[k] in t.unsaved;
    assert forall e :: e in s.unsaved ==> e in t.unsaved;
    KeptLanding(s, t, k);
  }

  lemma KeptLoss(s: State, step: Step)
    requires NothingForgotten(s) && Enabled(s, step) && (step.Corrupt? || step.NewSession?)
    ensures NothingForgotten(Apply(s, step))
  {
    forall b | 0 <= b < |s.submitted| ensures Accounted(Apply(s, step), b) {
      assert Accounted(s, b);
    }
  }

  lemma KeptStep(s: State, step: Step)
    requires NothingForgotten(s) && |s.pending| <= 1 && Enabled(s, step) && SavesApart(s, step) && NoWriteInRetry(s, step)
    ensures NothingForgotten(Apply(s, step)) && |Apply(s, step).pending| <= 1
  {
    match step {
      case Send => KeptSend(s);
      case Answer(k, server, alive) => KeptAnswer(s, k, server, alive);
      case CutOff(k, _) => KeptLanding(s, Apply(s, step), k);
      case SaveRead(k) => KeptSave(s, k);
      case Save(k) => KeptSave(s, k);
      case Write(list) => KeptWrite(s, list);
      case RetryRead => KeptRead(s);
      case RetryDelete(k, count) => KeptDelete(s, k, count);
      case Retry(count) => KeptResent(s, Apply(s, step), Listed(s.file), count);
      case Corrupt => KeptLoss(s, step);
      case NewSession => KeptLoss(s, step);
    }
  }

  /**
   * If saves do not overlap, and no write falls between a retry's read and its deletion, then every
   * batch ever sent is on its way or stored, or it was delivered, failed too often, was pushed out as
   * the sixth, or was cut off from outside.
   */
  lemma {:induction false} NoBatchForgotten(states: seq<State>, steps: seq<Step>, n: nat)
    requires IsRun(states, steps) && n < |states| && states[0] == Start(Absent)
    requires forall i :: 0 <= i < n ==> SavesApart(states[i], steps[i]) && NoWriteInRetry(states[i], steps[i])
    ensures NothingForgotten(states[n]) && |states[n].pending| <= 1
  {
    if n > 0 {
      NoBatchForgotten(states, steps, n - 1);
      KeptStep(states[n - 1], steps[n - 1]);
    }
  }

  // ---- without either half of its condition a batch is forgotten ----

  predicate ButOverlappingSaves(s: State, step: Step) {
    NoWriteInRetry(s, step) && NoHalfSave(s, step) && NoHalfRetry(s, step)
  }

  predicate ButWritesInRetries(s: State, step: Step) {
    SavesApart(s, step) && NoHalfSave(s, step) && NoHalfRetry(s, step)
  }

  /** Two batches are sent and refused. */
  lemma TwoRefused() returns (s: State)
    ensures Reachable(ButOverlappingSaves, s) && s.unsaved == [Entry(0, 1), Entry(1, 1)] && s.flight == []
    ensures s == Start(Absent).(unsaved := s.unsaved, submitted := [1, 1], posted := s.posted)
  {
    s := Start(Absent);
    assert IsRunTo(ButOverlappingSaves, [s], [], s);
    s := Go(ButOverlappingSaves, s, Send);
    s := Go(ButOverlappingSaves, s, Send);
    assert s.flight == [Entry(0, 1), Entry(1, 1)];
    s := Go(ButOverlappingSaves, s, Answer(0, Refused(), true));
    assert s.flight == [Entry(1, 1)] && s.unsaved == [Entry(0, 1)];
    s := Go(ButOverlappingSaves, s, Answer(0, Refused(), true));
  }

  /** A save reads the missing file. */
  lemma ReadMissing(s: State) returns (t: State)
    requires Reachable(ButOverlappingSaves, s) && s.unsaved != [] && s.file == Absent
    ensures Reachable(ButOverlappingSaves, t)
    ensures t == s.(unsaved := s.unsaved[1..], pending := s.pending + multiset{[s.unsaved[0]]})
  {
    t := Go(ButOverlappingSaves, s, SaveRead(0));
    assert SavedList<Entry>([], s.unsaved[0]) == [s.unsaved[0]];
    assert t.unsaved == s.unsaved[1..];
  }

  /** Of two saves that both read the file before either writes it, the first one's payload is forgotten. */
  lemma OverlappingSavesForget() returns (s: State)
    ensures Reachable(ButOverlappingSaves, s) && s.submitted == [1, 1] && s.file == Entries([Entry(1, 1)])
    ensures !Accounted(s, 0)
  {
    s := TwoRefused();
    s := ReadMissing(s);
    s := ReadMissing(s);
    var first, second := [Entry(0, 1)], [Entry(1, 1)];
    assert s.pending == multiset{first, second};
    s := Go(ButOverlappingSaves, s, Write(first));
    assert s.pending == multiset{second};
    s := Go(ButOverlappingSaves, s, Write(second));
    assert s.pending == multiset{};
  }

  /** A retry has read the file with batch 0, and batch 1 is about to be saved. */
  lemma RetryHasRead() returns (s: State)
    ensures Reachable(ButWritesInRetries, s)
    ensures s == Start(Absent).(file := Entries([Entry(0, 1)]), reading := [Entries([Entry(0, 1)])],
                                unsaved := [Entry(1, 1)], submitted := [1, 1], posted := s.posted)
  {
    s := SavedOnce(ButWritesInRetries);
    s := SendRefused(ButWritesInRetries, s);
    s := Go(ButWritesInRetries, s, RetryRead);
  }

  /** A payload that is saved between the read and the deletion of a retry is deleted unread. */
  lemma WriteInRetryForgets() returns (s: State)
    ensures Reachable(ButWritesInRetries, s) && |s.submitted| == 2 && s.file == Absent
    ensures !Accounted(s, 1)
  {
    s := RetryHasRead();
    var reading := s.reading;
    s := Go(ButWritesInRetries, s, Save(0));
    assert s.reading == reading && s.unsaved == [] && s.dropped == {};
    s := Go(ButWritesInRetries, s, RetryDelete(0, 1));
    assert Bumped([Entry(0, 1)][..1]) == [Entry(0, 2)];
    assert s.flight == [Entry(0, 2)] && s.reading == [] && [Entry(0, 1)][1..] == [];
  }
}
