/**
 * The file of failed events: saving a batch, retrying it in a later session, and all interleavings
 * of the reads, deletions and deferred writes that the two make.
 */
module FailedEvents {
  import opened Wrappers
  import opened Json
  import opened EventCodec
  import N = NetworkService

  const RETRY_COUNT := 3
  const MAX_PAYLOADS := 5

  /** `failures.insert(begin, p)`, and the last element goes if there are now too many. */
  function SavedList<T>(failures: seq<T>, p: T): (r: seq<T>)
    ensures r != [] && r[0] == p
    ensures |r| == if |failures| < MAX_PAYLOADS then |failures| + 1 else |failures|
    ensures forall i :: 1 <= i < |r| ==> r[i] == failures[i - 1]
  {
    var all := [p] + failures;
    if |all| > MAX_PAYLOADS then all[..|all| - 1] else all
  }

  // ---- the two operations ----

  /** The file as text: missing, or a document (`None` if it is not JSON). */
  datatype FileText = Missing | Text(document: Option<Json>)

  function Previous(file: FileText): seq<Payload> {
    if file.Text? && Deserialized(file.document).Success? then Deserialized(file.document).value else []
  }

  /** Reads the file and returns the document that a later pool task is to write. */
  method SaveFailedEvents(file: FileText, events: seq<Event>, attempt: int32) returns (toWrite: Json)
    ensures toWrite == JArray(EncodePayloads(SavedList(Previous(file), Payload(attempt, events))))
  {
    var failures: seq<Payload> := [];
    if file.Text? {
      var parsed := Deserialize(file.document);
      if parsed.Success? {
        failures := parsed.value;
      }
    }
    failures := [Payload(attempt, events)] + failures;
    if |failures| > MAX_PAYLOADS {
      failures := failures[..|failures| - 1];
    }
    assert failures == SavedList(Previous(file), Payload(attempt, events));
    toWrite := Serialize(failures);
  }

  /** What the next reader finds after that write: the new payload first, all in normal form. */
  lemma SavedThenRead(file: FileText, events: seq<Event>, attempt: int32)
    ensures Previous(Text(Some(JArray(EncodePayloads(SavedList(Previous(file), Payload(attempt, events)))))))
      == NormalPayloads(SavedList(Previous(file), Payload(attempt, events)))
  {
    FileRoundTrip(SavedList(Previous(file), Payload(attempt, events)));
  }

  /**
   * Reads and deletes the file; the payloads are sent in order with the next attempt number, until
   * the network, which is locked anew for each of them, is gone.
   */
  method RetryFailedEvents(file: FileText, networkAlive: nat -> bool) returns (after: FileText, sends: seq<(seq<Event>, int)>)
    ensures after == Missing
    ensures |sends| <= |Previous(file)|
    ensures forall i :: 0 <= i < |sends| ==>
      sends[i] == (Previous(file)[i].events, Previous(file)[i].attempts + 1) && networkAlive(i)
    ensures |sends| < |Previous(file)| ==> !networkAlive(|sends|)
  {
    after, sends := Missing, [];
    if file.Missing? {
      return;
    }
    var failures := Deserialize(file.document);
    if failures.Failure? {
      return;
    }
    for i := 0 to |failures.value|
      invariant |sends| == i
      invariant forall k :: 0 <= k < i ==>
        sends[k] == (failures.value[k].events, failures.value[k].attempts + 1) && networkAlive(k)
    {
      if !networkAlive(i) {
        break;
      }
      sends := sends + [(failures.value[i].events, failures.value[i].attempts + 1)];
    }
  }

  // ---- the protocol ----

  /** A payload by the identity of its batch. */
  datatype Entry = Entry(batch: nat, attempts: int)

  datatype Content = Absent | Garbage | Entries(list: seq<Entry>)

  /**
   * `pending` are the lists that saves have computed and pool tasks are still to write; `reading` are
   * the retries between reading and deleting the file; `flight` are the batches being sent, with
   * their attempt numbers; `unsaved` are those that failed and are about to be saved. `submitted` and
   * `posted` count, for every batch ever created, how often it was sent and how many requests were
   * posted. The last four sets are the batches that a 2xx has answered, that failed too often, that
   * were pushed out of a full list, and that were cut off: by the end of a process, by a damaged file,
   * or because network or logger were gone.
   */
  datatype State = State(
    file: Content,
    pending: multiset<seq<Entry>>,
    reading: seq<Content>,
    flight: seq<Entry>,
    unsaved: seq<Entry>,
    submitted: seq<nat>,
    posted: seq<nat>,
    delivered: set<nat>,
    exhausted: set<nat>,
    dropped: set<nat>,
    cut: set<nat>)

  datatype Step =
    | Send                                             // a new batch is sent
    | Answer(k: nat, server: N.Server, alive: bool)    // the request of flight[k] is over
    | SaveRead(k: nat)                                 // a save reads the file
    | Write(list: seq<Entry>)                          // a pool task writes what a save computed
    | Save(k: nat)                                     // a save whose read and write nothing interrupts
    | RetryRead                                        // a retry reads the file
    | RetryDelete(k: nat, count: nat)                  // a retry deletes it and sends the first payloads
    | Retry(count: nat)                                // a retry whose read and delete nothing interrupts
    | Corrupt                                          // a partial write, or damage from outside
    | CutOff(k: nat, requests: nat)                    // flight[k] gets no answer after this many requests
    | NewSession                                       // what is not in the file is lost

  function Listed(c: Content): seq<Entry> {
    if c.Entries? then c.list else []
  }

  function Without<T>(s: seq<T>, k: nat): (r: seq<T>)
    requires k < |s|
    ensures |r| == |s| - 1
    ensures forall x :: x in r ==> x in s
  {
    s[..k] + s[k + 1..]
  }

  /** The payloads of a retry, each with the number of its next attempt. */
  function Bumped(list: seq<Entry>): (r: seq<Entry>)
    ensures |r| == |list|
  {
    seq(|list|, i requires 0 <= i < |list| => list[i].(attempts := list[i].attempts + 1))
  }

  function Occurs(list: seq<Entry>, batch: nat): nat {
    if list == [] then 0 else (if list[0].batch == batch then 1 else 0) + Occurs(list[1..], batch)
  }

  /** Every entry of the list is one more submission of its batch. */
  function CountedAlso(counts: seq<nat>, list: seq<Entry>): (r: seq<nat>)
    ensures |r| == |counts|
  {
    seq(|counts|, b requires 0 <= b < |counts| => counts[b] + Occurs(list, b))
  }

  predicate Enabled(s: State, step: Step) {
    match step
    case Answer(k, _, _) => k < |s.flight|
    case SaveRead(k) => k < |s.unsaved|
    case Write(list) => list in s.pending
    case Save(k) => k < |s.unsaved|
    case RetryDelete(k, count) => k < |s.reading| && count <= |Listed(s.reading[k])|
    case Retry(count) => count <= |Listed(s.file)|
    case CutOff(k, requests) => k < |s.flight| && requests <= N.LOG_EVENT_RETRY_COUNT
    case NewSession => s.flight == []
    case _ => true
  }

  function Posted(posted: seq<nat>, batch: nat, requests: nat): (r: seq<nat>)
    ensures |r| == |posted|
  {
    if batch < |posted| then posted[batch := posted[batch] + requests] else posted
  }

  function AnswerStep(s: State, k: nat, server: N.Server, alive: bool): State
    requires k < |s.flight|
  {
    var e := s.flight[k];
    var requests := N.FinalAttempt(server, N.LOG_EVENT_RETRY_COUNT, 1);
    var t := s.(flight := Without(s.flight, k), posted := Posted(s.posted, e.batch, requests));
    if N.IsSuccess(server(requests).status) then t.(delivered := s.delivered + {e.batch})
    else if !alive then t.(cut := s.cut + {e.batch})
    else if e.attempts > RETRY_COUNT then t.(exhausted := s.exhausted + {e.batch})
    else t.(unsaved := s.unsaved + [e])
  }

  function Batches(list: seq<Entry>): set<nat> {
    set e | e in list :: e.batch
  }

  /** What a save pushes out of a full list. */
  function PushedOut(list: seq<Entry>): set<nat> {
    if |list| < MAX_PAYLOADS then {} else {list[|list| - 1].batch}
  }

  /** The save of unsaved[k] has read the file. */
  function SaveBegun(s: State, k: nat): State
    requires k < |s.unsaved|
  {
    s.(unsaved := Without(s.unsaved, k), dropped := s.dropped + PushedOut(Listed(s.file)))
  }

  /** The first `count` payloads of a file that was read are sent; the rest found no network. */
  function Resent(s: State, list: seq<Entry>, count: nat): State
    requires count <= |list|
  {
    var sent := Bumped(list[..count]);
    s.(file := Absent, flight := s.flight + sent, submitted := CountedAlso(s.submitted, sent),
       cut := s.cut + Batches(list[count..]))
  }

  /** What the end of a process loses. */
  function Volatile(s: State): set<nat> {
    Batches(s.unsaved)
    + (set list, b | list in s.pending && b in Batches(list) :: b)
    + (set c, b | c in s.reading && b in Batches(Listed(c)) :: b)
  }

  function Apply(s: State, step: Step): State
    requires Enabled(s, step)
  {
    match step
    case Send =>
      s.(flight := s.flight + [Entry(|s.submitted|, 1)], submitted := s.submitted + [1], posted := s.posted + [0])
    case Answer(k, server, alive) => AnswerStep(s, k, server, alive)
    case SaveRead(k) => SaveBegun(s, k).(pending := s.pending + multiset{SavedList(Listed(s.file), s.unsaved[k])})
    case Write(list) => s.(file := Entries(list), pending := s.pending - multiset{list})
    case Save(k) => SaveBegun(s, k).(file := Entries(SavedList(Listed(s.file), s.unsaved[k])))
    case RetryRead => if s.file.Absent? then s else s.(reading := s.reading + [s.file])
    case RetryDelete(k, count) => Resent(s.(reading := Without(s.reading, k)), Listed(s.reading[k]), count)
    case Retry(count) => Resent(s, Listed(s.file), count)
    case Corrupt => s.(file := Garbage, cut := s.cut + Batches(Listed(s.file)))
    case CutOff(k, requests) =>
      s.(flight := Without(s.flight, k), posted := Posted(s.posted, s.flight[k].batch, requests),
         cut := s.cut + {s.flight[k].batch})
    case NewSession => s.(pending := multiset{}, reading := [], unsaved := [], cut := s.cut + Volatile(s))
  }

  // ---- the file stays small, whatever the interleaving ----

  predicate Conforming(list: seq<Entry>) {
    |list| <= MAX_PAYLOADS && forall e :: e in list ==> 1 <= e.attempts <= RETRY_COUNT
  }

  ghost predicate FileInv(s: State) {
    && Conforming(Listed(s.file))
    && (forall list :: list in s.pending ==> Conforming(list))
    && (forall c :: c in s.reading ==> Conforming(Listed(c)))
    && (forall e :: e in s.flight ==> 1 <= e.attempts <= RETRY_COUNT + 1)
    && (forall e :: e in s.unsaved ==> 1 <= e.attempts <= RETRY_COUNT)
  }

  lemma SavedConforms(list: seq<Entry>, e: Entry)
    requires Conforming(list) && 1 <= e.attempts <= RETRY_COUNT
    ensures Conforming(SavedList(list, e))
  {
    var r := SavedList(list, e);
    forall x | x in r ensures 1 <= x.attempts <= RETRY_COUNT {
      var i :| 0 <= i < |r| && r[i] == x;
      assert i > 0 ==> r[i] == list[i - 1];
    }
  }

  lemma FileSave(s: State, k: nat)
    requires FileInv(s) && k < |s.unsaved|
    ensures FileInv(Apply(s, SaveRead(k))) && FileInv(Apply(s, Save(k)))
  {
    SavedConforms(Listed(s.file), s.unsaved[k]);
  }

  lemma FileResent(s: State, list: seq<Entry>, count: nat)
    requires FileInv(s) && Conforming(list) && count <= |list|
    ensures FileInv(Resent(s, list, count))
  {
    BumpedConforms(list[..count]);
  }

  lemma FileFlight(s: State, step: Step)
    requires FileInv(s) && Enabled(s, step) && (step.Send? || step.Answer? || step.CutOff?)
    ensures FileInv(Apply(s, step))
  {
  }

  lemma FileStep(s: State, step: Step)
    requires FileInv(s) && Enabled(s, step)
    ensures FileInv(Apply(s, step))
  {
    match step {
      case Send => FileFlight(s, step);
      case Answer(_, _, _) => FileFlight(s, step);
      case CutOff(_, _) => FileFlight(s, step);
      case SaveRead(k) => FileSave(s, k);
      case Save(k) => FileSave(s, k);
      case Retry(count) => FileResent(s, Listed(s.file), count);
      case RetryDelete(k, count) => FileResent(s.(reading := Without(s.reading, k)), Listed(s.reading[k]), count);
      case Write(_) =>
      case RetryRead =>
      case Corrupt =>
      case NewSession =>
    }
  }

  lemma BumpedConforms(list: seq<Entry>)
    requires Conforming(list)
    ensures forall e :: e in Bumped(list) ==> 1 <= e.attempts <= RETRY_COUNT + 1
  {
  }

  ghost predicate IsRun(states: seq<State>, steps: seq<Step>) {
    && |states| == |steps| + 1
    && forall i :: 0 <= i < |steps| ==> Enabled(states[i], steps[i]) && states[i + 1] == Apply(states[i], steps[i])
  }

  /** Sessions before the first one have left this file. */
  function Start(file: Content): State {
    State(file, multiset{}, [], [], [], [], [], {}, {}, {}, {})
  }

  /**
   * From a missing, damaged or conforming file, under every interleaving of saves, deferred writes,
   * retries and restarts, the file and every list still to be written hold at most five payloads,
   * each with one to three attempts.
   */
  lemma {:induction false} FileStaysConforming(states: seq<State>, steps: seq<Step>, n: nat)
    requires IsRun(states, steps) && n < |states|
    requires Conforming(Listed(states[0].file)) && states[0] == Start(states[0].file)
    ensures FileInv(states[n])
  {
    if n > 0 {
      FileStaysConforming(states, steps, n - 1);
      FileStep(states[n - 1], steps[n - 1]);
    }
  }

  // ---- reachable states ----

  ghost predicate AllMeet(ok: (State, Step) -> bool, states: seq<State>, steps: seq<Step>) {
    |states| == |steps| + 1 && forall i :: 0 <= i < |steps| ==> ok(states[i], steps[i])
  }

  ghost predicate IsRunTo(ok: (State, Step) -> bool, states: seq<State>, steps: seq<Step>, s: State) {
    IsRun(states, steps) && states[0] == Start(Absent) && states[|steps|] == s && AllMeet(ok, states, steps)
  }

  /** A state of a run whose steps all meet `ok`. */
  ghost predicate Reachable(ok: (State, Step) -> bool, s: State) {
    exists states, steps :: IsRunTo(ok, states, steps, s)
  }

  lemma LongerRun(states: seq<State>, steps: seq<Step>, step: Step, t: State)
    requires IsRun(states, steps) && Enabled(states[|steps|], step) && t == Apply(states[|steps|], step)
    ensures IsRun(states + [t], steps + [step])
  {
  }

  lemma AllStillMeet(ok: (State, Step) -> bool, states: seq<State>, steps: seq<Step>, step: Step, t: State)
    requires AllMeet(ok, states, steps) && ok(states[|steps|], step)
    ensures AllMeet(ok, states + [t], steps + [step])
  {
  }

  lemma Go(ok: (State, Step) -> bool, s: State, step: Step) returns (t: State)
    requires Reachable(ok, s) && Enabled(s, step) && ok(s, step)
    ensures t == Apply(s, step) && Reachable(ok, t)
  {
    t := Apply(s, step);
    var states, steps :| IsRunTo(ok, states, steps, s);
    LongerRun(states, steps, step, t);
    AllStillMeet(ok, states, steps, step, t);
    assert IsRunTo(ok, states + [t], steps + [step], t);
  }

  /** A request that is refused at once. */
  function Refused(): N.Server {
    attempt => N.Response(400, "")
  }

  predicate Quiet(s: State) {
    s.flight == [] && s.unsaved == []
  }

  /** A new batch is sent, refused, and about to be saved. */
  lemma SendRefused(ok: (State, Step) -> bool, s: State) returns (t: State)
    requires Reachable(ok, s) && Quiet(s) && forall u, step: Step :: step.Send? || step.Answer? ==> ok(u, step)
    ensures Reachable(ok, t)
    ensures t == s.(unsaved := [Entry(|s.submitted|, 1)], submitted := s.submitted + [1], posted := t.posted)
  {
    t := Go(ok, s, Send);
    assert t.flight == [Entry(|s.submitted|, 1)];
    t := Go(ok, t, Answer(0, Refused(), true));
    assert t.unsaved == [Entry(|s.submitted|, 1)];
  }

  /** Batch 0 has been saved once. */
  lemma SavedOnce(ok: (State, Step) -> bool) returns (s: State)
    requires forall u: State, step: Step :: step.Send? || step.Answer? || (step.Save? && u.pending == multiset{} && u.reading == []) ==>
      ok(u, step)
    ensures Reachable(ok, s)
    ensures s == Start(Absent).(file := Entries([Entry(0, 1)]), submitted := [1], posted := s.posted)
  {
    s := Start(Absent);
    assert IsRunTo(ok, [s], [], s);
    s := SendRefused(ok, s);
    s := Go(ok, s, Save(0));
    assert SavedList<Entry>([], Entry(0, 1)) == [Entry(0, 1)];
  }
}
