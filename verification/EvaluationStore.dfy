/** The values that the getters read, and where they came from. */
module EvaluationStore {
  import opened Wrappers
  import opened Hashing

  datatype GateEvaluation = GateEvaluation(ruleId: string, value: bool)

  /** A dynamic config or a layer; its JSON value is kept as text. */
  datatype ConfigEvaluation = ConfigEvaluation(ruleId: string, value: string)

  datatype InitializeResponse = InitializeResponse(
    time: int,
    hasUpdates: bool,
    featureGates: map<string, GateEvaluation>,
    dynamicConfigs: map<string, ConfigEvaluation>,
    layerConfigs: map<string, ConfigEvaluation>)

  const EMPTY_RESPONSE := InitializeResponse(0, false, map[], map[], map[])

  /** Parsing of an initialize response: a partial function from text. */
  type Parser = string -> Option<InitializeResponse>

  datatype ValueSource = Uninitialized | Loading | NoValues | Cache | Network | NetworkNotModified | Bootstrap

  const MAX_LONG_LONG: int := 0x7fff_ffff_ffff_ffff

  /** `time_t`, a 64-bit number. */
  type Timestamp = t: int | -MAX_LONG_LONG - 1 <= t <= MAX_LONG_LONG

  datatype AdapterResult = AdapterResult(source: ValueSource, data: string, receivedAt: Timestamp, fullUserHash: string)

  datatype Store = Store(values: Option<InitializeResponse>, source: ValueSource, lcut: int, receivedAt: int)

  const INITIAL_STORE := Store(None, Uninitialized, 0, 0)
  const LOADING_STORE := Store(None, Loading, 0, 0)

  function Finalized(s: Store): Store {
    if s.values.Some? then s else Store(None, NoValues, 0, 0)
  }

  /** No result and data that does not parse both leave the store as it is. */
  function WithResult(s: Store, parse: Parser, result: Option<AdapterResult>): Store {
    if result.None? || parse(result.value.data).None? then s
    else
      var values := parse(result.value.data).value;
      Store(Some(values), result.value.source, values.time, result.value.receivedAt)
  }

  predicate IsPending(source: ValueSource) {
    source == Uninitialized || source == Loading || source == NoValues
  }

  /** Values are absent exactly under the three sources that mean so, and times follow the values. */
  predicate Coherent(s: Store) {
    && (s.values.None? <==> IsPending(s.source))
    && (s.values.None? ==> s.lcut == 0 && s.receivedAt == 0)
    && (s.values.Some? ==> s.lcut == s.values.value.time)
  }

  // ---- details of an evaluation ----

  datatype Details = Details(reason: string, lcut: int, receivedAt: int)

  datatype Detailed<T> = Detailed(evaluation: Option<T>, details: Details)

  function SourceName(source: ValueSource): string {
    match source
    case Uninitialized => "Uninitialized"
    case Loading => "Loading"
    case NoValues => "NoValues"
    case Cache => "Cache"
    case Network => "Network"
    case NetworkNotModified => "NetworkNotModified"
    case Bootstrap => "Bootstrap"
  }

  function Unrecognized(s: Store): Details {
    if s.source == Uninitialized || s.source == NoValues then Details(SourceName(s.source), 0, 0)
    else Details(SourceName(s.source) + ":Unrecognized", s.lcut, s.receivedAt)
  }

  function Recognized(s: Store): Details {
    Details(SourceName(s.source) + ":Recognized", s.lcut, s.receivedAt)
  }

  /**
   * What a getter promises: a value exactly when the hashed name is among the values of the store,
   * and details that are those of the very result the values came from.
   */
  ghost predicate Answers<T>(d: Detailed<T>, s: Store, known: map<string, T>, name: string) {
    && (d.evaluation.Some? <==> s.values.Some? && DJB2Text(name) in known)
    && (d.evaluation.Some? ==>
          && d.evaluation.value == known[DJB2Text(name)]
          && d.details.lcut == s.values.value.time
          && d.details.receivedAt == s.receivedAt
          && d.details.reason == SourceName(s.source) + ":Recognized")
    && (d.evaluation.None? ==>
          && d.details.lcut == (if s.values.Some? then s.values.value.time else 0)
          && d.details.receivedAt == (if s.values.Some? then s.receivedAt else 0)
          && d.details.reason == SourceName(s.source)
               + if s.source == Uninitialized || s.source == NoValues then "" else ":Unrecognized")
  }

  class EvaluationStore {
    var values: Option<InitializeResponse>
    var source: ValueSource
    var lcut: int
    var receivedAt: int

    function View(): Store
      reads this
    {
      Store(values, source, lcut, receivedAt)
    }

    constructor ()
      ensures View() == INITIAL_STORE && Coherent(View())
    {
      values, source, lcut, receivedAt := None, Uninitialized, 0, 0;
    }

    method Reset()
      modifies this
      ensures View() == LOADING_STORE && Coherent(View())
    {
      values := None;
      source, lcut, receivedAt := Loading, 0, 0;
    }

    method Finalize()
      modifies this
      ensures View() == Finalized(old(View()))
      ensures Coherent(old(View())) ==> Coherent(View()) && View().source != Loading
    {
      if values.Some? {
        return;
      }
      source, lcut, receivedAt := NoValues, 0, 0;
    }

    method SetValuesFromDataAdapterResult(parse: Parser, result: Option<AdapterResult>) returns (code: Code)
      modifies this
      ensures View() == WithResult(old(View()), parse, result)
      ensures code == if result.Some? && parse(result.value.data).None? then JsonFailureInitializeResponse else Ok
      ensures code != Ok ==> View() == old(View())
      ensures Coherent(old(View())) && (result.Some? ==> !IsPending(result.value.source)) ==> Coherent(View())
    {
      if result.None? {
        return Ok;
      }
      var parsed := parse(result.value.data);
      if parsed.None? {
        return JsonFailureInitializeResponse;
      }
      values := parsed;
      source := result.value.source;
      receivedAt := result.value.receivedAt;
      lcut := parsed.value.time;
      return Ok;
    }

    method GetGate(name: string) returns (d: Detailed<GateEvaluation>)
      requires Coherent(View())
      ensures Answers(d, View(), if values.Some? then values.value.featureGates else map[], name)
    {
      var hash := DJB2(name, true);
      if values.None? || hash !in values.value.featureGates {
        return Detailed(None, Unrecognized(View()));
      }
      return Detailed(Some(values.value.featureGates[hash]), Recognized(View()));
    }

    method GetConfig(name: string) returns (d: Detailed<ConfigEvaluation>)
      requires Coherent(View())
      ensures Answers(d, View(), if values.Some? then values.value.dynamicConfigs else map[], name)
    {
      var hash := DJB2(name, true);
      if values.None? || hash !in values.value.dynamicConfigs {
        return Detailed(None, Unrecognized(View()));
      }
      return Detailed(Some(values.value.dynamicConfigs[hash]), Recognized(View()));
    }

    method GetLayer(name: string) returns (d: Detailed<ConfigEvaluation>)
      requires Coherent(View())
      ensures Answers(d, View(), if values.Some? then values.value.layerConfigs else map[], name)
    {
      var hash := DJB2(name, true);
      if values.None? || hash !in values.value.layerConfigs {
        return Detailed(None, Unrecognized(View()));
      }
      return Detailed(Some(values.value.layerConfigs[hash]), Recognized(View()));
    }
  }
}
