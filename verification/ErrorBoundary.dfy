/**
 * The boundary around every public call: it turns exceptions and bad result codes into error reports,
 * each error text once, and into one call of the caller's recovery.
 */
module ErrorBoundary {
  import opened Wrappers

  const BAD_NETWORK_ERR := "NetworkError_"
  const SHUTDOWN_TIMEOUT_EXTRA := "ShutdownTimeout"

  type Extra = Option<map<string, string>>

  /** How a captured task ends. */
  datatype Ending = Returned(code: Code) | Threw(what: string)

  datatype Report = Report(tag: string, error: string, extra: Extra)

  datatype Event = Captured(tag: string, ending: Ending) | BadResult(tag: string, code: Code, extra: Extra)

  /** `sent` are the reports handed to the pool; a report whose text cannot be encoded is not sent. */
  datatype Boundary = Boundary(seen: set<string>, sent: seq<Report>)

  function Extras(extra: Extra): map<string, string> {
    extra.GetOr(map[])
  }

  function NameOf(code: Code): string {
    match code
    case Ok => "Ok"
    case UnexpectedError => "UnexpectedError"
    case InvalidSdkKey => "InvalidSdkKey"
    case JsonFailureDataAdapterResult => "JsonFailureDataAdapterResult"
    case JsonFailureInitializeRequestArgs => "JsonFailureInitializeRequestArgs"
    case JsonFailureInitializeResponse => "JsonFailureInitializeResponse"
    case JsonFailureLogEventResponse => "JsonFailureLogEventResponse"
    case JsonFailureLogEventRequestArgs => "JsonFailureLogEventRequestArgs"
    case JsonFailureRetryableEventPayload => "JsonFailureRetryableEventPayload"
    case JsonFailureStatsigUser => "JsonFailureStatsigUser"
    case JsonFailureNoDeserializerFound => "JsonFailureNoDeserializerFound"
    case JsonFailureNoSerializerFound => "JsonFailureNoSerializerFound"
    case NetworkFailureBadStatusCode => "NetworkFailureBadStatusCode"
    case ClientUninitialized => "ClientUninitialized"
    case FileFailureDataAdapterResult => "FileFailureDataAdapterResult"
    case FileFailureStableID => "FileFailureStableID"
    case FileFailureRetryableEventPayload => "FileFailureRetryableEventPayload"
    case ShutdownFailureDanglingThreads => "ShutdownFailureDanglingThreads"
    case SharedPointerLost => "SharedPointerLost"
  }

  /** Expected codes are not errors, and two codes are errors only with their details. */
  predicate Bad(code: Code, extra: Extra) {
    if code == Ok || code == ClientUninitialized || code == InvalidSdkKey || code == SharedPointerLost then false
    else if code == ShutdownFailureDanglingThreads && SHUTDOWN_TIMEOUT_EXTRA !in Extras(extra) then false
    else if code == NetworkFailureBadStatusCode && BAD_NETWORK_ERR !in Extras(extra) then false
    else true
  }

  const WITHOUT_DETAILS_FINE: set<Code> :=
    {Ok, ClientUninitialized, InvalidSdkKey, SharedPointerLost, ShutdownFailureDanglingThreads, NetworkFailureBadStatusCode}

  function ErrorFromResultCode(code: Code, extra: Extra): string {
    if BAD_NETWORK_ERR in Extras(extra) then Extras(extra)[BAD_NETWORK_ERR] else NameOf(code)
  }

  function ReportOf(tag: string, code: Code, extra: Extra): Option<Report> {
    if Bad(code, extra) then Some(Report(tag, ErrorFromResultCode(code, extra), extra)) else None
  }

  /** Four codes are never reported, and two only with their own detail. */
  lemma ReportedExactly(tag: string, code: Code, extra: Extra)
    ensures ReportOf(tag, code, extra).Some? <==>
      && code !in {Ok, ClientUninitialized, InvalidSdkKey, SharedPointerLost}
      && (code == ShutdownFailureDanglingThreads ==> extra.Some? && "ShutdownTimeout" in extra.value)
      && (code == NetworkFailureBadStatusCode ==> extra.Some? && "NetworkError_" in extra.value)
    ensures ReportOf(tag, code, extra).Some? ==>
      var report := ReportOf(tag, code, extra).value;
      && report.tag == tag && report.extra == extra
      && report.error == if extra.Some? && "NetworkError_" in extra.value then extra.value["NetworkError_"] else NameOf(code)
  {
  }

  /** The error that an event raises. */
  function Raised(e: Event): Option<Report> {
    match e
    case Captured(tag, Threw(what)) => Some(Report(tag, what, None))
    case Captured(tag, Returned(code)) => ReportOf(tag, code, None)
    case BadResult(tag, code, extra) => ReportOf(tag, code, extra)
  }

  function Logged(b: Boundary, encodable: Report -> bool, raised: Option<Report>): Boundary {
    if raised.None? || raised.value.error in b.seen then b
    else Boundary(b.seen + {raised.value.error}, if encodable(raised.value) then b.sent + [raised.value] else b.sent)
  }

  function After(encodable: Report -> bool, es: seq<Event>): Boundary {
    if es == [] then Boundary({}, [])
    else Logged(After(encodable, es[..|es| - 1]), encodable, Raised(es[|es| - 1]))
  }

  // ---- one report for each error ----

  predicate Raises(es: seq<Event>, i: nat, error: string)
    requires i < |es|
  {
    Raised(es[i]).Some? && Raised(es[i]).value.error == error
  }

  predicate IsFirst(es: seq<Event>, i: nat)
    requires i < |es|
  {
    Raised(es[i]).Some? && forall j: nat :: j < i ==> !Raises(es, j, Raised(es[i]).value.error)
  }

  lemma {:induction false} SeenExactly(encodable: Report -> bool, es: seq<Event>, error: string)
    ensures error in After(encodable, es).seen <==> exists i: nat :: i < |es| && Raises(es, i, error)
  {
    if es != [] {
      var n, front := |es| - 1, es[..|es| - 1];
      SeenExactly(encodable, front, error);
      assert forall i: nat :: i < n ==> (Raises(front, i, error) <==> Raises(es, i, error));
      if Raised(es[n]).Some? && Raised(es[n]).value.error == error {
        assert Raises(es, n, error);
      } else {
        assert error in After(encodable, es).seen <==> error in After(encodable, front).seen;
      }
    }
  }

  lemma LastIsFirst(encodable: Report -> bool, es: seq<Event>)
    requires es != []
    ensures IsFirst(es, |es| - 1) <==>
      Raised(es[|es| - 1]).Some? && Raised(es[|es| - 1]).value.error !in After(encodable, es[..|es| - 1]).seen
  {
    var n, front := |es| - 1, es[..|es| - 1];
    if Raised(es[n]).Some? {
      var error := Raised(es[n]).value.error;
      SeenExactly(encodable, front, error);
      assert forall i: nat :: i < n ==> (Raises(front, i, error) <==> Raises(es, i, error));
    }
  }

  /** The reports of the first events, in the order of these events. */
  function FirstReports(encodable: Report -> bool, es: seq<Event>, n: nat): seq<Report>
    requires n <= |es|
  {
    if n == 0 then []
    else
      var front := FirstReports(encodable, es, n - 1);
      if IsFirst(es, n - 1) && encodable(Raised(es[n - 1]).value) then front + [Raised(es[n - 1]).value] else front
  }

  lemma {:induction false} FirstReportsPrefix(encodable: Report -> bool, es: seq<Event>, n: nat)
    requires es != [] && n < |es|
    ensures FirstReports(encodable, es[..|es| - 1], n) == FirstReports(encodable, es, n)
  {
    if n > 0 {
      FirstReportsPrefix(encodable, es, n - 1);
      var front := es[..|es| - 1];
      assert front[n - 1] == es[n - 1];
      assert forall j: nat, error :: j < n ==> (Raises(front, j, error) <==> Raises(es, j, error));
    }
  }

  /** What is sent are exactly the encodable reports of the first event of each error, in order. */
  lemma {:induction false} SentAreTheFirst(encodable: Report -> bool, es: seq<Event>)
    ensures After(encodable, es).sent == FirstReports(encodable, es, |es|)
  {
    if es != [] {
      SentAreTheFirst(encodable, es[..|es| - 1]);
      FirstReportsPrefix(encodable, es, |es| - 1);
      LastIsFirst(encodable, es);
    }
  }

  /** No error is sent twice, and no error is forgotten by sending another. */
  lemma {:induction false} SentOnce(encodable: Report -> bool, es: seq<Event>)
    ensures var b := After(encodable, es);
      && (forall i, j :: 0 <= i < j < |b.sent| ==> b.sent[i].error != b.sent[j].error)
      && (forall r :: r in b.sent ==> r.error in b.seen && encodable(r))
  {
    if es != [] {
      SentOnce(encodable, es[..|es| - 1]);
    }
  }

  class ErrorBoundary {
    const encodable: Report -> bool
    var seen: set<string>
    var sent: seq<Report>

    function View(): Boundary
      reads this
    {
      Boundary(seen, sent)
    }

    constructor (encodable: Report -> bool)
      ensures this.encodable == encodable && View() == After(encodable, [])
    {
      this.encodable, seen, sent := encodable, {}, [];
    }

    method LogError(tag: string, error: string, extra: Extra)
      modifies this
      ensures View() == Logged(old(View()), encodable, Some(Report(tag, error, extra)))
    {
      if error in seen {
        return;
      }
      seen := seen + {error};
      var body := Report(tag, error, extra);
      if !encodable(body) {
        return;
      }
      sent := sent + [body];
    }

    method HandleBadResult(tag: string, code: Code, extra: Extra) returns (handled: bool)
      modifies this
      ensures View() == Logged(old(View()), encodable, Raised(BadResult(tag, code, extra)))
      ensures handled <==> Raised(BadResult(tag, code, extra)).Some?
    {
      if code == Ok || code == ClientUninitialized || code == InvalidSdkKey || code == SharedPointerLost {
        return false;
      }
      if code == ShutdownFailureDanglingThreads && SHUTDOWN_TIMEOUT_EXTRA !in Extras(extra) {
        return false;
      }
      if code == NetworkFailureBadStatusCode && BAD_NETWORK_ERR !in Extras(extra) {
        return false;
      }
      LogError(tag, ErrorFromResultCode(code, extra), extra);
      return true;
    }

    /**
     * `recovered` is the argument of the call of `recover`, if there is one. It runs at most once:
     * after an exception, and after a code that is an error even without details.
     */
    method Capture(tag: string, ending: Ending, hasRecover: bool) returns (code: Code, recovered: Option<Code>)
      modifies this
      ensures View() == Logged(old(View()), encodable, Raised(Captured(tag, ending)))
      ensures code == if ending.Threw? then UnexpectedError else ending.code
      ensures recovered.Some? <==> (hasRecover && (ending.Threw? || code !in WITHOUT_DETAILS_FINE))
      ensures recovered.Some? ==> recovered.value == code
    {
      if ending.Threw? {
        LogError(tag, ending.what, None);
        return UnexpectedError, if hasRecover then Some(UnexpectedError) else None;
      }
      code := ending.code;
      var handled := HandleBadResult(tag, code, None);
      recovered := if handled && hasRecover then Some(code) else None;
    }
  }
}
