/** Timing markers, collected until the next flush turns them into one diagnostics event. */
module Diagnostics {
  import opened UserKeys

  datatype Marker =
    | OverallStart
    | OverallEnd(success: bool)
    | NetworkStart(attempt: int)
    | NetworkEnd(attempt: int, status: int)
    | ProcessStart
    | ProcessEnd(success: bool)

  const MAX_DIAGNOSTICS_MARKERS := 30

  /** The test is on the size before the push, so one more marker than the constant fits. */
  function Marked(markers: seq<Marker>, m: Marker): seq<Marker> {
    if |markers| > MAX_DIAGNOSTICS_MARKERS then markers else markers + [m]
  }

  function MarkedAll(markers: seq<Marker>, ms: seq<Marker>): seq<Marker>
    decreases |ms|
  {
    if ms == [] then markers else MarkedAll(Marked(markers, ms[0]), ms[1..])
  }

  /** Marking a list keeps exactly the longest prefix of it that fits below 31 markers. */
  lemma {:induction false} MarkedAllKeepsPrefix(markers: seq<Marker>, ms: seq<Marker>)
    requires |markers| <= MAX_DIAGNOSTICS_MARKERS + 1
    ensures var room := MAX_DIAGNOSTICS_MARKERS + 1 - |markers|;
      MarkedAll(markers, ms) == markers + if |ms| <= room then ms else ms[..room]
    decreases |ms|
  {
    if ms != [] {
      var next, rest := Marked(markers, ms[0]), ms[1..];
      MarkedAllKeepsPrefix(next, rest);
      var room := MAX_DIAGNOSTICS_MARKERS + 1 - |markers|;
      if room > 0 {
        assert next + rest == markers + ms;
        if |ms| > room { assert next + rest[..room - 1] == markers + ms[..room]; }
      } else {
        assert rest[..0] == ms[..0] == [];
      }
    }
  }

  /** Of a list of markers in an empty buffer, the first 31 stay. */
  lemma FirstThirtyOne(ms: seq<Marker>)
    ensures MarkedAll([], ms) == if |ms| <= 31 then ms else ms[..31]
  {
    MarkedAllKeepsPrefix([], ms);
  }

  lemma {:induction false} MarkedAllConcat(markers: seq<Marker>, a: seq<Marker>, b: seq<Marker>)
    ensures MarkedAll(markers, a + b) == MarkedAll(MarkedAll(markers, a), b)
    decreases |a|
  {
    if a == [] {
      assert a + b == b;
    } else {
      assert (a + b)[0] == a[0] && (a + b)[1..] == a[1..] + b;
      MarkedAllConcat(Marked(markers, a[0]), a[1..], b);
    }
  }

  lemma TwoMarks(markers: seq<Marker>, a: Marker, b: Marker)
    ensures MarkedAll(MarkedAll(markers, [a]), [b]) == MarkedAll(markers, [a, b])
  {
    MarkedAllConcat(markers, [a], [b]);
    assert [a] + [b] == [a, b];
  }

  class Diagnostics {
    var markers: seq<Marker>
    var user: User

    constructor ()
      ensures markers == [] && user == DEFAULT_USER
    {
      markers, user := [], DEFAULT_USER;
    }

    method SetUser(user: User)
      modifies this`user
      ensures this.user == user
    {
      this.user := user;
    }

    method Mark(marker: Marker)
      modifies this`markers
      ensures markers == MarkedAll(old(markers), [marker])
      ensures |old(markers)| <= MAX_DIAGNOSTICS_MARKERS + 1 ==> |markers| <= MAX_DIAGNOSTICS_MARKERS + 1
    {
      if |markers| > MAX_DIAGNOSTICS_MARKERS {
        return;
      }
      markers := markers + [marker];
    }

    /** Moves the markers out; they are the content of one diagnostics event. */
    method TakeMarkers() returns (taken: seq<Marker>)
      modifies this`markers
      ensures taken == old(markers) && markers == []
    {
      taken := markers;
      markers := [];
    }
  }
}
