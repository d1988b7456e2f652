/**
 * Users, their full hash, and the cache key.
 *
 * A `std::unordered_map` is a Dafny `map`; a loop over one takes its keys in an arbitrary order
 * (`:|`), so a method whose result is a function of the map gives the same result for every
 * iteration order.
 */
module UserKeys {
  import opened Wrappers
  import opened Hashing

  type StringMap = map<string, string>
  type Pair = (string, string)

  datatype Environment = Environment(tier: Option<string>)

  datatype User = User(
    userId: Option<string>,
    customIds: StringMap,
    email: Option<string>,
    ip: Option<string>,
    userAgent: Option<string>,
    country: Option<string>,
    locale: Option<string>,
    appVersion: Option<string>,
    custom: Option<StringMap>,
    privateAttributes: Option<StringMap>,
    environment: Option<Environment>)

  const DEFAULT_USER := User(None, map[], None, None, None, None, None, None, None, None, None)

  // ---- the order of std::string ----

  predicate Less(a: string, b: string) {
    b != [] && (a == [] || a[0] < b[0] || (a[0] == b[0] && Less(a[1..], b[1..])))
  }

  lemma {:induction false} LessIsStrictTotal(a: string, b: string)
    ensures a == b ==> !Less(a, b)
    ensures a != b ==> Less(a, b) != Less(b, a)
  {
    if a != [] && b != [] && a[0] == b[0] {
      assert a == [a[0]] + a[1..] && b == [b[0]] + b[1..];
      LessIsStrictTotal(a[1..], b[1..]);
    }
  }

  /** The order is that of a dictionary over bytes: a prefix comes first. */
  lemma {:induction false} LessPrefix(a: string, b: string)
    requires b != []
    ensures Less(a, a + b)
  {
    if a != [] {
      assert (a + b)[0] == a[0] && (a + b)[1..] == a[1..] + b;
      LessPrefix(a[1..], b);
    }
  }

  /** The first character that differs decides, the smaller one coming first. */
  lemma {:induction false} LessAtDifference(prefix: string, c: char, d: char, a: string, b: string)
    requires c < d
    ensures Less(prefix + [c] + a, prefix + [d] + b)
  {
    var left, right := prefix + [c] + a, prefix + [d] + b;
    if prefix == [] {
      assert left[0] == c && right[0] == d;
    } else {
      assert left[0] == right[0] == prefix[0];
      assert left[1..] == prefix[1..] + [c] + a && right[1..] == prefix[1..] + [d] + b;
      LessAtDifference(prefix[1..], c, d, a, b);
    }
  }

  lemma {:induction false} LessTransitive(a: string, b: string, c: string)
    requires Less(a, b) && Less(b, c)
    ensures Less(a, c)
  {
    if a != [] && a[0] == b[0] && b[0] == c[0] {
      LessTransitive(a[1..], b[1..], c[1..]);
    }
  }

  // ---- sorted enumerations ----

  ghost predicate SortedByKey(pairs: seq<Pair>) {
    forall i, j :: 0 <= i < j < |pairs| ==> Less(pairs[i].0, pairs[j].0)
  }

  /** `pairs` lists the entries of `m`, each once. */
  ghost predicate Enumerates(pairs: seq<Pair>, m: StringMap) {
    && |pairs| == |m|
    && (forall p :: p in pairs ==> p.0 in m && m[p.0] == p.1)
    && (forall k :: k in m ==> (k, m[k]) in pairs)
  }

  ghost predicate IsLeastKey(k: string, m: StringMap) {
    k in m && forall other :: other in m && other != k ==> Less(k, other)
  }

  lemma {:induction false} LeastKeyExists(m: StringMap)
    requires m != map[]
    ensures exists k :: IsLeastKey(k, m)
    decreases |m|
  {
    var k :| k in m;
    var rest := m - {k};
    if rest == map[] {
      assert forall other :: other in m && other != k ==> other in rest;
      assert IsLeastKey(k, m);
    } else {
      assert |rest| < |m|;
      LeastKeyExists(rest);
      var least :| IsLeastKey(least, rest);
      LessIsStrictTotal(k, least);
      if Less(k, least) {
        forall other | other in m && other != k ensures Less(k, other) {
          if other != least { LessTransitive(k, least, other); }
        }
        assert IsLeastKey(k, m);
      } else {
        assert IsLeastKey(least, m);
      }
    }
  }

  /** The entries of `m` in key order: a function of the map alone. */
  ghost function Sorted(m: StringMap): seq<Pair>
    decreases |m|
  {
    if m == map[] then []
    else
      LeastKeyExists(m);
      var k :| IsLeastKey(k, m);
      assert |m - {k}| < |m|;
      [(k, m[k])] + Sorted(m - {k})
  }

  lemma {:induction false} SortedIsSorted(m: StringMap)
    ensures SortedByKey(Sorted(m)) && Enumerates(Sorted(m), m)
    decreases |m|
  {
    if m != map[] {
      LeastKeyExists(m);
      var k := Sorted(m)[0].0;
      var rest := m - {k};
      assert |rest| == |m| - 1;
      SortedIsSorted(rest);
      ConsEnumerates(k, m, Sorted(rest));
    }
  }

  lemma ConsEnumerates(k: string, m: StringMap, tail: seq<Pair>)
    requires IsLeastKey(k, m)
    requires SortedByKey(tail) && Enumerates(tail, m - {k}) && |m - {k}| == |m| - 1
    ensures SortedByKey([(k, m[k])] + tail) && Enumerates([(k, m[k])] + tail, m)
  {
    var pairs := [(k, m[k])] + tail;
    forall j | 0 < j < |pairs| ensures Less(k, pairs[j].0) {
      assert pairs[j] == tail[j - 1] && tail[j - 1] in tail;
    }
    forall other | other in m ensures (other, m[other]) in pairs {
      if other == k {
        assert pairs[0] == (k, m[k]);
      } else {
        assert (other, (m - {k})[other]) in tail;
      }
    }
  }

  /** Two key-sorted enumerations of one map are the same sequence. */
  lemma {:induction false} SortedEnumerationUnique(a: seq<Pair>, b: seq<Pair>, m: StringMap)
    requires SortedByKey(a) && Enumerates(a, m)
    requires SortedByKey(b) && Enumerates(b, m)
    ensures a == b
    decreases |m|
  {
    if |m| > 0 {
      SameHead(a, b, m);
      TailEnumerates(a, m);
      TailEnumerates(b, m);
      SortedEnumerationUnique(a[1..], b[1..], m - {a[0].0});
      assert a == [a[0]] + a[1..] && b == [b[0]] + b[1..];
    } else {
      assert a == [] && b == [];
    }
  }

  lemma SameHead(a: seq<Pair>, b: seq<Pair>, m: StringMap)
    requires a != [] && SortedByKey(a) && Enumerates(a, m)
    requires b != [] && SortedByKey(b) && Enumerates(b, m)
    ensures a[0] == b[0]
  {
    HeadIsLeast(a, m);
    HeadIsLeast(b, m);
    LessIsStrictTotal(a[0].0, b[0].0);
    assert a[0] in a && b[0] in b;
  }

  lemma HeadIsLeast(a: seq<Pair>, m: StringMap)
    requires a != [] && SortedByKey(a) && Enumerates(a, m)
    ensures IsLeastKey(a[0].0, m)
  {
    assert a[0] in a;
    forall other | other in m && other != a[0].0 ensures Less(a[0].0, other) {
      assert (other, m[other]) in a;
    }
  }

  lemma TailEnumerates(a: seq<Pair>, m: StringMap)
    requires a != [] && SortedByKey(a) && Enumerates(a, m)
    ensures SortedByKey(a[1..]) && Enumerates(a[1..], m - {a[0].0})
    ensures |m - {a[0].0}| == |m| - 1
  {
    var rest := m - {a[0].0};
    assert a[0] in a;
    assert |rest| == |m| - 1;
    forall p | p in a[1..] ensures p.0 in rest && rest[p.0] == p.1 {
      var i :| 0 <= i < |a[1..]| && a[1..][i] == p;
      assert a[i + 1] == p && Less(a[0].0, a[i + 1].0);
      LessIsStrictTotal(a[0].0, p.0);
      assert p in a;
    }
    forall k | k in rest ensures (k, rest[k]) in a[1..] {
      assert (k, m[k]) in a;
      var i :| 0 <= i < |a| && a[i] == (k, m[k]);
      assert a[1..][i - 1] == a[i];
    }
  }

  // ---- CreateSortedMapString ----

  function Entries(pairs: seq<Pair>): string {
    if pairs == [] then ""
    else Entries(pairs[..|pairs| - 1]) + pairs[|pairs| - 1].0 + ":" + pairs[|pairs| - 1].1 + "|"
  }

  ghost function SortedMapText(unordered: Option<StringMap>): string {
    if unordered.None? then "" else Entries(Sorted(unordered.value))
  }

  /** `std::map::emplace`: the entry goes before the first larger key, a present key keeps its value. */
  function Emplace(pairs: seq<Pair>, p: Pair): seq<Pair> {
    if pairs == [] || Less(p.0, pairs[0].0) then [p] + pairs
    else if pairs[0].0 == p.0 then pairs
    else [pairs[0]] + Emplace(pairs[1..], p)
  }

  lemma {:induction false} EmplaceSorted(pairs: seq<Pair>, p: Pair)
    requires SortedByKey(pairs)
    requires forall q :: q in pairs ==> q.0 != p.0
    ensures SortedByKey(Emplace(pairs, p))
    ensures |Emplace(pairs, p)| == |pairs| + 1
    ensures forall q :: q in Emplace(pairs, p) <==> q == p || q in pairs
  {
    if pairs == [] {
    } else if Less(p.0, pairs[0].0) {
      forall j | 0 < j < |pairs| ensures Less(p.0, pairs[j].0) {
        LessTransitive(p.0, pairs[0].0, pairs[j].0);
      }
    } else {
      assert pairs[0] in pairs;
      LessIsStrictTotal(p.0, pairs[0].0);
      forall q | q in pairs[1..] ensures q in pairs && Less(pairs[0].0, q.0) {
        var i :| 0 <= i < |pairs[1..]| && pairs[1..][i] == q;
        assert pairs[i + 1] == q;
      }
      EmplaceSorted(pairs[1..], p);
      assert pairs == [pairs[0]] + pairs[1..];
    }
  }

  method CreateSortedMapString(unordered: Option<StringMap>) returns (text: string)
    ensures text == SortedMapText(unordered)
  {
    if unordered.None? {
      return "";
    }
    var m := unordered.value;
    var sorted: seq<Pair> := [];
    var rest := m.Keys;
    while rest != {}
      invariant rest <= m.Keys && |sorted| + |rest| == |m|
      invariant SortedByKey(sorted)
      invariant forall p :: p in sorted ==> p.0 in m && p.0 !in rest && m[p.0] == p.1
      invariant forall k :: k in m && k !in rest ==> (k, m[k]) in sorted
    {
      var key :| key in rest;
      EmplaceSorted(sorted, (key, m[key]));
      sorted := Emplace(sorted, (key, m[key]));
      rest := rest - {key};
    }
    SortedIsSorted(m);
    SortedEnumerationUnique(sorted, Sorted(m), m);
    text := PrintEntries(sorted);
  }

  method PrintEntries(pairs: seq<Pair>) returns (text: string)
    ensures text == Entries(pairs)
  {
    text := "";
    for i := 0 to |pairs|
      invariant text == Entries(pairs[..i])
    {
      text := text + pairs[i].0 + ":" + pairs[i].1 + "|";
      assert pairs[..i + 1][..i] == pairs[..i];
    }
    assert pairs[..|pairs|] == pairs;
  }

  // ---- GetFullUserHash ----

  function TierText(user: User): string {
    if user.environment.Some? then user.environment.value.tier.GetOr("") else ""
  }

  /** The eleven labelled values that identify a user, in the one fixed order of the outer map. */
  ghost function FullUserPairs(user: User): seq<Pair> {
    [("u", user.userId.GetOr("")), ("ci", SortedMapText(Some(user.customIds))), ("e", user.email.GetOr("")),
     ("ip", user.ip.GetOr("")), ("ua", user.userAgent.GetOr("")), ("ct", user.country.GetOr("")),
     ("lc", user.locale.GetOr("")), ("av", user.appVersion.GetOr("")), ("cst", SortedMapText(user.custom)),
     ("pa", SortedMapText(user.privateAttributes)), ("tr", TierText(user))]
  }

  function Part(key: string, value: string): string {
    key + ":" + value + "-"
  }

  function Parts(pairs: seq<Pair>): string {
    if pairs == [] then "" else Part(pairs[0].0, pairs[0].1) + Parts(pairs[1..])
  }

  ghost function FullUserHash(user: User): string {
    DJB2Text(Parts(FullUserPairs(user)))
  }

  ghost predicate AreUsersEqual(left: User, right: User) {
    FullUserHash(left) == FullUserHash(right)
  }

  lemma {:induction false} PartsSnoc(pairs: seq<Pair>, p: Pair)
    ensures Parts(pairs + [p]) == Parts(pairs) + Part(p.0, p.1)
  {
    if pairs == [] {
      assert [p][1..] == [];
    } else {
      assert (pairs + [p])[1..] == pairs[1..] + [p];
      PartsSnoc(pairs[1..], p);
    }
  }

  method GetFullUserHash(user: User) returns (hash: string)
    ensures hash == FullUserHash(user)
  {
    var customIds := CreateSortedMapString(Some(user.customIds));
    var custom := CreateSortedMapString(user.custom);
    var privateAttributes := CreateSortedMapString(user.privateAttributes);
    var pairs := [
      ("u", user.userId.GetOr("")), ("ci", customIds), ("e", user.email.GetOr("")),
      ("ip", user.ip.GetOr("")), ("ua", user.userAgent.GetOr("")), ("ct", user.country.GetOr("")),
      ("lc", user.locale.GetOr("")), ("av", user.appVersion.GetOr("")), ("cst", custom),
      ("pa", privateAttributes), ("tr", "")];
    if user.environment.Some? {
      pairs := pairs[10 := ("tr", user.environment.value.tier.GetOr(""))];
    }
    assert pairs == FullUserPairs(user);
    var text := Stream(pairs);
    hash := DJB2(text, true);
  }

  /** The `ostringstream` loop over the labelled values. */
  method Stream(pairs: seq<Pair>) returns (text: string)
    ensures text == Parts(pairs)
  {
    text := "";
    for i := 0 to |pairs|
      invariant text == Parts(pairs[..i])
    {
      assert pairs[..i + 1] == pairs[..i] + [pairs[i]];
      PartsSnoc(pairs[..i], pairs[i]);
      text := text + Part(pairs[i].0, pairs[i].1);
    }
    assert pairs[..|pairs|] == pairs;
  }

  // ---- MakeCacheKey ----

  /** `k1-v1,k2-v2,...` over the pairs in order. */
  function Joined(pairs: seq<Pair>): string {
    if pairs == [] then ""
    else if |pairs| == 1 then pairs[0].0 + "-" + pairs[0].1
    else Joined(pairs[..|pairs| - 1]) + "," + pairs[|pairs| - 1].0 + "-" + pairs[|pairs| - 1].1
  }

  ghost function CacheKeyText(sdkKey: string, user: User): string {
    "uid:" + user.userId.GetOr("") + "|" + "cids:" + Joined(Sorted(user.customIds)) + "|" + "k:" + sdkKey
  }

  ghost function CacheKey(sdkKey: string, user: User): string {
    DJB2Text(CacheKeyText(sdkKey, user))
  }

  ghost predicate SortedWeakly(pairs: seq<Pair>) {
    forall i, j :: 0 <= i < j < |pairs| ==> !Less(pairs[j].0, pairs[i].0)
  }

  /** `GetKeyValuePairs`: the entries in whatever order the unordered map yields them. */
  method GetKeyValuePairs(m: StringMap) returns (pairs: seq<Pair>)
    ensures Enumerates(pairs, m)
  {
    pairs := [];
    var rest := m.Keys;
    while rest != {}
      invariant rest <= m.Keys && |pairs| + |rest| == |m|
      invariant forall p :: p in pairs ==> p.0 in m && m[p.0] == p.1
      invariant forall k :: k in m && k !in rest ==> (k, m[k]) in pairs
    {
      var key :| key in rest;
      pairs := pairs + [(key, m[key])];
      rest := rest - {key};
    }
  }

  /** `std::sort` by key: known only by its contract, a permutation with no inverted pair. */
  method SortPairs(input: seq<Pair>) returns (pairs: seq<Pair>)
    ensures multiset(pairs) == multiset(input)
    ensures SortedWeakly(pairs)
  {
    pairs := [];
    for i := 0 to |input|
      invariant multiset(pairs) == multiset(input[..i])
      invariant SortedWeakly(pairs)
    {
      var at := 0;
      while at < |pairs| && !Less(input[i].0, pairs[at].0)
        invariant at <= |pairs|
        invariant forall j :: 0 <= j < at ==> !Less(input[i].0, pairs[j].0)
      {
        at := at + 1;
      }
      InsertKeepsOrder(pairs, at, input[i]);
      InsertAddsOne(pairs, at, input[i]);
      assert input[..i + 1] == input[..i] + [input[i]];
      pairs := pairs[..at] + [input[i]] + pairs[at..];
    }
    assert input[..|input|] == input;
  }

  lemma InsertAddsOne(pairs: seq<Pair>, at: nat, p: Pair)
    requires at <= |pairs|
    ensures multiset(pairs[..at] + [p] + pairs[at..]) == multiset(pairs) + multiset{p}
  {
    assert pairs == pairs[..at] + pairs[at..];
  }

  lemma InsertKeepsOrder(pairs: seq<Pair>, at: nat, p: Pair)
    requires at <= |pairs| && SortedWeakly(pairs)
    requires forall j :: 0 <= j < at ==> !Less(p.0, pairs[j].0)
    requires at < |pairs| ==> Less(p.0, pairs[at].0)
    ensures SortedWeakly(pairs[..at] + [p] + pairs[at..])
  {
    forall j | at <= j < |pairs| ensures !Less(pairs[j].0, p.0) {
      LessIsStrictTotal(p.0, pairs[at].0);
      LessIsStrictTotal(pairs[at].0, pairs[j].0);
      LessIsStrictTotal(p.0, pairs[j].0);
      if Less(pairs[j].0, p.0) {
        LessTransitive(pairs[j].0, p.0, pairs[at].0);
      }
    }
  }

  /** Any sorted rearrangement of any enumeration of the map is the canonical one. */
  lemma SortedRearrangementIsCanonical(order: seq<Pair>, pairs: seq<Pair>, m: StringMap)
    requires Enumerates(order, m)
    requires multiset(pairs) == multiset(order) && SortedWeakly(pairs)
    ensures pairs == Sorted(m)
  {
    assert |pairs| == |multiset(pairs)| == |multiset(order)| == |order|;
    forall p ensures p in pairs <==> p in order {
      assert p in pairs <==> p in multiset(pairs);
      assert p in order <==> p in multiset(order);
    }
    assert Enumerates(pairs, m);
    KeysOf(pairs, m);
    forall i, j | 0 <= i < j < |pairs| ensures Less(pairs[i].0, pairs[j].0) {
      LessIsStrictTotal(pairs[i].0, pairs[j].0);
    }
    SortedIsSorted(m);
    SortedEnumerationUnique(pairs, Sorted(m), m);
  }

  /** An enumeration has no repeated key: it is as long as the map is large. */
  lemma {:induction false} KeysOf(pairs: seq<Pair>, m: StringMap)
    requires Enumerates(pairs, m)
    ensures forall i, j :: 0 <= i < j < |pairs| ==> pairs[i].0 != pairs[j].0
  {
    forall i, j | 0 <= i < j < |pairs| ensures pairs[i].0 != pairs[j].0 {
      if pairs[i].0 == pairs[j].0 {
        var fewer := pairs[..j] + pairs[j + 1..];
        assert pairs[i] in pairs && pairs[j] in pairs;
        assert fewer[i] == pairs[i];
        forall k | k in m ensures (k, m[k]) in fewer {
          var n :| 0 <= n < |pairs| && pairs[n] == (k, m[k]);
          assert n < j ==> fewer[n] == pairs[n];
          assert n > j ==> fewer[n - 1] == pairs[n];
        }
        FewKeys(fewer, m.Keys);
      }
    }
  }

  lemma {:induction false} FewKeys(pairs: seq<Pair>, keys: set<string>)
    requires forall k :: k in keys ==> exists p :: p in pairs && p.0 == k
    ensures |keys| <= |pairs|
  {
    if pairs == [] {
      assert forall p :: p !in pairs;
      assert forall k :: k !in keys;
    } else {
      var last := pairs[|pairs| - 1];
      var front := pairs[..|pairs| - 1];
      assert pairs == front + [last];
      forall k | k in keys - {last.0} ensures exists p :: p in front && p.0 == k {
        var p :| p in pairs && p.0 == k;
        assert p in front;
      }
      FewKeys(front, keys - {last.0});
    }
  }

  method MakeCacheKey(sdkKey: string, user: User) returns (key: string)
    ensures key == CacheKey(sdkKey, user)
  {
    var order := GetKeyValuePairs(user.customIds);
    var customIds := "";
    var pairs := order;
    if pairs != [] {
      pairs := SortPairs(order);
      assert |pairs| == |multiset(pairs)| == |multiset(order)| == |order|;
      customIds := pairs[0].0 + "-" + pairs[0].1;
      for i := 1 to |pairs|
        invariant customIds == Joined(pairs[..i])
      {
        assert pairs[..i + 1][..i] == pairs[..i];
        customIds := customIds + "," + pairs[i].0 + "-" + pairs[i].1;
      }
      assert pairs[..|pairs|] == pairs;
    }
    SortedRearrangementIsCanonical(order, pairs, user.customIds);

    var parts := ["uid:" + user.userId.GetOr(""), "cids:" + customIds, "k:" + sdkKey];
    var result := parts[0];
    result := result + "|" + parts[1];
    result := result + "|" + parts[2];
    assert result == CacheKeyText(sdkKey, user);
    key := DJB2(result, true);
  }

  // ---- the texts of an example ----

  /** Two entries in either order of insertion: keys ascend, entries end with a bar. */
  lemma MapTextExample()
    ensures SortedMapText(Some(map["b" := "2", "a" := "1"])) == "a:1|b:2|"
    ensures Joined(Sorted(map["b" := "2", "a" := "1"])) == "a-1,b-2"
  {
    var m, pairs := map["b" := "2", "a" := "1"], [("a", "1"), ("b", "2")];
    assert Less("a", "b");
    assert Enumerates(pairs, m) by { assert m.Keys == {"a", "b"}; }
    SortedIsSorted(m);
    SortedEnumerationUnique(Sorted(m), pairs, m);
    assert pairs[..1] == [("a", "1")] && pairs[..1][..0] == [];
    assert Entries(pairs[..1]) == "a" + ":" + "1" + "|";
  }

  lemma CacheKeyExample(user: User)
    requires user.userId == Some("u") && user.customIds == map["b" := "2", "a" := "1"]
    ensures CacheKeyText("k", user) == "uid:u|cids:a-1,b-2|k:k"
  {
    MapTextExample();
  }

  lemma PartsCons(name: string, value: string, rest: seq<Pair>)
    ensures Parts([(name, value)] + rest) == name + ":" + value + "-" + Parts(rest)
  {
    assert ([(name, value)] + rest)[1..] == rest;
  }

  lemma PartsOfThree(a: Pair, b: Pair, c: Pair, rest: seq<Pair>)
    ensures Parts([a, b, c] + rest)
      == a.0 + ":" + a.1 + "-" + (b.0 + ":" + b.1 + "-" + (c.0 + ":" + c.1 + "-" + Parts(rest)))
  {
    PartsCons(c.0, c.1, rest);
    PartsCons(b.0, b.1, [c] + rest);
    PartsCons(a.0, a.1, [b] + ([c] + rest));
    assert [a, b, c] + rest == [a] + ([b] + ([c] + rest));
  }

  /** The text of a user: every value after its own label, a missing one as empty. */
  lemma FullUserText(u: User)
    ensures var tier := if u.environment.Some? && u.environment.value.tier.Some? then u.environment.value.tier.value else "";
      Parts(FullUserPairs(u))
      == "u" + ":" + u.userId.GetOr("") + "-" + ("ci" + ":" + SortedMapText(Some(u.customIds)) + "-" + ("e" + ":" + u.email.GetOr("") + "-"
         + ("ip" + ":" + u.ip.GetOr("") + "-" + ("ua" + ":" + u.userAgent.GetOr("") + "-" + ("ct" + ":" + u.country.GetOr("") + "-"
         + ("lc" + ":" + u.locale.GetOr("") + "-" + ("av" + ":" + u.appVersion.GetOr("") + "-" + ("cst" + ":" + SortedMapText(u.custom) + "-"
         + ("pa" + ":" + SortedMapText(u.privateAttributes) + "-" + ("tr" + ":" + tier + "-" + ""))))))))))
  {
    var p := FullUserPairs(u);
    PartsCons(p[10].0, p[10].1, []);
    PartsCons(p[9].0, p[9].1, [p[10]] + []);
    PartsOfThree(p[6], p[7], p[8], [p[9]] + ([p[10]] + []));
    PartsOfThree(p[3], p[4], p[5], [p[6], p[7], p[8]] + ([p[9]] + ([p[10]] + [])));
    var rest := [p[3], p[4], p[5]] + ([p[6], p[7], p[8]] + ([p[9]] + ([p[10]] + [])));
    PartsOfThree(p[0], p[1], p[2], rest);
    assert p == [p[0], p[1], p[2]] + rest;
  }

  // ---- NormalizeUser ----

  /** The user's own environment is replaced by the one configured in the options. */
  function NormalizeUser(user: User, environment: Option<Environment>): User {
    user.(environment := environment)
  }

  /** Whatever environment a user carries, it leaves with the configured one, and otherwise unchanged. */
  lemma NormalizedExactly(user: User, environment: Option<Environment>)
    ensures var n := NormalizeUser(user, environment);
      && n.environment == environment
      && n.userId == user.userId && n.customIds == user.customIds && n.email == user.email && n.ip == user.ip
      && n.userAgent == user.userAgent && n.country == user.country && n.locale == user.locale
      && n.appVersion == user.appVersion && n.custom == user.custom && n.privateAttributes == user.privateAttributes
    ensures forall other: Option<Environment> ::
      NormalizeUser(user.(environment := other), environment) == NormalizeUser(user, environment)
  {
  }

  /**
   * Normalising never changes which cache entry a user reads, and users who are equal before
   * normalisation under the same tier are equal after it.
   */
  lemma NormalizeKeepsCacheKey(sdkKey: string, user: User, environment: Option<Environment>)
    ensures CacheKey(sdkKey, NormalizeUser(user, environment)) == CacheKey(sdkKey, user)
    ensures TierText(NormalizeUser(user, environment)) == TierText(user)
      ==> AreUsersEqual(user, NormalizeUser(user, environment))
  {
    if TierText(NormalizeUser(user, environment)) == TierText(user) {
      assert FullUserPairs(user) == FullUserPairs(NormalizeUser(user, environment));
    }
  }
}
