/**
 * How much of a user survives in the texts that are hashed. Separators are not escaped. A text is
 * still read back in one way only if no value contains what is printed right after it, and no map key
 * what ends a key.
 */
module KeyFaithfulness {
  import opened Wrappers
  import opened UserKeys

  predicate Free(text: string, separators: string) {
    forall c :: c in text ==> c !in separators
  }

  /** A separator-free prefix is recovered up to the first separator. */
  lemma {:induction false} Split(x: string, y: string, c: char, r: string, s: string)
    requires c !in x && c !in y && x + [c] + r == y + [c] + s
    ensures x == y && r == s
  {
    var left, right := x + [c] + r, y + [c] + s;
    assert x == [] ==> left[0] == c && left[1..] == r;
    assert y == [] ==> right[0] == c && right[1..] == s;
    assert x != [] ==> left[0] == x[0] && x[0] in x && left[1..] == x[1..] + [c] + r;
    assert y != [] ==> right[0] == y[0] && y[0] in y && right[1..] == y[1..] + [c] + s;
    if x != [] && y != [] {
      Split(x[1..], y[1..], c, r, s);
      assert x == [x[0]] + x[1..] && y == [y[0]] + y[1..];
    }
  }

  // ---- the text of a map ----

  /** No key contains a character of `forKeys`, and no value one of `forValues`. */
  predicate FreePairs(pairs: seq<Pair>, forKeys: string, forValues: string) {
    forall p :: p in pairs ==> Free(p.0, forKeys) && Free(p.1, forValues)
  }

  predicate FreeMap(m: StringMap, forKeys: string, forValues: string) {
    forall k :: k in m ==> Free(k, forKeys) && Free(m[k], forValues)
  }

  function Entry(p: Pair): string {
    p.0 + ":" + p.1 + "|"
  }

  lemma {:induction false} EntriesCons(p: Pair, rest: seq<Pair>)
    ensures Entries([p] + rest) == Entry(p) + Entries(rest)
  {
    var all := [p] + rest;
    if rest == [] {
      assert all[..0] == [];
    } else {
      assert all[..|all| - 1] == [p] + rest[..|rest| - 1];
      EntriesCons(p, rest[..|rest| - 1]);
    }
  }

  lemma EntrySplit(p: Pair, q: Pair, r: string, s: string)
    requires ':' !in p.0 && '|' !in p.1 && ':' !in q.0 && '|' !in q.1
    requires Entry(p) + r == Entry(q) + s
    ensures p == q && r == s
  {
    assert Entry(p) + r == p.0 + [':'] + (p.1 + "|" + r);
    assert Entry(q) + s == q.0 + [':'] + (q.1 + "|" + s);
    Split(p.0, q.0, ':', p.1 + "|" + r, q.1 + "|" + s);
    Split(p.1, q.1, '|', r, s);
  }

  lemma {:induction false} EntriesFaithful(a: seq<Pair>, b: seq<Pair>)
    requires FreePairs(a, ":", "|") && FreePairs(b, ":", "|")
    requires Entries(a) == Entries(b)
    ensures a == b
    decreases |a|
  {
    if a != [] && b != [] {
      assert a == [a[0]] + a[1..] && b == [b[0]] + b[1..];
      EntriesCons(a[0], a[1..]);
      EntriesCons(b[0], b[1..]);
      assert a[0] in a && b[0] in b && ':' in ":" && '|' in "|";
      EntrySplit(a[0], b[0], Entries(a[1..]), Entries(b[1..]));
      EntriesFaithful(a[1..], b[1..]);
    } else {
      EntriesEmpty(a);
      EntriesEmpty(b);
    }
  }

  lemma EntriesEmpty(a: seq<Pair>)
    ensures Entries(a) == "" <==> a == []
  {
  }

  lemma SortedFree(m: StringMap, forKeys: string, forValues: string)
    requires FreeMap(m, forKeys, forValues)
    ensures FreePairs(Sorted(m), forKeys, forValues)
  {
    SortedIsSorted(m);
  }

  lemma SortedContains(m: StringMap, n: StringMap)
    requires Sorted(m) == Sorted(n)
    ensures forall k :: k in m ==> k in n && m[k] == n[k]
  {
    SortedIsSorted(m);
    SortedIsSorted(n);
    forall k | k in m ensures k in n && m[k] == n[k] {
      assert (k, m[k]) in Sorted(m);
    }
  }

  lemma SortedFaithful(m: StringMap, n: StringMap)
    requires Sorted(m) == Sorted(n)
    ensures m == n
  {
    SortedContains(m, n);
    SortedContains(n, m);
  }

  /** Maps with keys free of `:` and values free of `|` have the same text exactly when they are equal. */
  lemma MapTextFaithful(m: StringMap, n: StringMap)
    requires FreeMap(m, ":", "|") && FreeMap(n, ":", "|")
    ensures Entries(Sorted(m)) == Entries(Sorted(n)) <==> m == n
  {
    if Entries(Sorted(m)) == Entries(Sorted(n)) {
      SortedFree(m, ":", "|");
      SortedFree(n, ":", "|");
      EntriesFaithful(Sorted(m), Sorted(n));
      SortedFaithful(m, n);
    }
  }

  // ---- the text of a user ----

  predicate IsAt(text: string, marker: string, i: int) {
    0 <= i <= |text| - |marker| && text[i..i + |marker|] == marker
  }

  ghost predicate Contains(text: string, marker: string) {
    exists i :: IsAt(text, marker, i)
  }

  /** What is printed between a value and the next one: the end of its part and the next label. */
  function Marker(name: string): string {
    "-" + name + ":"
  }

  /** The first character of a marker occurs nowhere else in it. */
  predicate StartsOnce(marker: string) {
    marker != "" && forall k :: 0 < k < |marker| ==> marker[k] != marker[0]
  }

  lemma CharacterAt(x: string, m: string, r: string, k: nat)
    requires k < |m|
    ensures (x + m + r)[|x| + k] == m[k]
  {
  }

  lemma NoOverlap(x: string, y: string, m: string, r: string, s: string)
    requires StartsOnce(m) && |x| < |y| < |x| + |m|
    ensures x + m + r != y + m + s
  {
    CharacterAt(y, m, s, 0);
    CharacterAt(x, m, r, |y| - |x|);
  }

  /** If the first of two markers comes earlier, then the text before the second contains it. */
  lemma FoundEarlier(x: string, y: string, m: string, r: string, s: string)
    requires StartsOnce(m) && |x| < |y| && x + m + r == y + m + s
    ensures Contains(y, m)
  {
    if |y| < |x| + |m| { NoOverlap(x, y, m, r, s); }
    assert (x + m + r)[|x|..|x| + |m|] == m;
    assert y == (y + m + s)[..|y|];
    assert IsAt(y, m, |x|);
  }

  /** A prefix without the marker is recovered up to the first marker. */
  lemma MarkerSplit(x: string, y: string, m: string, r: string, s: string)
    requires StartsOnce(m) && !Contains(x, m) && !Contains(y, m) && x + m + r == y + m + s
    ensures x == y && r == s
  {
    if |x| < |y| { FoundEarlier(x, y, m, r, s); }
    if |y| < |x| { FoundEarlier(y, x, m, s, r); }
    var left, right := x + m + r, y + m + s;
    assert x == left[..|x|] && y == right[..|y|];
    assert r == left[|x| + |m|..] && s == right[|y| + |m|..];
  }

  /** The text from the first value on. */
  function Body(a: seq<Pair>): string
    requires a != []
  {
    a[0].1 + "-" + Parts(a[1..])
  }

  lemma BodyStep(a: seq<Pair>)
    requires |a| > 1
    ensures Body(a) == a[0].1 + Marker(a[1].0) + Body(a[1..])
  {
    var rest := a[1..];
    assert Parts(rest) == rest[0].0 + ":" + (rest[0].1 + "-" + Parts(rest[1..]));
  }

  /** No value contains the label that is printed after it. */
  ghost predicate Separable(a: seq<Pair>) {
    && (forall i :: 0 <= i < |a| ==> '-' !in a[i].0)
    && (forall i :: 0 < i < |a| ==> !Contains(a[i - 1].1, Marker(a[i].0)))
  }

  lemma MarkerStartsOnce(name: string)
    requires '-' !in name
    ensures StartsOnce(Marker(name))
  {
  }

  lemma SeparableTail(a: seq<Pair>)
    requires Separable(a) && a != []
    ensures Separable(a[1..])
  {
    var rest := a[1..];
    forall i | 0 < i < |rest| ensures !Contains(rest[i - 1].1, Marker(rest[i].0)) {
      assert !Contains(a[i + 1 - 1].1, Marker(a[i + 1].0));
    }
  }

  lemma {:induction false} BodyFaithful(a: seq<Pair>, b: seq<Pair>)
    requires |a| == |b| > 0 && Separable(a) && Separable(b)
    requires forall i :: 0 <= i < |a| ==> a[i].0 == b[i].0
    requires Body(a) == Body(b)
    ensures a == b
    decreases |a|
  {
    if |a| == 1 {
      assert Body(a) == a[0].1 + "-" && Body(b) == b[0].1 + "-";
      assert Body(a)[..|a[0].1|] == a[0].1 && Body(b)[..|b[0].1|] == b[0].1;
    } else {
      BodyStep(a);
      BodyStep(b);
      MarkerStartsOnce(a[1].0);
      assert !Contains(a[1 - 1].1, Marker(a[1].0)) && !Contains(b[1 - 1].1, Marker(b[1].0));
      MarkerSplit(a[0].1, b[0].1, Marker(a[1].0), Body(a[1..]), Body(b[1..]));
      SeparableTail(a);
      SeparableTail(b);
      BodyFaithful(a[1..], b[1..]);
      assert a == [a[0]] + a[1..] && b == [b[0]] + b[1..];
    }
  }

  lemma AfterPrefix(p: string, x: string, y: string)
    requires p + x == p + y
    ensures x == y
  {
    assert (p + x)[|p|..] == x && (p + y)[|p|..] == y;
  }

  lemma PartsBody(a: seq<Pair>)
    requires a != []
    ensures Parts(a) == (a[0].0 + ":") + Body(a)
  {
    assert Parts(a) == a[0].0 + ":" + a[0].1 + "-" + Parts(a[1..]);
  }

  lemma PartsFaithful(a: seq<Pair>, b: seq<Pair>)
    requires |a| == |b| > 0 && Separable(a) && Separable(b)
    requires forall i :: 0 <= i < |a| ==> a[i].0 == b[i].0
    requires Parts(a) == Parts(b)
    ensures a == b
  {
    PartsBody(a);
    PartsBody(b);
    AfterPrefix(a[0].0 + ":", Body(a), Body(b));
    BodyFaithful(a, b);
  }

  predicate FreeOptionalMap(o: Option<StringMap>) {
    FreeMap(o.GetOr(map[]), ":", "|")
  }

  /**
   * What makes the text of a user readable: no printed value contains the label after it, such as
   * `-ci:` after the user id, and the map texts are readable.
   */
  ghost predicate ReadableUser(u: User) {
    && (forall i :: 0 < i < 11 ==> !Contains(FullUserPairs(u)[i - 1].1, Marker(FullUserPairs(u)[i].0)))
    && FreeOptionalMap(Some(u.customIds)) && FreeOptionalMap(u.custom) && FreeOptionalMap(u.privateAttributes)
  }

  /** A value without a colon, such as a UUID or `en-US`, contains no label. */
  lemma NoColonNoLabel(text: string, name: string)
    requires ':' !in text
    ensures !Contains(text, Marker(name))
  {
    var m := Marker(name);
    forall i ensures !IsAt(text, m, i) {
      if 0 <= i <= |text| - |m| {
        assert text[i + |m| - 1] in text;
        assert text[i..i + |m|][|m| - 1] != m[|m| - 1];
      }
    }
  }

  /** The same user, apart from the difference between a missing and an empty value. */
  predicate SameIdentity(u: User, v: User) {
    && u.userId.GetOr("") == v.userId.GetOr("") && u.email.GetOr("") == v.email.GetOr("")
    && u.ip.GetOr("") == v.ip.GetOr("") && u.userAgent.GetOr("") == v.userAgent.GetOr("")
    && u.country.GetOr("") == v.country.GetOr("") && u.locale.GetOr("") == v.locale.GetOr("")
    && u.appVersion.GetOr("") == v.appVersion.GetOr("") && TierText(u) == TierText(v)
    && u.customIds == v.customIds && u.custom.GetOr(map[]) == v.custom.GetOr(map[])
    && u.privateAttributes.GetOr(map[]) == v.privateAttributes.GetOr(map[])
  }

  lemma MapTexts(o: Option<StringMap>, p: Option<StringMap>)
    requires FreeOptionalMap(o) && FreeOptionalMap(p)
    ensures SortedMapText(o) == SortedMapText(p) <==> o.GetOr(map[]) == p.GetOr(map[])
  {
    OptionalMapText(o);
    OptionalMapText(p);
    MapTextFaithful(o.GetOr(map[]), p.GetOr(map[]));
  }

  lemma OptionalMapText(o: Option<StringMap>)
    ensures SortedMapText(o) == Entries(Sorted(o.GetOr(map[])))
  {
  }

  lemma EqualTexts(u: User, v: User)
    requires ReadableUser(u) && ReadableUser(v)
    requires Parts(FullUserPairs(u)) == Parts(FullUserPairs(v))
    ensures FullUserPairs(u) == FullUserPairs(v)
  {
    LabelsFixed(u, v);
    PartsFaithful(FullUserPairs(u), FullUserPairs(v));
  }

  lemma LabelsFixed(u: User, v: User)
    ensures |FullUserPairs(u)| == |FullUserPairs(v)| == 11
    ensures forall i :: 0 <= i < 11 ==> FullUserPairs(u)[i].0 == FullUserPairs(v)[i].0 && '-' !in FullUserPairs(u)[i].0
  {
  }

  /** For readable users the hashed text is the same exactly when the users are the same. */
  lemma FullUserTextFaithful(u: User, v: User)
    requires ReadableUser(u) && ReadableUser(v)
    ensures Parts(FullUserPairs(u)) == Parts(FullUserPairs(v)) <==> SameIdentity(u, v)
  {
    if SameIdentity(u, v) { IdentityGivesPairs(u, v); }
    if Parts(FullUserPairs(u)) == Parts(FullUserPairs(v)) {
      EqualTexts(u, v);
      MapTexts(Some(u.customIds), Some(v.customIds));
      MapTexts(u.custom, v.custom);
      MapTexts(u.privateAttributes, v.privateAttributes);
      SamePairs(u, v);
    }
  }

  lemma IdentityGivesPairs(u: User, v: User)
    requires SameIdentity(u, v)
    ensures FullUserPairs(u) == FullUserPairs(v)
  {
    OptionalMapText(u.custom);
    OptionalMapText(v.custom);
    OptionalMapText(u.privateAttributes);
    OptionalMapText(v.privateAttributes);
  }

  lemma SamePairs(u: User, v: User)
    requires FullUserPairs(u) == FullUserPairs(v)
    requires SortedMapText(Some(u.customIds)) == SortedMapText(Some(v.customIds)) ==> u.customIds == v.customIds
    requires SortedMapText(u.custom) == SortedMapText(v.custom) ==> u.custom.GetOr(map[]) == v.custom.GetOr(map[])
    requires SortedMapText(u.privateAttributes) == SortedMapText(v.privateAttributes)
      ==> u.privateAttributes.GetOr(map[]) == v.privateAttributes.GetOr(map[])
    ensures SameIdentity(u, v)
  {
    var a, b := FullUserPairs(u), FullUserPairs(v);
    assert forall i :: 0 <= i < 11 ==> a[i].1 == b[i].1;
    assert a[0].1 == b[0].1 && a[1].1 == b[1].1 && a[2].1 == b[2].1 && a[3].1 == b[3].1 && a[4].1 == b[4].1;
    assert a[5].1 == b[5].1 && a[6].1 == b[6].1 && a[7].1 == b[7].1 && a[8].1 == b[8].1 && a[9].1 == b[9].1;
    assert a[10].1 == b[10].1;
  }

  // ---- the text of a cache key ----

  function JoinEntry(p: Pair): string {
    p.0 + "-" + p.1
  }

  lemma {:induction false} JoinedCons(p: Pair, rest: seq<Pair>)
    requires rest != []
    ensures Joined([p] + rest) == JoinEntry(p) + "," + Joined(rest)
  {
    var all := [p] + rest;
    assert all[..|all| - 1] == [p] + rest[..|rest| - 1];
    if |rest| == 1 {
      assert rest[..0] == [];
    } else {
      JoinedCons(p, rest[..|rest| - 1]);
    }
  }

  lemma {:induction false} JoinedFree(pairs: seq<Pair>)
    requires FreePairs(pairs, "-|", ",|")
    ensures '|' !in Joined(pairs)
  {
    if pairs != [] {
      var front := pairs[..|pairs| - 1];
      assert pairs[|pairs| - 1] in pairs && '|' in "-|" && '|' in ",|";
      assert FreePairs(front, "-|", ",|");
      JoinedFree(front);
    }
  }

  /** The text after the first entry: nothing, or a comma and the text of the others. */
  function After(rest: seq<Pair>): string {
    if rest == [] then "" else "," + Joined(rest)
  }

  lemma JoinedHead(a: seq<Pair>)
    requires a != []
    ensures Joined(a) == a[0].0 + ['-'] + (a[0].1 + After(a[1..]))
  {
    assert a == [a[0]] + a[1..];
    if a[1..] != [] { JoinedCons(a[0], a[1..]); }
  }

  function Closed(rest: seq<Pair>): string {
    if rest == [] then "" else Joined(rest) + ","
  }

  /** A comma at the end makes the last entry look like the others. */
  lemma AfterClosed(x: string, a: seq<Pair>)
    ensures x + After(a) + "," == x + [','] + Closed(a)
  {
    if a != [] {
      assert x + ("," + Joined(a)) + "," == x + [','] + (Joined(a) + ",");
    }
  }

  lemma ClosedSame(a: seq<Pair>, b: seq<Pair>)
    requires Closed(a) == Closed(b)
    ensures Joined(a) == Joined(b)
  {
    if a == [] || b == [] {
      assert |Closed(a)| == |Closed(b)|;
    } else {
      assert Closed(a)[..|Joined(a)|] == Joined(a) && Closed(b)[..|Joined(b)|] == Joined(b);
    }
  }

  lemma AfterSplit(x: string, y: string, a: seq<Pair>, b: seq<Pair>)
    requires ',' !in x && ',' !in y && x + After(a) == y + After(b)
    ensures x == y && Joined(a) == Joined(b)
  {
    AfterClosed(x, a);
    AfterClosed(y, b);
    Split(x, y, ',', Closed(a), Closed(b));
    ClosedSame(a, b);
  }

  lemma HeadFaithful(a: seq<Pair>, b: seq<Pair>)
    requires FreePairs(a, "-|", ",|") && FreePairs(b, "-|", ",|") && a != [] && b != []
    requires Joined(a) == Joined(b)
    ensures a[0] == b[0] && Joined(a[1..]) == Joined(b[1..])
  {
    JoinedHead(a);
    JoinedHead(b);
    assert a[0] in a && b[0] in b && '-' in "-|" && ',' in ",|";
    Split(a[0].0, b[0].0, '-', a[0].1 + After(a[1..]), b[0].1 + After(b[1..]));
    AfterSplit(a[0].1, b[0].1, a[1..], b[1..]);
  }

  lemma {:induction false} JoinedFaithful(a: seq<Pair>, b: seq<Pair>)
    requires FreePairs(a, "-|", ",|") && FreePairs(b, "-|", ",|")
    requires Joined(a) == Joined(b)
    ensures a == b
    decreases |a|
  {
    JoinedEmpty(a);
    JoinedEmpty(b);
    if a != [] && b != [] {
      HeadFaithful(a, b);
      JoinedFaithful(a[1..], b[1..]);
      assert a == [a[0]] + a[1..] && b == [b[0]] + b[1..];
    }
  }

  lemma JoinedEmpty(a: seq<Pair>)
    ensures Joined(a) == "" <==> a == []
  {
  }

  /** Nothing printed contains `|`, and inside the custom ids no key contains `-` and no value `,`. */
  predicate ReadableKey(u: User) {
    '|' !in u.userId.GetOr("") && FreeMap(u.customIds, "-|", ",|")
  }

  /** The cache key is made from the user id, the custom ids and the SDK key, and from nothing else. */
  lemma CacheKeyTextFaithful(k: string, u: User, l: string, v: User)
    requires ReadableKey(u) && ReadableKey(v)
    ensures CacheKeyText(k, u) == CacheKeyText(l, v)
      <==> k == l && u.userId.GetOr("") == v.userId.GetOr("") && u.customIds == v.customIds
  {
    SortedFree(u.customIds, "-|", ",|");
    SortedFree(v.customIds, "-|", ",|");
    JoinedFree(Sorted(u.customIds));
    JoinedFree(Sorted(v.customIds));
    if CacheKeyText(k, u) == CacheKeyText(l, v) {
      SplitCacheKey(u.userId.GetOr(""), Joined(Sorted(u.customIds)), k, v.userId.GetOr(""), Joined(Sorted(v.customIds)), l);
      JoinedFaithful(Sorted(u.customIds), Sorted(v.customIds));
      SortedFaithful(u.customIds, v.customIds);
    }
  }

  lemma SplitCacheKey(a: string, b: string, k: string, c: string, d: string, l: string)
    requires '|' !in a && '|' !in b && '|' !in c && '|' !in d
    requires "uid:" + a + "|" + "cids:" + b + "|" + "k:" + k == "uid:" + c + "|" + "cids:" + d + "|" + "k:" + l
    ensures a == c && b == d && k == l
  {
    var r, s := "cids:" + b + "|" + "k:" + k, "cids:" + d + "|" + "k:" + l;
    assert "uid:" + a + "|" + "cids:" + b + "|" + "k:" + k == ("uid:" + a) + ['|'] + r;
    assert "uid:" + c + "|" + "cids:" + d + "|" + "k:" + l == ("uid:" + c) + ['|'] + s;
    Split("uid:" + a, "uid:" + c, '|', r, s);
    assert ("uid:" + a)[4..] == a && ("uid:" + c)[4..] == c;
    assert r == ("cids:" + b) + ['|'] + ("k:" + k) && s == ("cids:" + d) + ['|'] + ("k:" + l);
    Split("cids:" + b, "cids:" + d, '|', "k:" + k, "k:" + l);
    assert ("cids:" + b)[5..] == b && ("cids:" + d)[5..] == d;
    assert ("k:" + k)[2..] == k && ("k:" + l)[2..] == l;
  }

  lemma {:induction false} PartsConcat(a: seq<Pair>, b: seq<Pair>)
    ensures Parts(a + b) == Parts(a) + Parts(b)
  {
    if a == [] {
      assert a + b == b;
    } else {
      assert (a + b)[1..] == a[1..] + b;
      PartsConcat(a[1..], b);
    }
  }

  lemma ThreeParts(p: seq<Pair>)
    requires |p| == 3
    ensures Parts(p) == Part(p[0].0, p[0].1) + (Part(p[1].0, p[1].1) + Part(p[2].0, p[2].1))
  {
    assert p[1..][1..] == [p[2]] && p[1..][0] == p[1];
    assert Parts([p[2]]) == Part(p[2].0, p[2].1) + Parts([p[2]][1..]);
    assert Parts(p[1..]) == Part(p[1].0, p[1].1) + Parts(p[1..][1..]);
  }

  /** Users who differ only in the first three parts, and there only in where the separators are. */
  lemma SameFirstParts(a: seq<Pair>, b: seq<Pair>)
    requires |a| >= 3 && |b| >= 3 && a[3..] == b[3..]
    requires Part(a[0].0, a[0].1) + (Part(a[1].0, a[1].1) + Part(a[2].0, a[2].1))
      == Part(b[0].0, b[0].1) + (Part(b[1].0, b[1].1) + Part(b[2].0, b[2].1))
    ensures Parts(a) == Parts(b)
  {
    ThreeParts(a[..3]);
    ThreeParts(b[..3]);
    assert a[..3] + a[3..] == a && b[..3] + b[3..] == b;
    PartsConcat(a[..3], a[3..]);
    PartsConcat(b[..3], b[3..]);
  }

  /** One value that contains the label after it is enough for different users to count as equal. */
  lemma SeparatorsCollide() returns (u: User, v: User)
    ensures !SameIdentity(u, v) && AreUsersEqual(u, v)
    ensures Contains(u.userId.GetOr(""), Marker("ci")) && ReadableUser(v)
  {
    u := DEFAULT_USER.(userId := Some("1-ci:-e:2"));
    v := DEFAULT_USER.(userId := Some("1"), email := Some("2-ci:-e:"));
    FirstContainsLabel();
    SecondReadable(v);
    SameTexts(u, v);
    DifferentUsers(u, v);
  }

  lemma DifferentUsers(u: User, v: User)
    requires u.userId == Some("1-ci:-e:2") && v.userId == Some("1")
    ensures !SameIdentity(u, v)
  {
    assert |u.userId.value| == 9 && |v.userId.value| == 1;
  }

  lemma FirstContainsLabel()
    ensures Contains("1-ci:-e:2", Marker("ci"))
  {
    assert IsAt("1-ci:-e:2", Marker("ci"), 1);
  }

  lemma SameTexts(u: User, v: User)
    requires u == DEFAULT_USER.(userId := Some("1-ci:-e:2"))
    requires v == DEFAULT_USER.(userId := Some("1"), email := Some("2-ci:-e:"))
    ensures AreUsersEqual(u, v)
  {
    CollidingPairs(u, v);
    CollidingTexts();
    SameFirstParts(FullUserPairs(u), FullUserPairs(v));
  }

  lemma SecondReadable(v: User)
    requires v == DEFAULT_USER.(userId := Some("1"), email := Some("2-ci:-e:"))
    ensures ReadableUser(v)
  {
    var b := FullUserPairs(v);
    assert SortedMapText(Some(map[])) == "" && SortedMapText(None) == "";
    forall i | 0 < i < 11 ensures !Contains(b[i - 1].1, Marker(b[i].0)) {
      if i != 3 {
        NoColonNoLabel(b[i - 1].1, b[i].0);
      } else {
        EmailReadable();
      }
    }
  }

  lemma EmailReadable()
    ensures !Contains("2-ci:-e:", Marker("ip"))
  {
    var text := "2-ci:-e:";
    forall i ensures !IsAt(text, Marker("ip"), i) {
      if 0 <= i <= 4 {
        assert text[i..i + 4][0] == text[i] && text[i..i + 4][1] == text[i + 1] && (text[i] != '-' || text[i + 1] != 'i');
      }
    }
  }

  /** A map key that contains what ends a key makes two maps print the same text, in both formats. */
  lemma MapKeysCollide()
    ensures Entries(Sorted(map["a:b" := "c"])) == Entries(Sorted(map["a" := "b:c"]))
    ensures Joined(Sorted(map["a-b" := "c"])) == Joined(Sorted(map["a" := "b-c"]))
  {
    SortedSingle("a:b", "c");
    SortedSingle("a", "b:c");
    SortedSingle("a-b", "c");
    SortedSingle("a", "b-c");
    assert "a:b" + ":" + "c" + "|" == "a" + ":" + "b:c" + "|";
  }

  lemma SortedSingle(k: string, v: string)
    ensures Sorted(map[k := v]) == [(k, v)]
    ensures Entries([(k, v)]) == k + ":" + v + "|"
  {
    SortedIsSorted(map[k := v]);
    SortedEnumerationUnique(Sorted(map[k := v]), [(k, v)], map[k := v]);
    assert [(k, v)][..0] == [];
  }

  lemma CollidingPairs(u: User, v: User)
    requires u == DEFAULT_USER.(userId := Some("1-ci:-e:2"))
    requires v == DEFAULT_USER.(userId := Some("1"), email := Some("2-ci:-e:"))
    ensures var a, b := FullUserPairs(u), FullUserPairs(v);
      && |a| == |b| == 11 && a[3..] == b[3..]
      && a[0] == ("u", "1-ci:-e:2") && a[1] == ("ci", "") && a[2] == ("e", "")
      && b[0] == ("u", "1") && b[1] == ("ci", "") && b[2] == ("e", "2-ci:-e:")
  {
    assert SortedMapText(Some(map[])) == "";
  }

  lemma CollidingTexts()
    ensures Part("u", "1-ci:-e:2") + (Part("ci", "") + Part("e", ""))
      == Part("u", "1") + (Part("ci", "") + Part("e", "2-ci:-e:"))
  {
    assert Part("u", "1-ci:-e:2") + (Part("ci", "") + Part("e", "")) == "u:1-ci:-e:2-ci:-e:-";
    assert Part("u", "1") + (Part("ci", "") + Part("e", "2-ci:-e:")) == "u:1-ci:-e:2-ci:-e:-";
  }
}
