/** The bounded in-memory cache of adapter results, and the eviction of cache files. */
module MemoryCache {
  import opened Wrappers
  import opened EvaluationStore

  const MAX_CACHED_EVALUATIONS := 10

  type Cache = map<string, AdapterResult>

  /** `unordered_map::emplace`: a key that is present keeps its value. */
  function Emplace(m: Cache, key: string, value: AdapterResult): Cache {
    if key in m then m else m[key := value]
  }

  predicate IsOldest(m: Cache, key: string) {
    key in m && forall k :: k in m ==> m[key].receivedAt <= m[k].receivedAt
  }

  /** The victim that may be evicted before an insertion: a full cache gives up an oldest entry. */
  predicate Victim(m: Cache, victim: Option<string>) {
    if |m| < MAX_CACHED_EVALUATIONS then victim.None? else victim.Some? && IsOldest(m, victim.value)
  }

  /** Below ten entries nothing is evicted; from ten on one entry is, and it is as old as any. */
  lemma VictimMeaning(m: Cache, victim: Option<string>)
    requires Victim(m, victim)
    ensures victim.Some? <==> |m| >= 10
    ensures victim.Some? ==>
      victim.value in m && forall k :: k in m ==> m[victim.value].receivedAt <= m[k].receivedAt
    ensures victim.None? ==> Evicted(m, victim) == m
  {
  }

  function Evicted(m: Cache, victim: Option<string>): Cache {
    if victim.Some? then m - {victim.value} else m
  }

  function Added(m: Cache, key: string, value: AdapterResult, victim: Option<string>): Cache {
    Emplace(Evicted(m, victim), key, value)
  }

  class InMemoryCache {
    var entries: Cache

    constructor ()
      ensures entries == map[]
    {
      entries := map[];
    }

    /** The iteration visits the entries in an arbitrary order, starting at an arbitrary one. */
    method FindOldest() returns (oldest: string)
      requires entries != map[]
      ensures IsOldest(entries, oldest)
    {
      oldest :| oldest in entries;
      var oldestReceivedAt := MAX_LONG_LONG;
      var rest := entries.Keys;
      while rest != {}
        invariant rest <= entries.Keys && oldest in entries
        invariant entries[oldest].receivedAt == oldestReceivedAt
          || (oldestReceivedAt == MAX_LONG_LONG && forall k :: k in entries && k !in rest ==> entries[k].receivedAt == MAX_LONG_LONG)
        invariant oldestReceivedAt <= MAX_LONG_LONG
        invariant forall k :: k in entries && k !in rest ==> oldestReceivedAt <= entries[k].receivedAt
      {
        var k :| k in rest;
        if entries[k].receivedAt < oldestReceivedAt {
          oldest := k;
          oldestReceivedAt := entries[k].receivedAt;
        }
        rest := rest - {k};
      }
    }

    method AddToInMemoryCache(key: string, result: AdapterResult) returns (ghost victim: Option<string>)
      modifies this
      ensures Victim(old(entries), victim)
      ensures entries == Added(old(entries), key, result, victim)
    {
      victim := None;
      if |entries| < MAX_CACHED_EVALUATIONS {
        entries := Emplace(entries, key, result);
        return;
      }
      var oldest := FindOldest();
      victim := Some(oldest);
      entries := entries - {oldest};
      entries := Emplace(entries, key, result);
    }
  }

  // ---- sequences of additions ----

  datatype Insertion = Insertion(key: string, value: AdapterResult, victim: Option<string>)

  /** States of a cache between insertions; lookups do not change it. */
  ghost predicate IsHistory(states: seq<Cache>, ops: seq<Insertion>) {
    && |states| == |ops| + 1
    && states[0] == map[]
    && forall i :: 0 <= i < |ops| ==>
         && Victim(states[i], ops[i].victim)
         && states[i + 1] == Added(states[i], ops[i].key, ops[i].value, ops[i].victim)
  }

  lemma EvictedSize(m: Cache, victim: Option<string>)
    requires Victim(m, victim) && |m| <= MAX_CACHED_EVALUATIONS
    ensures |Evicted(m, victim)| < MAX_CACHED_EVALUATIONS
  {
    if victim.Some? {
      assert (m - {victim.value}).Keys == m.Keys - {victim.value};
      assert |(m - {victim.value}).Keys| == |m.Keys| - 1;
    }
  }

  lemma {:induction false} NeverMoreThanTen(states: seq<Cache>, ops: seq<Insertion>, n: nat)
    requires IsHistory(states, ops) && n < |states|
    ensures |states[n]| <= 10
  {
    if n > 0 {
      NeverMoreThanTen(states, ops, n - 1);
      EvictedSize(states[n - 1], ops[n - 1].victim);
    }
  }

  /** At insertion `i` the key was absent, or had just been evicted, so its value was stored. */
  predicate StoredAt(states: seq<Cache>, ops: seq<Insertion>, i: nat, key: string)
    requires i < |ops| && i < |states|
  {
    ops[i].key == key && key !in Evicted(states[i], ops[i].victim)
  }

  /**
   * A lookup returns the value stored when the key was last inserted while absent: every later
   * insertion under that key, up to the lookup, was ignored and did not evict it.
   */
  lemma {:induction false} LookupReturnsFirstAdded(states: seq<Cache>, ops: seq<Insertion>, n: nat, key: string) returns (i: nat)
    requires IsHistory(states, ops) && n < |states| && key in states[n]
    ensures i < n && StoredAt(states, ops, i, key) && states[n][key] == ops[i].value
    ensures forall j :: i < j < n ==> !StoredAt(states, ops, j, key) && ops[j].victim != Some(key)
    ensures forall j :: i < j <= n ==> key in states[j] && states[j][key] == ops[i].value
  {
    var m, op := states[n - 1], ops[n - 1];
    assert states[n] == Added(m, op.key, op.value, op.victim);
    i := n - 1;
    if !StoredAt(states, ops, n - 1, key) {
      IgnoredInsertion(m, op, key);
      i := LookupReturnsFirstAdded(states, ops, n - 1, key);
    } else {
      StoredInsertion(m, op, key);
    }
  }

  lemma StoredInsertion(m: Cache, op: Insertion, key: string)
    requires op.key == key && key !in Evicted(m, op.victim)
    ensures Added(m, op.key, op.value, op.victim)[key] == op.value
  {
  }

  /** An insertion after which the key is present but not newly stored left its entry alone. */
  lemma IgnoredInsertion(m: Cache, op: Insertion, key: string)
    requires key in Added(m, op.key, op.value, op.victim)
    requires op.key != key || key in Evicted(m, op.victim)
    ensures key in m && op.victim != Some(key)
    ensures Added(m, op.key, op.value, op.victim)[key] == m[key]
  {
  }

  /** Everything that is neither the victim nor the new key stays as it was. */
  lemma OthersUntouched(m: Cache, key: string, value: AdapterResult, victim: Option<string>, other: string)
    requires Victim(m, victim)
    requires other != key && victim != Some(other)
    ensures other in m <==> other in Added(m, key, value, victim)
    ensures other in m ==> Added(m, key, value, victim)[other] == m[other]
  {
  }

  /** Re-adding a present key to a full cache still evicts an entry: the cache can shrink. */
  lemma ReAddCanEvictAnother(m: Cache, key: string, value: AdapterResult, victim: string)
    requires |m| == MAX_CACHED_EVALUATIONS && IsOldest(m, victim) && key in m && key != victim
    ensures |Added(m, key, value, Some(victim))| == |m| - 1
    ensures Added(m, key, value, Some(victim))[key] == m[key]
  {
    assert (m - {victim}).Keys == m.Keys - {victim};
    assert |(m - {victim}).Keys| == |m.Keys| - 1;
  }

  // ---- RunCacheEviction ----

  datatype CacheFile = CacheFile(path: string, writtenAt: int)

  ghost predicate YoungestFirst(files: seq<CacheFile>) {
    forall i, j :: 0 <= i < j < |files| ==> files[i].writtenAt >= files[j].writtenAt
  }

  /** Deletes eldest files until fewer than ten are left; `files` is the listing, youngest first. */
  method RunCacheEviction(files: seq<CacheFile>) returns (kept: seq<CacheFile>, deleted: seq<CacheFile>)
    requires YoungestFirst(files)
    ensures multiset(kept) + multiset(deleted) == multiset(files)
    ensures |kept| == if |files| < 10 then |files| else 9
    ensures forall k, d :: k in kept && d in deleted ==> k.writtenAt >= d.writtenAt
  {
    kept, deleted := files, [];
    if |kept| < MAX_CACHED_EVALUATIONS {
      return;
    }
    while |kept| >= MAX_CACHED_EVALUATIONS
      invariant MAX_CACHED_EVALUATIONS - 1 <= |kept| <= |files|
      invariant kept == files[..|kept|]
      invariant multiset(kept) + multiset(deleted) == multiset(files)
      invariant forall d :: d in deleted ==> exists j :: |kept| <= j < |files| && files[j] == d
    {
      var eldest := kept[|kept| - 1];
      assert kept == kept[..|kept| - 1] + [eldest];
      assert files[|kept| - 1] == eldest;
      deleted := deleted + [eldest];
      kept := kept[..|kept| - 1];
    }
  }
}
