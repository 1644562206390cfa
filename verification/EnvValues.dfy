/** Overriding environment entries in place (ReplaceOrAppendEnvValues in docker/utils/utils.go). */
module EnvValues {
  import opened Wrappers

  /** The name of an entry: what comes before its first '=', or all of it. */
  function Key(e: string): string {
    if e == "" || e[0] == '=' then "" else [e[0]] + Key(e[1..])
  }

  /** The entry a lookup that takes the last one finds. */
  function LastEntry(entries: seq<string>, key: string): Option<string> {
    if entries == [] then None
    else
      var n := |entries| - 1;
      if Key(entries[n]) == key then Some(entries[n]) else LastEntry(entries[..n], key)
  }

  /** e is an entry for the name k. */
  predicate Names(e: string, k: string) {
    e == k || k + "=" <= e
  }

  /** The last entry for k. */
  function LastNamed(entries: seq<string>, k: string): Option<string> {
    if entries == [] then None
    else
      var n := |entries| - 1;
      if Names(entries[n], k) then Some(entries[n]) else LastNamed(entries[..n], k)
  }

  /** An entry is its name, or begins with its name and '='. */
  lemma {:induction false} KeyIs(e: string)
    ensures '=' !in Key(e) && (e == Key(e) || Key(e) + "=" <= e)
  {
    if e == "" || e[0] == '=' {
    } else {
      KeyIs(e[1..]);
      assert e == [e[0]] + e[1..];
    }
  }

  // A longer name would take in the '='.
  lemma LongerTakesEquals(e: string, a: string, b: string)
    requires Names(e, a) && Names(e, b) && |a| < |b|
    ensures '=' in b
  {
    assert b == e[..|b|];
    assert b[|a|] == e[|a|] == '=';
  }

  // An entry has one name only.
  lemma OneNameEach(e: string, a: string, b: string)
    requires '=' !in a && '=' !in b && Names(e, a) && Names(e, b) && |a| <= |b|
    ensures a == b
  {
    if |a| < |b| {
      LongerTakesEquals(e, a, b);
    }
    assert a == e[..|a|] && b == e[..|b|];
  }

  lemma KeyOnly(e: string, k: string)
    requires '=' !in k
    ensures Names(e, k) <==> Key(e) == k
  {
    hide Names;
    KeyIs(e);
    assert Names(e, Key(e)) by {
      KeyNames(e);
    }
    if Names(e, k) {
      if |k| <= |Key(e)| {
        OneNameEach(e, k, Key(e));
      } else {
        OneNameEach(e, Key(e), k);
      }
    }
  }

  lemma KeyNames(e: string)
    ensures Names(e, Key(e))
  {
    KeyIs(e);
  }

  lemma {:induction false} LastNamedIs(entries: seq<string>, k: string)
    requires '=' !in k
    ensures LastNamed(entries, k) == LastEntry(entries, k)
  {
    hide Key, Names;
    if entries == [] {
    } else {
      KeyOnly(entries[|entries| - 1], k);
      LastNamedIs(entries[..|entries| - 1], k);
    }
  }

  lemma LastEntryAppend(entries: seq<string>, e: string, key: string)
    ensures LastEntry(entries + [e], key) == if Key(e) == key then Some(e) else LastEntry(entries, key)
  {
    assert (entries + [e])[..|entries|] == entries;
  }

  // Replacing the last entry for a name changes what is found for that name only.
  lemma {:induction false} LastEntryReplace(entries: seq<string>, i: nat, e: string, key: string)
    requires i < |entries| && Key(entries[i]) == Key(e)
    requires forall j :: i < j < |entries| ==> Key(entries[j]) != Key(e)
    ensures LastEntry(entries[i := e], key) == if Key(e) == key then Some(e) else LastEntry(entries, key)
  {
    hide Key;
    var n := |entries| - 1;
    if i < n {
      assert entries[i := e][..n] == entries[..n][i := e];
      LastEntryReplace(entries[..n], i, e, key);
    } else {
      assert entries[i := e][..n] == entries[..n];
    }
  }

  ghost predicate SameLookups(a: seq<string>, b: seq<string>) {
    forall key :: LastEntry(a, key) == LastEntry(b, key)
  }

  lemma SameItself(a: seq<string>)
    ensures SameLookups(a, a)
  {}

  lemma SameAfterReplace(entries: seq<string>, i: nat, e: string, all: seq<string>)
    requires SameLookups(entries, all) && i < |entries| && Key(entries[i]) == Key(e)
    requires forall j :: i < j < |entries| ==> Key(entries[j]) != Key(e)
    ensures SameLookups(entries[i := e], all + [e])
  {
    hide Key, LastEntry;
    forall key
      ensures LastEntry(entries[i := e], key) == LastEntry(all + [e], key)
    {
      LastEntryReplace(entries, i, e, key);
      LastEntryAppend(all, e, key);
    }
  }

  lemma SameAfterAppend(entries: seq<string>, e: string, all: seq<string>)
    requires SameLookups(entries, all)
    ensures SameLookups(entries + [e], all + [e])
  {
    hide Key, LastEntry;
    forall key
      ensures LastEntry(entries + [e], key) == LastEntry(all + [e], key)
    {
      LastEntryAppend(entries, e, key);
      LastEntryAppend(all, e, key);
    }
  }

  /** Where the last entry for each name is. */
  ghost predicate Indexes(cache: map<string, nat>, entries: seq<string>) {
    && (forall i :: 0 <= i < |entries| ==> Key(entries[i]) in cache)
    && forall k :: k in cache ==>
      && cache[k] < |entries| && Key(entries[cache[k]]) == k
      && forall j :: cache[k] < j < |entries| ==> Key(entries[j]) != k
  }

  /** The result finds, for every name, what the last entry of defaults followed by overrides says, and keeps the
      names of the defaults in their places. It is the array of the defaults itself unless something had to be
      appended. */
  method ReplaceOrAppendEnvValues(defaults: array<string>, overrides: seq<string>) returns (r: array<string>)
    modifies defaults
    ensures r == defaults || fresh(r)
    ensures forall k :: '=' !in k ==> LastNamed(r[..], k) == LastNamed(old(defaults[..]) + overrides, k)
    ensures forall k, i | '=' !in k && 0 <= i < defaults.Length && Names(old(defaults[i]), k) &&
      forall o :: o in overrides ==> Names(o, k) :: r == defaults
    ensures SameLookups(r[..], old(defaults[..]) + overrides)
    ensures r.Length >= defaults.Length
    ensures forall i :: 0 <= i < defaults.Length ==> Key(r[i]) == Key(old(defaults[i]))
    ensures r == defaults <==>
      forall o :: o in overrides ==> exists i :: 0 <= i < defaults.Length && Key(old(defaults[i])) == Key(o)
  {
    hide Key, LastEntry, SameLookups, Names, LastNamed, AllCached;
    var n := defaults.Length;
    ghost var was := defaults[..];
    var cache := LastIndexes(defaults[..]);
    r := defaults;
    assert was + overrides[..0] == was;
    SameItself(was);
    assert AllCached([], cache) by {
      NoneCached(cache);
    }
    for i := 0 to |overrides|
      invariant r == defaults || fresh(r)
      invariant Kept(r[..], was, cache)
      invariant SameLookups(r[..], was + overrides[..i])
      invariant r == defaults <==> AllCached(overrides[..i], cache)
    {
      var value := overrides[i];
      ghost var before := r[..];
      assert was + overrides[..i + 1] == was + overrides[..i] + [value];
      assert overrides[..i + 1] == overrides[..i] + [value];
      AllCachedNext(overrides[..i], value, cache);
      if Key(value) in cache {
        var k := cache[Key(value)];
        r[k] := value;
        assert r[..] == before[k := value];
        SameAfterReplace(before, k, value, was + overrides[..i]);
      } else {
        r := Append(r, value);
        SameAfterAppend(before, value, was + overrides[..i]);
      }
    }
    assert overrides[..|overrides|] == overrides;
    assert forall i :: 0 <= i < n ==> r[..][i] == r[i];
    SameNamed(r[..], was + overrides);
    WhenInPlace(was, overrides, cache, r == defaults);
  }

  // Whether everything was done in place.
  lemma WhenInPlace(was: seq<string>, overrides: seq<string>, cache: map<string, nat>, inPlace: bool)
    requires Indexes(cache, was) && (inPlace <==> AllCached(overrides, cache))
    ensures inPlace <==> forall o :: o in overrides ==> exists i :: 0 <= i < |was| && Key(was[i]) == Key(o)
    ensures forall k, i | '=' !in k && 0 <= i < |was| && Names(was[i], k) &&
      forall o :: o in overrides ==> Names(o, k) :: inPlace
  {
    hide Key, Indexes, AllCached, Names;
    CachedKeys(was, overrides, cache);
    forall k, i | '=' !in k && 0 <= i < |was| && Names(was[i], k) && forall o :: o in overrides ==> Names(o, k)
      ensures inPlace
    {
      OneName(was, overrides, k, i);
    }
  }

  lemma SameNamed(a: seq<string>, b: seq<string>)
    requires SameLookups(a, b)
    ensures forall k :: '=' !in k ==> LastNamed(a, k) == LastNamed(b, k)
  {
    hide LastEntry, LastNamed, Key;
    forall k | '=' !in k
      ensures LastNamed(a, k) == LastNamed(b, k)
    {
      LastNamedIs(a, k);
      LastNamedIs(b, k);
    }
  }

  // Overrides for one name, which the defaults have.
  lemma OneName(was: seq<string>, overrides: seq<string>, k: string, i: nat)
    requires '=' !in k && i < |was| && Names(was[i], k) && forall o :: o in overrides ==> Names(o, k)
    ensures forall o :: o in overrides ==> exists j :: 0 <= j < |was| && Key(was[j]) == Key(o)
  {
    hide Key, Names;
    KeyOnly(was[i], k);
    forall o | o in overrides
      ensures Key(was[i]) == Key(o)
    {
      KeyOnly(o, k);
    }
  }

  /** The names of the defaults are in their places, and no name after them has an index. */
  ghost predicate Kept(entries: seq<string>, was: seq<string>, cache: map<string, nat>) {
    && |entries| >= |was|
    && (forall k :: 0 <= k < |was| ==> Key(entries[k]) == Key(was[k]))
    && forall k :: |was| <= k < |entries| ==> Key(entries[k]) !in cache
  }

  predicate AllCached(overrides: seq<string>, cache: map<string, nat>) {
    forall o :: o in overrides ==> Key(o) in cache
  }

  lemma NoneCached(cache: map<string, nat>)
    ensures AllCached([], cache)
  {}

  lemma AllCachedNext(overrides: seq<string>, o: string, cache: map<string, nat>)
    ensures AllCached(overrides + [o], cache) <==> AllCached(overrides, cache) && Key(o) in cache
  {
    hide Key;
    assert o in overrides + [o];
  }

  lemma CachedKeys(was: seq<string>, overrides: seq<string>, cache: map<string, nat>)
    requires Indexes(cache, was)
    ensures AllCached(overrides, cache) <==>
      forall o :: o in overrides ==> exists i :: 0 <= i < |was| && Key(was[i]) == Key(o)
  {
    hide Key;
    forall o
      ensures Key(o) in cache <==> exists i :: 0 <= i < |was| && Key(was[i]) == Key(o)
    {
    }
  }

  method LastIndexes(entries: seq<string>) returns (cache: map<string, nat>)
    ensures Indexes(cache, entries)
  {
    hide Key;
    cache := map[];
    for i := 0 to |entries|
      invariant Indexes(cache, entries[..i])
    {
      assert entries[..i + 1] == entries[..i] + [entries[i]];
      cache := cache[Key(entries[i]) := i];
    }
    assert entries[..|entries|] == entries;
  }

  // append on a full slice
  method Append(a: array<string>, e: string) returns (r: array<string>)
    ensures fresh(r) && r[..] == a[..] + [e]
  {
    r := new string[a.Length + 1](i => e);
    forall k | 0 <= k < a.Length {
      r[k] := a[k];
    }
    assert r[..a.Length] == a[..];
  }
}
