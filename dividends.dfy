/** The dividend cache the savings screens keep: the keys the rows need are
    collected without repetition (a JS `Set`), only keys missing from the cache
    are requested, and the answers are merged into a copy of the cache, a
    failed request counting as 0. */
module Dividends {
  import opened Js

  /** Key → dividend (`Number(...)` of what the server sent); no entry is ever null. */
  type Cache = map<string, Num>

  predicate NoDuplicates(s: seq<string>) {
    forall i, j :: 0 <= i < j < |s| ==> s[i] != s[j]
  }

  /** The elements of `xs` in first-occurrence order: the iteration order of a
      `Set` filled by `add` in the order of `xs`. */
  function Distinct(xs: seq<string>): (r: seq<string>)
    ensures NoDuplicates(r)
    ensures forall x :: x in r <==> x in xs
    ensures |r| <= |xs|
  {
    if xs == [] then []
    else
      var d := Distinct(xs[..|xs| - 1]);
      var x := xs[|xs| - 1];
      assert xs == xs[..|xs| - 1] + [x];
      if x in d then d else d + [x]
  }

  /** The keys of `keys` with no cache entry (`cache[key] == null`), in order. */
  function Uncached(keys: seq<string>, cache: Cache): (r: seq<string>)
    ensures forall k :: k in r <==> k in keys && k !in cache
    ensures NoDuplicates(keys) ==> NoDuplicates(r)
    ensures |r| <= |keys|
  {
    if keys == [] then []
    else
      var front := keys[..|keys| - 1];
      var k := keys[|keys| - 1];
      assert keys == front + [k];
      assert NoDuplicates(keys) ==> NoDuplicates(front) && k !in front;
      Uncached(front, cache) + (if k !in cache then [k] else [])
  }

  lemma {:induction false} DistinctSnoc(front: seq<string>, x: string)
    ensures Distinct(front + [x]) == if x in Distinct(front) then Distinct(front) else Distinct(front) + [x]
  {
    assert (front + [x])[..|front + [x]| - 1] == front;
  }

  lemma {:induction false} UncachedSnoc(front: seq<string>, x: string, cache: Cache)
    ensures Uncached(front + [x], cache) == Uncached(front, cache) + (if x !in cache then [x] else [])
  {
    assert (front + [x])[..|front + [x]| - 1] == front;
  }

  /** The step of the commutation below when the last key is cached. */
  lemma {:induction false} CommuteCachedLast(xs: seq<string>, cache: Cache)
    requires xs != [] && xs[|xs| - 1] in cache
    requires Uncached(Distinct(xs[..|xs| - 1]), cache) == Distinct(Uncached(xs[..|xs| - 1], cache))
    ensures Uncached(Distinct(xs), cache) == Distinct(Uncached(xs, cache))
  {
    var front := xs[..|xs| - 1];
    var x := xs[|xs| - 1];
    var d := Distinct(front);
    assert Distinct(xs) == if x in d then d else d + [x];
    assert Uncached(xs, cache) == Uncached(front, cache);
    if x !in d {
      UncachedSnoc(d, x, cache);
    }
  }

  /** The step of the commutation below when the last key is not cached. */
  lemma {:induction false} CommuteMissingLast(xs: seq<string>, cache: Cache)
    requires xs != [] && xs[|xs| - 1] !in cache
    requires Uncached(Distinct(xs[..|xs| - 1]), cache) == Distinct(Uncached(xs[..|xs| - 1], cache))
    ensures Uncached(Distinct(xs), cache) == Distinct(Uncached(xs, cache))
  {
    var front := xs[..|xs| - 1];
    var x := xs[|xs| - 1];
    var d := Distinct(front);
    var u := Uncached(front, cache);
    assert Distinct(xs) == if x in d then d else d + [x];
    assert Uncached(xs, cache) == u + [x];
    DistinctSnoc(u, x);
    assert x in Distinct(u) <==> x in d;
    if x !in d {
      UncachedSnoc(d, x, cache);
    }
  }

  /** Dropping cached keys and dropping repeats can be done in either order:
      the admin table dedupes first, the employee screens filter first. */
  lemma {:induction false} DistinctUncachedCommute(xs: seq<string>, cache: Cache)
    ensures Uncached(Distinct(xs), cache) == Distinct(Uncached(xs, cache))
  {
    if xs != [] {
      DistinctUncachedCommute(xs[..|xs| - 1], cache);
      if xs[|xs| - 1] in cache {
        CommuteCachedLast(xs, cache);
      } else {
        CommuteMissingLast(xs, cache);
      }
    }
  }

  /** The keys still to request for `needed`: each missing key once. No key is
      requested twice, none that is cached, and every missing key is. */
  function Jobs(needed: seq<string>, cache: Cache): (r: seq<string>)
    ensures NoDuplicates(r)
    ensures forall k :: k in r <==> k in needed && k !in cache
    ensures r == [] <==> forall k :: k in needed ==> k in cache
  {
    var r := Uncached(Distinct(needed), cache);
    assert r != [] ==> r[0] in r;
    r
  }

  /** How one dividend request settled; a fulfilled one carries
      `data?.dividend` as a number, when present. */
  datatype Answer = Fulfilled(dividend: Option<Num>) | Rejected

  /** `res.status === "fulfilled" ? Number(res.value?.data?.dividend ?? 0) : 0`. */
  function ValueOf(a: Answer): Num {
    match a
    case Fulfilled(d) => Coalesce(d, Finite(0.0))
    case Rejected => Finite(0.0)
  }

  /** `next = { ...divCache }`, then `next[key_i] = value_i` for each answer in order. */
  function Merged(cache: Cache, keys: seq<string>, answers: seq<Answer>): (next: Cache)
    requires |answers| == |keys|
    ensures next.Keys == cache.Keys + set k | k in keys
    ensures forall k :: k in cache && k !in keys ==> next[k] == cache[k]
    ensures NoDuplicates(keys) ==> forall i :: 0 <= i < |keys| ==> next[keys[i]] == ValueOf(answers[i])
  {
    if keys == [] then cache
    else
      var n := |keys| - 1;
      var front := Merged(cache, keys[..n], answers[..n]);
      assert keys == keys[..n] + [keys[n]];
      assert NoDuplicates(keys) ==> NoDuplicates(keys[..n]) && keys[n] !in keys[..n];
      front[keys[n] := ValueOf(answers[n])]
  }

  /** The merge writes one entry per answer into a copy of the cache. */
  method Merge(cache: Cache, keys: seq<string>, answers: seq<Answer>) returns (next: Cache)
    requires |answers| == |keys|
    ensures next == Merged(cache, keys, answers)
  {
    next := cache;
    for i := 0 to |keys|
      invariant next == Merged(cache, keys[..i], answers[..i])
    {
      assert keys[..i + 1][..i] == keys[..i] && answers[..i + 1][..i] == answers[..i];
      next := next[keys[i] := ValueOf(answers[i])];
    }
    assert keys[..|keys|] == keys && answers[..|answers|] == answers;
  }

  /** Merging the answers for the missing keys only adds entries: every cached
      value is kept, and every requested key gets its answer (0 for a failure). */
  lemma MergeIsAppendOnly(needed: seq<string>, cache: Cache, answers: seq<Answer>)
    requires |answers| == |Jobs(needed, cache)|
    ensures var next := Merged(cache, Jobs(needed, cache), answers);
      && (forall k :: k in cache ==> k in next && next[k] == cache[k])
      && (forall i :: 0 <= i < |answers| ==> next[Jobs(needed, cache)[i]] == ValueOf(answers[i]))
  {
  }

  /** Once the answers are merged, the same rows need no further request: the
      effect that runs again on the new cache stops at once. */
  lemma MergeSettles(needed: seq<string>, cache: Cache, answers: seq<Answer>)
    requires |answers| == |Jobs(needed, cache)|
    ensures Jobs(needed, Merged(cache, Jobs(needed, cache), answers)) == []
  {
  }

  /** `monthLabel(val)`: the first seven characters ("YYYY-MM") of a truthy month. */
  function MonthLabel(month: Option<string>): (r: string)
    ensures !Truthy(month) ==> r == ""
    ensures Truthy(month) ==> StartsWith(month.value, r) && |r| == (if |month.value| < 7 then |month.value| else 7)
  {
    if Truthy(month) then Take(month.value, 7) else ""
  }

  /** `String(row?.month ?? "").slice(0, 4)`: the year part of a month. */
  function YearOf(month: Option<string>): (y: string)
    ensures |y| <= 4
  {
    Take(Coalesce(month, ""), 4)
  }

  /** `/^\d{4}$/.test(y)`. */
  predicate FourDigits(y: string) {
    |y| == 4 && AllDigits(y)
  }
}
