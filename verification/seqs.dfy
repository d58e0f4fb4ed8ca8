/** `Array.prototype.filter` and `findIndex` / `find`, the two list primitives the store is built on. */
module Seqs {
  import opened Wrappers

  /**
   * `s.filter(p)`: the elements satisfying `p`. How often each is kept is stated by
   * `FilterMultiset`, and that their order is kept by `FilterAppend`.
   */
  function Filter<T(!new)>(s: seq<T>, p: T -> bool): (r: seq<T>)
    ensures |r| <= |s|
    ensures forall i :: 0 <= i < |r| ==> r[i] in s && p(r[i])
    ensures forall i :: 0 <= i < |s| && p(s[i]) ==> s[i] in r
  {
    if s == [] then [] else (if p(s[0]) then [s[0]] else []) + Filter(s[1..], p)
  }

  /** `filter` keeps each passing element exactly as often as it occurs, and no other. */
  lemma {:induction false} FilterMultiset<T(!new)>(s: seq<T>, p: T -> bool)
    ensures forall x :: multiset(Filter(s, p))[x] == if p(x) then multiset(s)[x] else 0
  {
    if s != [] {
      FilterMultiset(s[1..], p);
      assert s == [s[0]] + s[1..];
      FilterCons(s[0], s[1..], p);
    }
  }

  /** Filtering a list whose every element passes returns it unchanged. */
  lemma {:induction false} FilterKeepsAll<T(!new)>(s: seq<T>, p: T -> bool)
    requires forall i :: 0 <= i < |s| ==> p(s[i])
    ensures Filter(s, p) == s
  {
    if s != [] {
      FilterKeepsAll(s[1..], p);
    }
  }

  /** Filtering twice by the same predicate is filtering once. */
  lemma FilterIdempotent<T(!new)>(s: seq<T>, p: T -> bool)
    ensures Filter(Filter(s, p), p) == Filter(s, p)
  {
    FilterKeepsAll(Filter(s, p), p);
  }

  /** Filtering a list with a given first element: that element's verdict, then the rest's. */
  lemma FilterCons<T(!new)>(x: T, rest: seq<T>, p: T -> bool)
    ensures Filter([x] + rest, p) == (if p(x) then [x] else []) + Filter(rest, p)
  {
    var s := [x] + rest;
    assert s[0] == x && s[1..] == rest;
  }

  /** Filter distributes over concatenation, so it keeps the relative order of survivors. */
  lemma {:induction false} FilterAppend<T(!new)>(a: seq<T>, b: seq<T>, p: T -> bool)
    ensures Filter(a + b, p) == Filter(a, p) + Filter(b, p)
  {
    if a == [] {
      assert a + b == b;
    } else {
      var x, rest := a[0], a[1..];
      var head := if p(x) then [x] else [];
      assert a == [x] + rest;
      assert a + b == [x] + (rest + b);
      FilterCons(x, rest + b, p);
      FilterCons(x, rest, p);
      FilterAppend(rest, b, p);
      assert head + (Filter(rest, p) + Filter(b, p)) == (head + Filter(rest, p)) + Filter(b, p);
    }
  }

  /** `s.findIndex(p)`, with `None` for `-1`. */
  function FirstIndex<T>(s: seq<T>, p: T -> bool): (r: Option<nat>)
    ensures r.Some? ==> r.value < |s| && p(s[r.value])
    ensures r.Some? ==> forall j :: 0 <= j < r.value ==> !p(s[j])
    ensures r.None? <==> forall j :: 0 <= j < |s| ==> !p(s[j])
  {
    if s == [] then None
    else if p(s[0]) then Some(0)
    else match FirstIndex(s[1..], p)
      case None => None
      case Some(k) => Some(k + 1)
  }

  /** `s.find(p)`, with `None` for `undefined`. */
  function Find<T>(s: seq<T>, p: T -> bool): (r: Option<T>)
    ensures r.Some? ==> r.value in s && p(r.value)
    ensures r.Some? ==> exists i :: 0 <= i < |s| && s[i] == r.value && forall j :: 0 <= j < i ==> !p(s[j])
    ensures r.None? <==> forall j :: 0 <= j < |s| ==> !p(s[j])
  {
    match FirstIndex(s, p)
    case None => None
    case Some(i) => Some(s[i])
  }

  /** Appending an element no earlier element matches: `find` now returns that element. */
  lemma FindAfterAppend<T>(s: seq<T>, x: T, p: T -> bool)
    requires Find(s, p).None? && p(x)
    ensures Find(s + [x], p) == Some(x)
  {
    var t := s + [x];
    assert p(t[|s|]);
    forall j | 0 <= j < |s|
      ensures !p(t[j])
    {
      assert t[j] == s[j];
    }
  }
}
