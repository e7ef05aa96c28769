/** The array operations the source uses (`map`, `filter`, `find`),
    as recursive functions over sequences with their defining properties. */
module Seqs {
  import opened Wrappers

  /** `s.map(f)`: same length, each element transformed in place. */
  function Map<T, U>(s: seq<T>, f: T -> U): (r: seq<U>)
    ensures |r| == |s|
    ensures forall i :: 0 <= i < |s| ==> r[i] == f(s[i])
  {
    if s == [] then [] else [f(s[0])] + Map(s[1..], f)
  }

  /** `s.filter(p)`: exactly the elements satisfying `p`. */
  function Filter<T>(s: seq<T>, p: T -> bool): (r: seq<T>)
    ensures |r| <= |s|
    ensures forall i :: 0 <= i < |r| ==> r[i] in s && p(r[i])
    ensures forall i :: 0 <= i < |s| && p(s[i]) ==> s[i] in r
  {
    if s == [] then []
    else (if p(s[0]) then [s[0]] else []) + Filter(s[1..], p)
  }

  /** Filtering distributes over concatenation, so the survivors keep their order. */
  lemma {:induction false} FilterAppend<T>(a: seq<T>, b: seq<T>, p: T -> bool)
    ensures Filter(a + b, p) == Filter(a, p) + Filter(b, p)
  {
    if a == [] {
      assert a + b == b;
    } else {
      assert (a + b)[1..] == a[1..] + b;
      FilterAppend(a[1..], b, p);
    }
  }

  /** A filter that keeps everything is the identity. */
  lemma {:induction false} FilterKeepsAll<T>(s: seq<T>, p: T -> bool)
    requires forall i :: 0 <= i < |s| ==> p(s[i])
    ensures Filter(s, p) == s
  {
    if s != [] {
      FilterKeepsAll(s[1..], p);
    }
  }

  /** `s.findIndex(p)`: the first index whose element satisfies `p`, if any. */
  function FindIndex<T>(s: seq<T>, p: T -> bool): (r: Option<nat>)
    ensures r.Some? ==> r.value < |s| && p(s[r.value])
    ensures r.Some? ==> forall j :: 0 <= j < r.value ==> !p(s[j])
    ensures r.None? <==> forall j :: 0 <= j < |s| ==> !p(s[j])
  {
    if s == [] then None
    else if p(s[0]) then Some(0)
    else match FindIndex(s[1..], p)
      case None => None
      case Some(k) => Some(k + 1)
  }

  /** `s.find(p)`: the first element satisfying `p`, if any. */
  function Find<T>(s: seq<T>, p: T -> bool): (r: Option<T>)
    ensures r.Some? ==> r.value in s && p(r.value)
    ensures r.None? <==> forall j :: 0 <= j < |s| ==> !p(s[j])
    ensures forall i :: 0 <= i < |s| && p(s[i]) && (forall j :: 0 <= j < i ==> !p(s[j])) ==> r == Some(s[i])
  {
    match FindIndex(s, p)
    case None => None
    case Some(i) => Some(s[i])
  }

  /** Finding in a non-empty sequence looks at its head first. */
  lemma FindCons<T>(x: T, t: seq<T>, q: T -> bool)
    ensures Find([x] + t, q) == if q(x) then Some(x) else Find(t, q)
  {
    assert ([x] + t)[1..] == t;
  }

  /** Finding among the elements a filter keeps is finding, in the whole
      sequence, the first element that passes both tests. */
  lemma {:induction false} FindInFilter<T>(s: seq<T>, p: T -> bool, q: T -> bool, pq: T -> bool)
    requires forall i :: 0 <= i < |s| ==> pq(s[i]) == (p(s[i]) && q(s[i]))
    ensures Find(Filter(s, p), q) == Find(s, pq)
  {
    if s != [] {
      var t := s[1..];
      assert forall i :: 0 <= i < |t| ==> pq(t[i]) == (p(t[i]) && q(t[i])) by {
        forall i | 0 <= i < |t| ensures pq(t[i]) == (p(t[i]) && q(t[i])) {
          assert t[i] == s[i + 1];
        }
      }
      FindInFilter(t, p, q, pq);
      var ft := Filter(t, p);
      assert s == [s[0]] + t;
      FindCons(s[0], t, pq);
      if p(s[0]) {
        assert Filter(s, p) == [s[0]] + ft;
        FindCons(s[0], ft, q);
      } else {
        assert Filter(s, p) == ft;
      }
    }
  }
}
