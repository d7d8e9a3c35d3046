/** Pure counterparts of the JavaScript array built-ins that the stores call:
    `filter`, `some` and `slice(0, end)`, with the laws the stores rely on. */
module Arrays {

  /** `s.filter(keep)`: exactly the elements of `s` that satisfy `keep`, in their order. */
  function Filter<T>(s: seq<T>, keep: T -> bool): (r: seq<T>)
    ensures |r| <= |s|
    ensures forall i :: 0 <= i < |r| ==> r[i] in s && keep(r[i])
    ensures forall i :: 0 <= i < |s| && keep(s[i]) ==> s[i] in r
  {
    if s == [] then []
    else if keep(s[0]) then [s[0]] + Filter(s[1..], keep)
    else Filter(s[1..], keep)
  }

  /** `s.some(p)`: whether some element satisfies `p`. */
  function Any<T>(s: seq<T>, p: T -> bool): (b: bool)
    ensures b <==> exists i :: 0 <= i < |s| && p(s[i])
  {
    if s == [] then false
    else if p(s[0]) then true
    else
      assert forall i :: 1 <= i < |s| ==> s[i] == s[1..][i - 1];
      Any(s[1..], p)
  }

  /** `s.slice(0, end)`: a prefix of `s`; a negative `end` counts back from the length,
      and an `end` past the length takes everything. */
  function SliceTo<T>(s: seq<T>, end: int): (r: seq<T>)
    ensures r <= s
    ensures 0 <= end ==> |r| == (if end < |s| then end else |s|)
    ensures end < 0 ==> |r| == (if |s| + end > 0 then |s| + end else 0)
  {
    var stop :=
      if end < 0 then (if |s| + end > 0 then |s| + end else 0)
      else if end < |s| then end
      else |s|;
    s[..stop]
  }

  /** No two elements of `s` share a key. */
  ghost predicate UniqueBy<T, K>(s: seq<T>, key: T -> K) {
    forall i, j :: 0 <= i < j < |s| ==> key(s[i]) != key(s[j])
  }

  /** Filtering is done piecewise, so it keeps the relative order of what it keeps. */
  lemma {:induction false} FilterConcat<T>(s: seq<T>, t: seq<T>, keep: T -> bool)
    ensures Filter(s + t, keep) == Filter(s, keep) + Filter(t, keep)
  {
    if s == [] {
      assert s + t == t;
    } else {
      assert (s + t)[1..] == s[1..] + t;
      FilterConcat(s[1..], t, keep);
    }
  }

  /** Filtering removes nothing when every element is kept. */
  lemma {:induction false} FilterAllKept<T>(s: seq<T>, keep: T -> bool)
    requires forall i :: 0 <= i < |s| ==> keep(s[i])
    ensures Filter(s, keep) == s
  {
    if s != [] {
      FilterAllKept(s[1..], keep);
    }
  }

  /** What a filter keeps is a subsequence, so distinct keys stay distinct. */
  lemma {:induction false} FilterPreservesUnique<T, K>(s: seq<T>, keep: T -> bool, key: T -> K)
    requires UniqueBy(s, key)
    ensures UniqueBy(Filter(s, keep), key)
  {
    if s != [] {
      var rest := Filter(s[1..], keep);
      FilterPreservesUnique(s[1..], keep, key);
      if keep(s[0]) {
        forall j | 0 <= j < |rest|
          ensures key(s[0]) != key(rest[j])
        {
          assert rest[j] in s[1..];
          var m :| 0 <= m < |s[1..]| && s[1..][m] == rest[j];
          assert s[m + 1] == rest[j];
        }
        var r := [s[0]] + rest;
        forall i, j | 0 <= i < j < |r|
          ensures key(r[i]) != key(r[j])
        {
          if i > 0 {
            assert r[i] == rest[i - 1] && r[j] == rest[j - 1];
          }
        }
      }
    }
  }
}
