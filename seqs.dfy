/** The array operations the dashboards use: `filter`, `some` and `slice`. */
module Seqs {

  /** `s.filter(p)`: the elements of `s` that satisfy `p`, in their order. */
  function Filter<T>(s: seq<T>, p: T -> bool): (r: seq<T>)
    ensures |r| <= |s|
    ensures forall i :: 0 <= i < |r| ==> r[i] in s && p(r[i])
    ensures forall i :: 0 <= i < |s| && p(s[i]) ==> s[i] in r
    ensures |r| == |s| <==> forall i :: 0 <= i < |s| ==> p(s[i])
    ensures |r| == 0 <==> forall i :: 0 <= i < |s| ==> !p(s[i])
  {
    if s == [] then []
    else if p(s[0]) then [s[0]] + Filter(s[1..], p)
    else Filter(s[1..], p)
  }

  /** Filtering distributes over concatenation: together with the single-element
      case this says that `Filter` keeps the selected elements in input order. */
  lemma {:induction false} FilterConcat<T>(a: seq<T>, b: seq<T>, p: T -> bool)
    ensures Filter(a + b, p) == Filter(a, p) + Filter(b, p)
  {
    if a == [] {
      assert a + b == b;
    } else {
      assert (a + b)[1..] == a[1..] + b;
      FilterConcat(a[1..], b, p);
    }
  }

  /** A block with no selected element can be dropped before filtering. */
  lemma FilterSkip<T>(a: seq<T>, b: seq<T>, c: seq<T>, p: T -> bool)
    requires Filter(b, p) == []
    ensures Filter(a + b + c, p) == Filter(a + c, p)
  {
    FilterConcat(a + b, c, p);
    FilterConcat(a, b, p);
    FilterConcat(a, c, p);
    assert Filter(a, p) + [] == Filter(a, p);
  }

  /** `s.some(p)`: whether some element of `s` satisfies `p`. */
  function Any<T>(s: seq<T>, p: T -> bool): (b: bool)
    ensures b <==> exists i :: 0 <= i < |s| && p(s[i])
  {
    if s == [] then false
    else p(s[0]) || Any(s[1..], p)
  }

  /** `s.slice(0, n)`: the first `n` elements, or all of `s` when it is shorter. */
  function Take<T>(s: seq<T>, n: nat): (r: seq<T>)
    ensures |r| == if |s| < n then |s| else n
    ensures s == r + s[|r|..]
  {
    if |s| < n then s else s[..n]
  }
}
