/** Sequences and finite sets of numbers. */
module Sets {
  function Range(lo: int, hi: int): (r: set<int>)
    ensures forall b :: b in r <==> lo <= b < hi
    ensures |r| == if lo < hi then hi - lo else 0
    decreases hi - lo
  {
    if lo < hi then {hi - 1} + Range(lo, hi - 1) else {}
  }

  lemma SubsetSize<T>(a: set<T>, b: set<T>)
    requires a <= b
    ensures |a| <= |b|
    ensures |a| == |b| ==> a == b
  {
    assert b == a + (b - a);
  }

  predicate Distinct(s: seq<int>) {
    forall i, j :: 0 <= i < j < |s| ==> s[i] != s[j]
  }

  function Elements(s: seq<int>): (r: set<int>)
  {
    set x | x in s
  }

  lemma {:induction false} ElementsSize(s: seq<int>)
    requires Distinct(s)
    ensures |Elements(s)| == |s|
  {
    if s != [] {
      var t := s[..|s| - 1];
      ElementsSize(t);
      assert Elements(s) == Elements(t) + {s[|s| - 1]};
    }
  }

  /** Distinct numbers in a range that miss one of them do not fill it. */
  lemma MissingOne(s: seq<int>, n: nat, b: int)
    requires Distinct(s) && 0 <= b < n && b !in s
    requires forall i :: 0 <= i < |s| ==> 0 <= s[i] < n
    ensures |s| < n
  {
    ElementsSize(s);
    SubsetSize(Elements(s) + {b}, Range(0, n));
  }

  /** Position of `b` in `s`, or |s| if it is not there. */
  function IndexOf(s: seq<int>, b: int): (r: nat)
    ensures r <= |s|
    ensures r < |s| ==> s[r] == b
    ensures forall k :: 0 <= k < r ==> s[k] != b
  {
    if s == [] then 0 else if s[0] == b then 0 else 1 + IndexOf(s[1..], b)
  }
}
