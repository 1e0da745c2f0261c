/** Sizes of sets of integers. */
module Sets {

  function Interval(lo: int, hi: int): (s: set<int>)
    requires lo <= hi
    ensures |s| == hi - lo
    ensures forall x :: x in s <==> lo <= x < hi
    decreases hi - lo
  {
    if lo == hi then {} else {lo} + Interval(lo + 1, hi)
  }

  lemma SubsetSize(a: set<int>, b: set<int>)
    requires a <= b
    ensures |a| <= |b|
  {
    assert a + (b - a) == b;
  }

  lemma {:induction false} DistinctSize(xs: seq<int>)
    requires forall i, j :: 0 <= i < j < |xs| ==> xs[i] != xs[j]
    ensures |set x | x in xs| == |xs|
  {
    if |xs| > 0 {
      var rest := xs[1..];
      DistinctSize(rest);
      assert (set x | x in xs) == {xs[0]} + (set x | x in rest);
    }
  }

  lemma DistinctInInterval(xs: seq<int>, lo: int, hi: int, gap: int)
    requires forall i, j :: 0 <= i < j < |xs| ==> xs[i] != xs[j]
    requires forall x :: x in xs ==> lo <= x < hi && x != gap
    requires lo <= gap < hi
    ensures |xs| < hi - lo
  {
    DistinctSize(xs);
    var s := set x | x in xs;
    SubsetSize(s, Interval(lo, hi) - {gap});
    assert |Interval(lo, hi) - {gap}| == hi - lo - 1;
  }

  lemma {:induction false} ElementsAtMost(xs: seq<int>)
    ensures |set x | x in xs| <= |xs|
  {
    if |xs| > 0 {
      var rest := xs[1..];
      ElementsAtMost(rest);
      assert (set x | x in xs) == {xs[0]} + (set x | x in rest);
    }
  }

  /** A list shorter than an interval misses one of its numbers. */
  lemma SomeMissing(xs: seq<int>, hi: nat) returns (x: int)
    requires |xs| < hi
    ensures 0 <= x < hi && x !in xs
  {
    var s := set y | y in xs;
    ElementsAtMost(xs);
    if Interval(0, hi) <= s {
      SubsetSize(Interval(0, hi), s);
      x := 0;
    } else {
      x :| x in Interval(0, hi) && x !in s;
    }
  }
}
