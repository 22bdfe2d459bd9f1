/** Finite sets of consecutive integers, as the stage and step index sets grow. */
module IntSets {

  /** The integers lo..hi-1. */
  function Interval(lo: int, hi: int): (r: set<int>)
    ensures forall x :: x in r <==> lo <= x < hi
    decreases hi - lo
  {
    if hi <= lo then {} else Interval(lo, hi - 1) + {hi - 1}
  }

  lemma {:induction false} IntervalSize(lo: int, hi: int)
    requires lo <= hi
    ensures |Interval(lo, hi)| == hi - lo
    decreases hi - lo
  {
    if lo < hi {
      IntervalSize(lo, hi - 1);
      assert hi - 1 !in Interval(lo, hi - 1);
    }
  }

  /** A set of indices below `n` has `n` elements exactly when it holds every index below `n`. */
  lemma {:induction false} FullIffAll(s: set<int>, n: nat)
    requires forall x :: x in s ==> 0 <= x < n
    ensures |s| == n <==> s == Interval(0, n)
  {
    IntervalSize(0, n);
    var all := Interval(0, n);
    assert s <= all;
    if s != all {
      var missing :| missing in all && missing !in s;
      assert all == s + (all - s);
      assert missing in all - s;
    }
  }
}
