/** The nearest-sample lookup of the mouse-move handler: a left bisection
    over the dates started at index 1, then a choice between the samples on
    either side of the insertion point. */
module Locator {
  import opened Optional
  import opened Dataset

  /** Reference definition of `d3.bisector(d => d.date).left(a, x, lo)`:
      the first index at or after `lo` whose date is not before `x`, or
      `|a|` when there is none; an `lo` past the end is returned unchanged. */
  function LeftIndex(a: seq<Sample>, x: int, lo: nat): (i: nat)
    ensures lo <= i
    ensures lo <= |a| ==> i <= |a|
    ensures lo >= |a| ==> i == lo
    ensures forall k :: lo <= k < i ==> a[k].date < x
    ensures i < |a| ==> x <= a[i].date
    decreases |a| - lo
  {
    if lo >= |a| then lo
    else if a[lo].date < x then LeftIndex(a, x, lo + 1)
    else lo
  }

  /** On sorted data every sample from the insertion point on is not before
      `x`, so `LeftIndex` splits the data into "before x" and "not before x". */
  lemma LeftIndexSplits(a: seq<Sample>, x: int, lo: nat)
    requires Sorted(a) && lo <= |a|
    ensures forall k :: LeftIndex(a, x, lo) <= k < |a| ==> x <= a[k].date
  {
  }

  /** `LeftIndex` is the only index that has everything from `lo` up to it
      before `x` and the sample at it (if any) not before `x`. */
  lemma {:induction false} LeftIndexUnique(a: seq<Sample>, x: int, lo: nat, j: nat)
    requires lo <= j <= |a|
    requires forall k :: lo <= k < j ==> a[k].date < x
    requires j < |a| ==> x <= a[j].date
    ensures LeftIndex(a, x, lo) == j
    decreases j - lo
  {
    if lo < j {
      LeftIndexUnique(a, x, lo + 1, j);
    }
  }

  /** The binary search d3's bisector performs: halve [lo, hi) until empty,
      moving `lo` past every midpoint whose date is before `x`. */
  method BisectLeft(a: seq<Sample>, x: int, lo0: nat) returns (i: nat)
    requires Sorted(a)
    ensures i == LeftIndex(a, x, lo0)
  {
    var lo, hi := lo0, |a|;
    if lo < hi {
      while lo < hi
        invariant lo0 <= lo <= hi <= |a|
        invariant forall k :: lo0 <= k < lo ==> a[k].date < x
        invariant forall k :: hi <= k < |a| ==> x <= a[k].date
        decreases hi - lo
      {
        var mid := (lo + hi) / 2;
        if a[mid].date < x {
          lo := mid + 1;
        } else {
          hi := mid;
        }
      }
    }
    if lo0 <= |a| {
      LeftIndexUnique(a, x, lo0, lo);
    }
    i := lo;
  }

  /** `x0 - d0.date > d1.date - x0 ? d1 : d0`: the later candidate only when
      it is strictly closer; a tie keeps the earlier one. */
  function Pick(d0: Sample, d1: Sample, x0: int): (d: Sample)
    ensures d == d0 || d == d1
    ensures d0.date <= x0 <= d1.date ==>
      Abs(d.date - x0) <= Abs(d0.date - x0) && Abs(d.date - x0) <= Abs(d1.date - x0)
    ensures x0 - d0.date == d1.date - x0 ==> d == d0
  {
    if x0 - d0.date > d1.date - x0 then d1 else d0
  }

  /** The sample the handler snaps to for query time `x0`, or `None` when
      `data[i - 1]` or `data[i]` is `undefined` and reading its date throws. */
  function Nearest(data: seq<Sample>, x0: int): (r: Option<Sample>)
    ensures |data| < 2 ==> r.None?
    ensures r.Some? ==> r.value in data
  {
    var i := LeftIndex(data, x0, 1);
    if i >= |data| then None
    else Some(Pick(data[i - 1], data[i], x0))
  }

  function Abs(v: int): (r: nat)
  {
    if v < 0 then -v else v
  }

  /** The handler succeeds exactly when there are two samples and the query
      is not after the last date. */
  lemma NearestDefinedIff(data: seq<Sample>, x0: int)
    requires Sorted(data)
    ensures Nearest(data, x0).Some? <==> |data| >= 2 && x0 <= data[|data| - 1].date
  {
    var i := LeftIndex(data, x0, 1);
    if |data| >= 2 {
      LeftIndexSplits(data, x0, 1);
    }
  }

  /** The snapped sample is one of the data set's samples and no sample is
      closer to the query time. */
  lemma NearestIsClosest(data: seq<Sample>, x0: int)
    requires Sorted(data) && Nearest(data, x0).Some?
    ensures Nearest(data, x0).value in data
    ensures forall k :: 0 <= k < |data| ==>
      Abs(Nearest(data, x0).value.date - x0) <= Abs(data[k].date - x0)
  {
    var i := LeftIndex(data, x0, 1);
    LeftIndexSplits(data, x0, 1);
    var d0, d1 := data[i - 1], data[i];
    var r := Nearest(data, x0).value;
    forall k | 0 <= k < |data|
      ensures Abs(r.date - x0) <= Abs(data[k].date - x0)
    {
      if k < i {
        assert data[k].date <= d0.date;
        if d0.date > x0 {
          assert i == 1 && k == 0;
        }
      } else {
        assert d1.date <= data[k].date;
      }
    }
  }

  /** Ties go to the earlier date: every sample dated strictly before the
      snapped one is strictly farther from the query time. */
  lemma NearestPrefersEarlier(data: seq<Sample>, x0: int)
    requires Sorted(data) && Nearest(data, x0).Some?
    ensures forall k :: 0 <= k < |data| && data[k].date < Nearest(data, x0).value.date ==>
      Abs(Nearest(data, x0).value.date - x0) < Abs(data[k].date - x0)
  {
    var i := LeftIndex(data, x0, 1);
    LeftIndexSplits(data, x0, 1);
    var d0, d1 := data[i - 1], data[i];
    var r := Nearest(data, x0).value;
    forall k | 0 <= k < |data| && data[k].date < r.date
      ensures Abs(r.date - x0) < Abs(data[k].date - x0)
    {
      assert k < i;
      assert data[k].date <= d0.date;
    }
  }

  /** Three samples at t = 0, 10, 20 and a query at 7: the sample at 10 is
      closer (3 < 7) and is chosen. */
  lemma ChoosesCloserLater()
    ensures Nearest([Sample(0, 1.0), Sample(10, 5.0), Sample(20, 3.0)], 7) == Some(Sample(10, 5.0))
  {
    var data := [Sample(0, 1.0), Sample(10, 5.0), Sample(20, 3.0)];
    assert LeftIndex(data, 7, 2) == 2;
  }

  /** A query half-way between two samples snaps to the earlier one. */
  lemma TieChoosesEarlier()
    ensures Nearest([Sample(0, 1.0), Sample(10, 5.0)], 5) == Some(Sample(0, 1.0))
  {
    var data := [Sample(0, 1.0), Sample(10, 5.0)];
    assert LeftIndex(data, 5, 2) == 2;
  }

  /** A query after the last date makes the handler throw. */
  lemma PastLastThrows()
    ensures Nearest([Sample(0, 1.0), Sample(10, 5.0)], 11) == None
  {
    var data := [Sample(0, 1.0), Sample(10, 5.0)];
    assert LeftIndex(data, 11, 2) == 2;
  }
}
