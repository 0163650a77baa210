/** The loaded data set: one sample per CSV row, after the date has been
    parsed into a time value and the value coerced to a number. */
module Dataset {

  /** A sample; `date` is the Date's time value in epoch milliseconds. */
  datatype Sample = Sample(date: int, value: real)

  /** The rows are in non-decreasing date order, which the bisection needs. */
  ghost predicate Sorted(data: seq<Sample>)
  {
    forall i, j :: 0 <= i <= j < |data| ==> data[i].date <= data[j].date
  }

  /** First component of `d3.extent` over the dates: a left-to-right scan
      that keeps the smallest date seen so far. */
  function MinDate(data: seq<Sample>): (m: int)
    requires |data| > 0
    ensures exists k :: 0 <= k < |data| && data[k].date == m
    ensures forall k :: 0 <= k < |data| ==> m <= data[k].date
  {
    if |data| == 1 then data[0].date
    else
      var m0 := MinDate(data[..|data| - 1]);
      var last := data[|data| - 1].date;
      if m0 > last then last else m0
  }

  /** Second component of `d3.extent` over the dates. */
  function MaxDate(data: seq<Sample>): (m: int)
    requires |data| > 0
    ensures exists k :: 0 <= k < |data| && data[k].date == m
    ensures forall k :: 0 <= k < |data| ==> data[k].date <= m
  {
    if |data| == 1 then data[0].date
    else
      var m0 := MaxDate(data[..|data| - 1]);
      var last := data[|data| - 1].date;
      if m0 < last then last else m0
  }

  /** `d3.max` over the values. */
  function MaxValue(data: seq<Sample>): (m: real)
    requires |data| > 0
    ensures exists k :: 0 <= k < |data| && data[k].value == m
    ensures forall k :: 0 <= k < |data| ==> data[k].value <= m
  {
    if |data| == 1 then data[0].value
    else
      var m0 := MaxValue(data[..|data| - 1]);
      var last := data[|data| - 1].value;
      if m0 < last then last else m0
  }

  /** On date-ordered data the extent is simply the first and last dates. */
  lemma SortedExtent(data: seq<Sample>)
    requires |data| > 0 && Sorted(data)
    ensures MinDate(data) == data[0].date
    ensures MaxDate(data) == data[|data| - 1].date
  {
  }

  /** A time extent of positive length needs two samples with distinct dates. */
  lemma ProperExtentNeedsTwo(data: seq<Sample>)
    requires |data| > 0 && MinDate(data) < MaxDate(data)
    ensures |data| >= 2
  {
  }
}
