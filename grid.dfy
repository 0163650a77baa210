/** Background grid: one `line` element per tick of a scale, joined to the
    tick list. The tick lists come from d3's tick generators and are inputs
    here. */
module Grid {
  import opened Layout
  import opened Dataset
  import opened Scales

  /** Horizontal grid: each tick becomes a line across the full plot width
      at the tick's pixel height. */
  function YGrid(ys: Linear, ticks: seq<real>): (lines: seq<Segment>)
    requires ys.Valid()
    ensures |lines| == |ticks|
    ensures forall i :: 0 <= i < |ticks| ==>
      lines[i].x1 == 0.0 && lines[i].x2 == Width as real &&
      lines[i].y1 == lines[i].y2 == ys.Apply(ticks[i])
  {
    if ticks == [] then []
    else
      var y := ys.Apply(ticks[|ticks| - 1]);
      YGrid(ys, ticks[..|ticks| - 1]) + [Segment(0.0, y, Width as real, y)]
  }

  /** Vertical grid: each date tick becomes a line across the full plot
      height at the tick's pixel column. */
  function XGrid(xs: Linear, ticks: seq<int>): (lines: seq<Segment>)
    requires xs.Valid()
    ensures |lines| == |ticks|
    ensures forall i :: 0 <= i < |ticks| ==>
      lines[i].y1 == 0.0 && lines[i].y2 == Height as real &&
      lines[i].x1 == lines[i].x2 == xs.Apply(ticks[i] as real)
  {
    if ticks == [] then []
    else
      var x := xs.Apply(ticks[|ticks| - 1] as real);
      XGrid(xs, ticks[..|ticks| - 1]) + [Segment(x, 0.0, x, Height as real)]
  }

  /** Ticks inside [0, niceTop] give horizontal lines inside the plot, and
      ascending ticks give lines that climb the plot. */
  lemma YGridInPlot(niceTop: real, ticks: seq<real>)
    requires niceTop > 0.0
    requires forall i :: 0 <= i < |ticks| ==> 0.0 <= ticks[i] <= niceTop
    ensures forall i :: 0 <= i < |ticks| ==>
      0.0 <= YGrid(YGridScale(niceTop), ticks)[i].y1 <= Height as real
    ensures forall i, j :: 0 <= i < j < |ticks| && ticks[i] < ticks[j] ==>
      YGrid(YGridScale(niceTop), ticks)[j].y1 < YGrid(YGridScale(niceTop), ticks)[i].y1
  {
    var s := YGridScale(niceTop);
    forall i | 0 <= i < |ticks|
      ensures 0.0 <= YGrid(s, ticks)[i].y1 <= Height as real
    {
      ApplyInRange(s, ticks[i]);
    }
    forall i, j | 0 <= i < j < |ticks| && ticks[i] < ticks[j]
      ensures YGrid(s, ticks)[j].y1 < YGrid(s, ticks)[i].y1
    {
      ApplyMonotone(s, ticks[i], ticks[j]);
    }
  }

  /** Date ticks inside the date extent give vertical lines inside the plot,
      and later ticks lie further right. */
  lemma XGridInPlot(data: seq<Sample>, ticks: seq<int>)
    requires |data| > 0 && MinDate(data) < MaxDate(data)
    requires forall i :: 0 <= i < |ticks| ==>
      MinDate(data) <= ticks[i] <= MaxDate(data)
    ensures forall i :: 0 <= i < |ticks| ==>
      0.0 <= XGrid(XScale(data), ticks)[i].x1 <= Width as real
    ensures forall i, j :: 0 <= i < j < |ticks| && ticks[i] < ticks[j] ==>
      XGrid(XScale(data), ticks)[i].x1 < XGrid(XScale(data), ticks)[j].x1
  {
    var s := XScale(data);
    forall i | 0 <= i < |ticks|
      ensures 0.0 <= XGrid(s, ticks)[i].x1 <= Width as real
    {
      ApplyInRange(s, ticks[i] as real);
    }
    forall i, j | 0 <= i < j < |ticks| && ticks[i] < ticks[j]
      ensures XGrid(s, ticks)[i].x1 < XGrid(s, ticks)[j].x1
    {
      ApplyMonotone(s, ticks[i] as real, ticks[j] as real);
    }
  }
}
