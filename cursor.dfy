/** The mouse-move handler and the overlay it draws: a marker circle on the
    nearest sample, a dashed vertical and horizontal guide through it, and
    two tooltips with the sample's value and date. */
module Cursor {
  import opened Optional
  import opened Layout
  import opened Dataset
  import opened Scales
  import opened Locator

  /** A fixed-position tooltip: its CSS `left` and `top`, and what it shows. */
  datatype Label<T> = Label(left: real, top: real, content: T)

  /** Everything the handler writes: circle centre and radius, the two guide
      lines and whether they are displayed, the value and date tooltips.
      `None` is an attribute or contents not yet set. */
  datatype Overlay = Overlay(
    marker: Option<Point>,
    radius: real,
    guideX: Option<Segment>,
    guideY: Option<Segment>,
    guidesShown: bool,
    valueTip: Option<Label<real>>,
    dateTip: Option<Label<int>>)

  /** The overlay as built before any event: a circle of radius 0, guide
      lines and tooltips with nothing set. */
  function Hidden(): (o: Overlay)
    ensures !Shown(o) && o.radius == 0.0
    ensures o.marker.None? && o.valueTip.None? && o.dateTip.None?
  {
    Overlay(None, 0.0, None, None, false, None, None)
  }

  predicate Shown(o: Overlay)
  {
    o.radius == 5.0 && o.guidesShown
  }

  /** The overlay drawn for sample `d`: both guides and both tooltips are
      placed relative to the marker. */
  function Frame(xs: Linear, ys: Linear, d: Sample): (o: Overlay)
    requires xs.Valid() && ys.Valid()
    ensures Shown(o) && o.marker.Some?
    ensures o.guideX == Some(Segment(o.marker.value.x, 0.0, o.marker.value.x, Height as real))
    ensures o.guideY == Some(Segment(0.0, o.marker.value.y, Width as real, o.marker.value.y))
    ensures o.valueTip == Some(Label(Width as real + 90.0, o.marker.value.y + 20.0, d.value))
    ensures o.dateTip == Some(Label(o.marker.value.x + 60.0, Height as real + 53.0, d.date))
  {
    var xPos := xs.Apply(d.date as real);
    var yPos := ys.Apply(d.value);
    Overlay(
      Some(Point(xPos, yPos)),
      5.0,
      Some(Segment(xPos, 0.0, xPos, Height as real)),
      Some(Segment(0.0, yPos, Width as real, yPos)),
      true,
      Some(Label(Width as real + 90.0, yPos + 20.0, d.value)),
      Some(Label(xPos + 60.0, Height as real + 53.0, d.date)))
  }

  /** The overlay after a move to pointer column `px`, or `None` when the
      handler throws before touching the overlay. */
  function Moved(data: seq<Sample>, xs: Linear, ys: Linear, px: real): (r: Option<Overlay>)
    requires xs.Valid() && ys.Valid()
    ensures |data| < 2 ==> r.None?
    ensures r.Some? ==> exists k :: 0 <= k < |data| && r.value == Frame(xs, ys, data[k])
  {
    match Nearest(data, TimeInvert(xs, px))
    case None => None
    case Some(d) => Some(Frame(xs, ys, d))
  }

  /** One mouse-move event: the new overlay, or the old one if the handler threw. */
  function Step(o: Overlay, data: seq<Sample>, xs: Linear, ys: Linear, px: real): (r: Overlay)
    requires xs.Valid() && ys.Valid()
    ensures |data| < 2 ==> r == o
    ensures r == o || exists k :: 0 <= k < |data| && r == Frame(xs, ys, data[k])
  {
    match Moved(data, xs, ys, px)
    case None => o
    case Some(n) => n
  }

  /** A sequence of mouse-move events, in order. There is no mouse-leave
      handler, so moves are the only events that change the overlay: the
      result is the starting overlay or the frame of some sample, and once
      shown the overlay is never hidden again. */
  function Replay(o: Overlay, data: seq<Sample>, xs: Linear, ys: Linear, pxs: seq<real>): (r: Overlay)
    requires xs.Valid() && ys.Valid()
    ensures Shown(o) ==> Shown(r)
    ensures r == o || exists k :: 0 <= k < |data| && r == Frame(xs, ys, data[k])
    decreases |pxs|
  {
    if pxs == [] then o
    else Replay(Step(o, data, xs, ys, pxs[0]), data, xs, ys, pxs[1..])
  }

  /** The drawn overlay marks the sample: the marker's column inverts back to
      the sample's date and its height back to the sample's value. */
  lemma FrameMarksSample(xs: Linear, ys: Linear, d: Sample)
    requires xs.Valid() && ys.Valid()
    ensures var o := Frame(xs, ys, d);
      TimeInvert(xs, o.marker.value.x) == d.date && ys.Invert(o.marker.value.y) == d.value
  {
    InvertApply(xs, d.date as real);
    InvertApply(ys, d.value);
  }

  /** Every column of the plot has a nearest sample: the lookup for its
      time does not throw, and no sample is closer than the one it picks. */
  lemma ColumnHasNearest(data: seq<Sample>, px: real)
    requires |data| > 0 && Sorted(data) && MinDate(data) < MaxDate(data)
    requires 0.0 <= px <= Width as real
    ensures XScale(data).Valid()
    ensures var x0 := TimeInvert(XScale(data), px);
      Nearest(data, x0).Some? &&
      MinDate(data) <= Nearest(data, x0).value.date <= MaxDate(data) &&
      forall k :: 0 <= k < |data| ==>
        Abs(Nearest(data, x0).value.date - x0) <= Abs(data[k].date - x0)
  {
    var x0 := TimeInvert(XScale(data), px);
    PlotColumnInExtent(data, px);
    SortedExtent(data);
    ProperExtentNeedsTwo(data);
    NearestDefinedIff(data, x0);
    NearestIsClosest(data, x0);
  }

  /** A move anywhere over the plot never throws: the overlay becomes the
      frame of a sample nearest the pointer's time, and the marker lies
      inside the plot's width. */
  lemma MoveOverPlot(data: seq<Sample>, px: real)
    requires |data| > 0 && Sorted(data)
    requires MinDate(data) < MaxDate(data) && MaxValue(data) != 0.0
    requires 0.0 <= px <= Width as real
    ensures XScale(data).Valid() && YScale(data).Valid()
    ensures Moved(data, XScale(data), YScale(data), px).Some?
    ensures var x0 := TimeInvert(XScale(data), px);
      Nearest(data, x0).Some? &&
      var d := Nearest(data, x0).value;
      Moved(data, XScale(data), YScale(data), px).value == Frame(XScale(data), YScale(data), d) &&
      (forall k :: 0 <= k < |data| ==> Abs(d.date - x0) <= Abs(data[k].date - x0))
    ensures var o := Moved(data, XScale(data), YScale(data), px).value;
      0.0 <= o.marker.value.x <= Width as real
  {
    var xs, ys := XScale(data), YScale(data);
    var x0 := TimeInvert(xs, px);
    ColumnHasNearest(data, px);
    var d := Nearest(data, x0).value;
    assert Moved(data, xs, ys, px) == Some(Frame(xs, ys, d));
    ApplyInRange(xs, d.date as real);
  }

  /** Starting from the initial overlay, it is shown after a run of moves
      exactly when one of them did not throw. */
  lemma {:induction false} ReplayShownIff(o: Overlay, data: seq<Sample>, xs: Linear, ys: Linear, pxs: seq<real>)
    requires xs.Valid() && ys.Valid() && !Shown(o)
    ensures Shown(Replay(o, data, xs, ys, pxs)) <==>
      exists j :: 0 <= j < |pxs| && Moved(data, xs, ys, pxs[j]).Some?
    decreases |pxs|
  {
    if pxs != [] {
      var o' := Step(o, data, xs, ys, pxs[0]);
      if Moved(data, xs, ys, pxs[0]).Some? {
        assert Shown(o');
      } else {
        ReplayShownIff(o', data, xs, ys, pxs[1..]);
        if exists j :: 0 <= j < |pxs| && Moved(data, xs, ys, pxs[j]).Some? {
          var j :| 0 <= j < |pxs| && Moved(data, xs, ys, pxs[j]).Some?;
          assert pxs[1..][j - 1] == pxs[j];
        }
      }
    }
  }

  /** Each move replaces the whole overlay: after a run ending in a move that
      did not throw, the overlay is that move's frame, whatever came before. */
  lemma {:induction false} ReplayLastWins(o: Overlay, data: seq<Sample>, xs: Linear, ys: Linear, pxs: seq<real>)
    requires xs.Valid() && ys.Valid() && pxs != []
    requires Moved(data, xs, ys, pxs[|pxs| - 1]).Some?
    ensures Replay(o, data, xs, ys, pxs) == Moved(data, xs, ys, pxs[|pxs| - 1]).value
    decreases |pxs|
  {
    var o' := Step(o, data, xs, ys, pxs[0]);
    assert Replay(o, data, xs, ys, pxs) == Replay(o', data, xs, ys, pxs[1..]);
    if |pxs| > 1 {
      assert pxs[1..][|pxs[1..]| - 1] == pxs[|pxs| - 1];
      ReplayLastWins(o', data, xs, ys, pxs[1..]);
    } else {
      assert pxs[1..] == [];
    }
  }

  /** The chart component after its data has loaded: the data set and the
      two scales are fixed, and the overlay's attributes are updated in
      place by every mouse-move event. */
  class LinePlot {
    const data: seq<Sample>
    const x: Linear
    const y: Linear

    var marker: Option<Point>
    var radius: real
    var guideX: Option<Segment>
    var guideY: Option<Segment>
    var guidesShown: bool
    var valueTip: Option<Label<real>>
    var dateTip: Option<Label<int>>

    /** The data stay date-ordered and both scales are proper. That `x` and
        `y` are the scales of `data` is fixed once by the constructor, as
        they are constants. */
    ghost predicate Valid()
    {
      |data| > 0 && Sorted(data) && x.Valid() && y.Valid()
    }

    /** The overlay as the handler has left it. */
    function Current(): Overlay
      reads this
    {
      Overlay(marker, radius, guideX, guideY, guidesShown, valueTip, dateTip)
    }

    constructor (data: seq<Sample>)
      requires |data| > 0 && Sorted(data)
      requires MinDate(data) < MaxDate(data) && MaxValue(data) != 0.0
      ensures Valid() && this.data == data && Current() == Hidden()
      ensures x == XScale(data) && y == YScale(data)
    {
      this.data := data;
      x := XScale(data);
      y := YScale(data);
      marker, radius := None, 0.0;
      guideX, guideY, guidesShown := None, None, false;
      valueTip, dateTip := None, None;
    }

    /** The mouse-move handler, for pointer column `px`. `thrown` is true when
        it throws on an `undefined` neighbour, in which case nothing changes. */
    method OnMove(px: real) returns (thrown: bool)
      requires Valid()
      modifies this
      ensures thrown == Moved(data, x, y, px).None?
      ensures Current() == Step(old(Current()), data, x, y, px)
    {
      var x0 := TimeInvert(x, px);
      var i := BisectLeft(data, x0, 1);
      if i >= |data| {
        assert Nearest(data, x0) == None;
        thrown := true;
        return;
      }
      var d0 := data[i - 1];
      var d1 := data[i];
      var d := Pick(d0, d1, x0);
      assert Nearest(data, x0) == Some(d);
      assert Moved(data, x, y, px) == Some(Frame(x, y, d));
      var xPos := x.Apply(d.date as real);
      var yPos := y.Apply(d.value);
      assert Frame(x, y, d) == Overlay(
        Some(Point(xPos, yPos)), 5.0,
        Some(Segment(xPos, 0.0, xPos, Height as real)),
        Some(Segment(0.0, yPos, Width as real, yPos)), true,
        Some(Label(Width as real + 90.0, yPos + 20.0, d.value)),
        Some(Label(xPos + 60.0, Height as real + 53.0, d.date)));
      marker := Some(Point(xPos, yPos));
      radius := 5.0;
      guideX := Some(Segment(xPos, 0.0, xPos, Height as real));
      guideY := Some(Segment(0.0, yPos, Width as real, yPos));
      guidesShown := true;
      valueTip := Some(Label(Width as real + 90.0, yPos + 20.0, d.value));
      dateTip := Some(Label(xPos + 60.0, Height as real + 53.0, d.date));
      thrown := false;
    }
  }
}
