/** Plot geometry: the fixed outer size of the SVG, its margins, and the
    inner plotting area the scales map onto. */
module Layout {

  datatype Margin = Margin(top: int, right: int, bottom: int, left: int)

  /** Outer size of the SVG element, in pixels. */
  const OuterWidth: int := 960
  const OuterHeight: int := 250

  const ChartMargin: Margin := Margin(20, 20, 50, 70)

  /** Inner plotting area: the outer size less the margins on either side. */
  const Width: int := OuterWidth - ChartMargin.left - ChartMargin.right
  const Height: int := OuterHeight - ChartMargin.top - ChartMargin.bottom

  /** A pixel position inside the translated plot group. */
  datatype Point = Point(x: real, y: real)

  /** An SVG `line` element, by its four attributes. */
  datatype Segment = Segment(x1: real, y1: real, x2: real, y2: real)

  /** The plot area is 870 by 180 pixels, and adding the margins back gives
      the width and height attributes of the SVG element. */
  lemma PlotSize()
    ensures Width == 870 && Height == 180
    ensures Width + ChartMargin.left + ChartMargin.right == OuterWidth
    ensures Height + ChartMargin.top + ChartMargin.bottom == OuterHeight
  {
  }
}
