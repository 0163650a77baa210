/** The continuous scales of the chart: `d3.scaleTime` for dates and
    `d3.scaleLinear` for values, both affine maps from a two-point domain
    onto a two-point pixel range, with their inverses. */
module Scales {
  import opened Layout
  import opened Dataset

  /** A continuous scale with domain [d0, d1] and range [r0, r1]. Both
      endpoints pairs must differ so that neither map divides by zero. */
  datatype Linear = Linear(d0: real, d1: real, r0: real, r1: real)
  {
    predicate Valid()
    {
      d0 != d1 && r0 != r1
    }

    /** Forward map: normalise into [0, 1] over the domain, then
        interpolate over the range. */
    function Apply(v: real): (p: real)
      requires Valid()
      ensures v == d0 ==> p == r0
      ensures v == d1 ==> p == r1
    {
      r0 + (r1 - r0) * ((v - d0) / (d1 - d0))
    }

    /** Inverse map: normalise over the range, interpolate over the domain. */
    function Invert(p: real): (v: real)
      requires Valid()
      ensures p == r0 ==> v == d0
      ensures p == r1 ==> v == d1
    {
      d0 + (d1 - d0) * ((p - r0) / (r1 - r0))
    }
  }

  /** Truncation toward zero, as JavaScript's `Date` constructor applies to a
      time value (TimeClip). */
  function Trunc(r: real): (n: int)
    ensures n as real <= r < n as real + 1.0 || n as real - 1.0 < r <= n as real
    ensures 0.0 <= r ==> 0 <= n && n as real <= r
    ensures r <= 0.0 ==> n <= 0 && r <= n as real
  {
    if r >= 0.0 then r.Floor else -((-r).Floor)
  }

  /** `x.invert` of a time scale: the continuous inverse, wrapped in a Date. */
  function TimeInvert(s: Linear, p: real): (t: int)
    requires s.Valid()
    ensures 0.0 <= s.Invert(p) ==> t as real <= s.Invert(p) < t as real + 1.0
    ensures s.Invert(p) <= 0.0 ==> t as real - 1.0 < s.Invert(p) <= t as real
  {
    Trunc(s.Invert(p))
  }

  /** The x scale: range [0, width], domain the extent of the dates. */
  function XScale(data: seq<Sample>): (s: Linear)
    requires |data| > 0
    ensures s.Valid() <==> MinDate(data) < MaxDate(data)
    ensures s.Valid() ==>
      s.Apply(MinDate(data) as real) == 0.0 && s.Apply(MaxDate(data) as real) == Width as real
  {
    Linear(MinDate(data) as real, MaxDate(data) as real, 0.0, Width as real)
  }

  /** The y scale: range [height, 0] (inverted), domain [0, max value]. */
  function YScale(data: seq<Sample>): (s: Linear)
    requires |data| > 0
    ensures s.Valid() <==> MaxValue(data) != 0.0
    ensures s.Valid() ==> s.Apply(0.0) == Height as real && s.Apply(MaxValue(data)) == 0.0
  {
    Linear(0.0, MaxValue(data), Height as real, 0.0)
  }

  /** The y scale of the horizontal grid lines: as the y scale, but its top
      is the value `.nice()` rounded the maximum to. */
  function YGridScale(niceTop: real): (s: Linear)
    ensures s.Valid() <==> niceTop != 0.0
    ensures s.Valid() ==> s.Apply(0.0) == Height as real && s.Apply(niceTop) == 0.0
  {
    Linear(0.0, niceTop, Height as real, 0.0)
  }

  /** The forward map sends the domain's endpoints to the range's. */
  lemma ApplyEndpoints(s: Linear)
    requires s.Valid()
    ensures s.Apply(s.d0) == s.r0 && s.Apply(s.d1) == s.r1
  {
  }

  /** Multiplying back by a non-zero divisor cancels the division. */
  lemma MulDivCancel(c: real, x: real)
    requires c != 0.0
    ensures c * (x / c) == x
    ensures (c * x) / c == x
  {
  }

  /** Interpolating with weight `t` and normalising back gives `t`. */
  lemma NormaliseInterpolate(a: real, b: real, t: real)
    requires a != b
    ensures ((a + (b - a) * t) - a) / (b - a) == t
  {
    assert (a + (b - a) * t) - a == (b - a) * t;
    MulDivCancel(b - a, t);
  }

  /** Inverting a mapped value gives the value back, exactly, over reals. */
  lemma InvertApply(s: Linear, v: real)
    requires s.Valid()
    ensures s.Invert(s.Apply(v)) == v
  {
    var t := (v - s.d0) / (s.d1 - s.d0);
    var p := s.Apply(v);
    assert p == s.r0 + (s.r1 - s.r0) * t;
    NormaliseInterpolate(s.r0, s.r1, t);
    assert (p - s.r0) / (s.r1 - s.r0) == t;
    MulDivCancel(s.d1 - s.d0, v - s.d0);
    assert (s.d1 - s.d0) * t == v - s.d0;
    assert s.Invert(p) == s.d0 + (s.d1 - s.d0) * t;
  }

  /** Mapping an inverted pixel gives the pixel back. */
  lemma ApplyInvert(s: Linear, p: real)
    requires s.Valid()
    ensures s.Apply(s.Invert(p)) == p
  {
    var t := (p - s.r0) / (s.r1 - s.r0);
    var v := s.Invert(p);
    assert v == s.d0 + (s.d1 - s.d0) * t;
    NormaliseInterpolate(s.d0, s.d1, t);
    assert (v - s.d0) / (s.d1 - s.d0) == t;
    MulDivCancel(s.r1 - s.r0, p - s.r0);
    assert (s.r1 - s.r0) * t == p - s.r0;
    assert s.Apply(v) == s.r0 + (s.r1 - s.r0) * t;
  }

  /** For a positive `c`, `c * t` leaves [0, c] as soon as `t` leaves [0, 1]. */
  lemma ScaledOutsideUnit(c: real, t: real)
    requires 0.0 < c
    ensures t < 0.0 ==> c * t < 0.0
    ensures 1.0 < t ==> c < c * t
  {
    assert c * (-t) == -(c * t);
    assert c * (t - 1.0) == c * t - c;
    ProductSign(c, -t);
    ProductSign(c, t - 1.0);
  }

  /** The normalised position of `v` in [a, b] lies in [0, 1]. */
  lemma NormalisedInUnit(v: real, a: real, b: real)
    requires a != b
    requires a <= v <= b || b <= v <= a
    ensures 0.0 <= (v - a) / (b - a) <= 1.0
  {
    var c := b - a;
    var t := (v - a) / c;
    MulDivCancel(c, v - a);
    assert c * t == v - a;
    if a < b {
      ScaledOutsideUnit(c, t);
    } else {
      assert (-c) * t == a - v;
      ScaledOutsideUnit(-c, t);
    }
  }

  lemma NonNegProduct(x: real, y: real)
    requires 0.0 <= x && 0.0 <= y
    ensures 0.0 <= x * y
  {
  }

  /** Interpolating with a weight in [0, 1] stays between the endpoints. */
  lemma InterpolateBetween(a: real, b: real, t: real)
    requires 0.0 <= t <= 1.0
    ensures a <= a + (b - a) * t <= b || b <= a + (b - a) * t <= a
  {
    var d := b - a;
    assert d * t + d * (1.0 - t) == d;
    if a <= b {
      NonNegProduct(d, t);
      NonNegProduct(d, 1.0 - t);
    } else {
      NonNegProduct(-d, t);
      NonNegProduct(-d, 1.0 - t);
    }
  }

  /** A value inside the domain maps inside the range. */
  lemma ApplyInRange(s: Linear, v: real)
    requires s.Valid()
    requires s.d0 <= v <= s.d1 || s.d1 <= v <= s.d0
    ensures s.r0 <= s.Apply(v) <= s.r1 || s.r1 <= s.Apply(v) <= s.r0
  {
    NormalisedInUnit(v, s.d0, s.d1);
    InterpolateBetween(s.r0, s.r1, (v - s.d0) / (s.d1 - s.d0));
  }

  /** A pixel inside the range inverts into the domain. */
  lemma InvertInDomain(s: Linear, p: real)
    requires s.Valid()
    requires s.r0 <= p <= s.r1 || s.r1 <= p <= s.r0
    ensures s.d0 <= s.Invert(p) <= s.d1 || s.d1 <= s.Invert(p) <= s.d0
  {
    NormalisedInUnit(p, s.r0, s.r1);
    InterpolateBetween(s.d0, s.d1, (p - s.r0) / (s.r1 - s.r0));
  }

  /** The forward map is strictly monotone: increasing when domain and range
      run the same way, decreasing when one of them is inverted. */
  lemma ApplyMonotone(s: Linear, a: real, b: real)
    requires s.Valid() && a < b
    ensures (s.d0 < s.d1) == (s.r0 < s.r1) ==> s.Apply(a) < s.Apply(b)
    ensures (s.d0 < s.d1) != (s.r0 < s.r1) ==> s.Apply(a) > s.Apply(b)
  {
    var c, k := s.d1 - s.d0, s.r1 - s.r0;
    var ta, tb := (a - s.d0) / c, (b - s.d0) / c;
    var q := tb - ta;
    MulDivCancel(c, a - s.d0);
    MulDivCancel(c, b - s.d0);
    assert c * q == c * tb - c * ta;
    assert c * q == b - a;
    ProductSign(c, q);
    var pa, pb := s.Apply(a), s.Apply(b);
    assert pa == s.r0 + k * ta && pb == s.r0 + k * tb;
    assert pb - pa == k * q;
    ProductSign(k, q);
    if c > 0.0 {
      assert 0.0 < c * q;
      assert q > 0.0;
    } else {
      assert 0.0 < c * q;
      assert q < 0.0;
    }
  }

  /** Sign of a product: the product of two non-zero factors is positive
      when their signs agree and negative when they differ. */
  lemma ProductSign(x: real, y: real)
    ensures y == 0.0 ==> x * y == 0.0
    ensures (0.0 < x && 0.0 < y) || (x < 0.0 && y < 0.0) ==> 0.0 < x * y
    ensures (0.0 < x && y < 0.0) || (x < 0.0 && 0.0 < y) ==> x * y < 0.0
  {
    if x < 0.0 {
      assert x * y == -((-x) * y);
    }
  }

  /** The x scale sends the earliest date to the left edge and the latest to
      the right edge, and each date's pixel inverts back to that date. */
  lemma XScaleProperties(data: seq<Sample>, t: int)
    requires |data| > 0 && MinDate(data) < MaxDate(data)
    ensures XScale(data).Valid()
    ensures XScale(data).Apply(MinDate(data) as real) == 0.0
    ensures XScale(data).Apply(MaxDate(data) as real) == Width as real
    ensures TimeInvert(XScale(data), XScale(data).Apply(t as real)) == t
  {
    ApplyEndpoints(XScale(data));
    InvertApply(XScale(data), t as real);
  }

  /** The y scale sends 0 to the bottom edge and the largest value to the top
      edge; for a positive maximum, larger values plot higher. */
  lemma YScaleProperties(data: seq<Sample>, a: real, b: real)
    requires |data| > 0 && MaxValue(data) != 0.0
    ensures YScale(data).Valid()
    ensures YScale(data).Apply(0.0) == Height as real
    ensures YScale(data).Apply(MaxValue(data)) == 0.0
    ensures MaxValue(data) > 0.0 && a < b ==> YScale(data).Apply(a) > YScale(data).Apply(b)
  {
    ApplyEndpoints(YScale(data));
    if MaxValue(data) > 0.0 && a < b {
      ApplyMonotone(YScale(data), a, b);
    }
  }

  /** Every pixel column of the plot inverts to a time inside the date extent. */
  lemma PlotColumnInExtent(data: seq<Sample>, p: real)
    requires |data| > 0 && MinDate(data) < MaxDate(data)
    requires 0.0 <= p <= Width as real
    ensures MinDate(data) <= TimeInvert(XScale(data), p) <= MaxDate(data)
  {
    var s := XScale(data);
    InvertInDomain(s, p);
    var v := s.Invert(p);
    var t := Trunc(v);
    if v >= 0.0 {
      assert t == v.Floor;
    } else {
      assert t == -((-v).Floor);
    }
  }
}
