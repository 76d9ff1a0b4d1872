/** The cursor over a piecewise-linear speed profile (onboard/profile_reader.cpp). */
module Profile {
  // Instead of searching the profile it remembers where it was and moves on by at most one segment a call.

  /** Breakpoints: where they are, and the values there. */
  datatype Curve = Curve(dist: seq<real>, speed: seq<real>, low: seq<real>, high: seq<real>, veryHigh: seq<real>)

  predicate IsCurve(c: Curve) {
    |c.dist| >= 2 && |c.speed| == |c.low| == |c.high| == |c.veryHigh| == |c.dist|
  }

  predicate Ascending(dist: seq<real>) {
    forall i, j :: 0 <= i <= j < |dist| ==> dist[i] <= dist[j]
  }

  datatype Cursor = Cursor(section: int, index: nat)

  datatype Limits = Limits(desired: real, low: real, high: real, veryHigh: real)

  // ---------------------------------------------------------------- interpolation

  function CalcSpeed(t: real, t1: real, s1: real, t2: real, s2: real): real {
    var factor := if t2 - t1 == 0.0 then 0.0 else (s2 - s1) / (t2 - t1);
    (t - t1) * factor + s1
  }

  function AtLeast(x: real, bound: real): real {
    if x < bound then bound else x
  }

  /** The value at `d` on the segment that starts at breakpoint `i`. */
  function On(dist: seq<real>, values: seq<real>, i: nat, d: real): real
    requires i + 1 < |dist| == |values|
  {
    CalcSpeed(d, dist[i], values[i], dist[i + 1], values[i + 1])
  }

  function LimitsOn(c: Curve, i: nat, d: real): Limits
    requires IsCurve(c) && i + 1 < |c.dist|
  {
    Limits(AtLeast(On(c.dist, c.speed, i, d), 0.0), AtLeast(On(c.dist, c.low, i, d), -1.0),
           AtLeast(On(c.dist, c.high, i, d), 5.0), AtLeast(On(c.dist, c.veryHigh, i, d), 8.0))
  }

  /** The lines of two neighbouring segments meet at the breakpoint between them. */
  lemma MeetsBreakpoints(t1: real, s1: real, t2: real, s2: real)
    ensures CalcSpeed(t1, t1, s1, t2, s2) == s1
    ensures t1 != t2 ==> CalcSpeed(t2, t1, s1, t2, s2) == s2
  {
    if t1 != t2 {
      Divided(s2 - s1, t2 - t1);
    }
  }

  lemma Divided(x: real, y: real)
    requires y != 0.0
    ensures y * (x / y) == x
  {}

  /** Between and beyond two breakpoints the values lie on the line through them. */
  lemma LiesOnLine(t: real, t1: real, s1: real, t2: real, s2: real)
    requires t1 != t2
    ensures (CalcSpeed(t, t1, s1, t2, s2) - s1) * (t2 - t1) == (s2 - s1) * (t - t1)
  {
    var factor := (s2 - s1) / (t2 - t1);
    Divided(s2 - s1, t2 - t1);
    Rearranged(t - t1, factor, t2 - t1);
  }

  lemma Rearranged(x: real, factor: real, span: real)
    ensures (x * factor) * span == (span * factor) * x
  {}

  /** Between two breakpoints the interpolated values keep the order of the values at the breakpoints. */
  lemma KeepsOrder(t: real, t1: real, t2: real, a1: real, a2: real, b1: real, b2: real)
    requires t1 <= t <= t2 && a1 <= b1 && a2 <= b2
    ensures CalcSpeed(t, t1, a1, t2, a2) <= CalcSpeed(t, t1, b1, t2, b2)
  {
    if t1 != t2 {
      var span, part := t2 - t1, t - t1;
      var share := part / span;
      assert 0.0 <= share <= 1.0 by {
        Divided(part, span);
        Ratio(part, span);
      }
      Shared(part, span, a2 - a1);
      Shared(part, span, b2 - b1);
      assert CalcSpeed(t, t1, a1, t2, a2) == share * (a2 - a1) + a1;
      assert CalcSpeed(t, t1, b1, t2, b2) == share * (b2 - b1) + b1;
      Mixed(share, b1 - a1, b2 - a2);
    }
  }

  lemma Ratio(part: real, span: real)
    requires 0.0 <= part <= span && span > 0.0
    ensures 0.0 <= part / span <= 1.0
  {}

  lemma Shared(part: real, span: real, rise: real)
    requires span > 0.0
    ensures part * (rise / span) == (part / span) * rise
  {}

  lemma Mixed(share: real, x: real, y: real)
    requires 0.0 <= share <= 1.0 && x >= 0.0 && y >= 0.0
    ensures share * (y - x) + x >= 0.0
  {
    assert share * y >= 0.0 && (1.0 - share) * x >= 0.0;
  }

  // ---------------------------------------------------------------- the cursor and the search

  /** The segment of `d`, found by search from `i` on: the first that does not end before `d`, or the last. */
  function SegmentFrom(dist: seq<real>, d: real, i: nat): (s: nat)
    requires i + 1 < |dist|
    ensures i <= s && s + 1 < |dist|
    ensures d <= dist[s + 1] || s + 2 == |dist|
    ensures forall k :: i < k <= s ==> d > dist[k]
    decreases |dist| - i
  {
    if d > dist[i + 1] && i + 2 < |dist| then SegmentFrom(dist, d, i + 1) else i
  }

  function Segment(dist: seq<real>, d: real): nat
    requires |dist| >= 2
  {
    SegmentFrom(dist, d, 0)
  }

  /** Where the cursor stands after a call. */
  function Moved(dist: seq<real>, index: nat, d: real): (r: nat)
    requires index + 1 < |dist|
    ensures r + 1 < |dist|
  {
    if d > dist[index + 1] && index + 2 < |dist| then index + 1 else index
  }

  lemma {:induction false} SearchFromBefore(dist: seq<real>, d: real, i: nat, k: nat)
    requires i + 1 < |dist| && i <= k <= SegmentFrom(dist, d, i)
    ensures SegmentFrom(dist, d, k) == SegmentFrom(dist, d, i)
    decreases k - i
  {
    if i < k {
      assert d > dist[i + 1];
      SearchFromBefore(dist, d, i + 1, k);
    }
  }

  /** A cursor that is not ahead of the search goes one segment towards it. */
  lemma MovesTowards(dist: seq<real>, index: nat, d: real)
    requires |dist| >= 2 && index <= Segment(dist, d)
    ensures Moved(dist, index, d) == if index < Segment(dist, d) then index + 1 else index
  {
    SearchFromBefore(dist, d, 0, index);
  }

  lemma {:induction false} SearchGrows(dist: seq<real>, d: real, d': real, i: nat)
    requires i + 1 < |dist| && d <= d'
    ensures SegmentFrom(dist, d, i) <= SegmentFrom(dist, d', i)
    decreases |dist| - i
  {
    if d > dist[i + 1] && i + 2 < |dist| {
      SearchGrows(dist, d, d', i + 1);
    }
  }

  predicate Forward(ds: seq<real>) {
    forall i, j :: 0 <= i <= j < |ds| ==> ds[i] <= ds[j]
  }

  /** At every call of a run the cursor stands where the search would. */
  predicate Exact(dist: seq<real>, index: nat, ds: seq<real>)
    requires |dist| >= 2 && index + 1 < |dist|
    decreases |ds|
  {
    ds == [] ||
    (Moved(dist, index, ds[0]) == Segment(dist, ds[0]) && Exact(dist, Moved(dist, index, ds[0]), ds[1..]))
  }

  /** No sample is more than one segment beyond the one before it. */
  predicate Steady(dist: seq<real>, index: nat, ds: seq<real>)
    requires |dist| >= 2
    decreases |ds|
  {
    ds == [] || (Segment(dist, ds[0]) <= index + 1 && Steady(dist, Segment(dist, ds[0]), ds[1..]))
  }

  lemma {:induction false} ExactIfSteady(dist: seq<real>, index: nat, ds: seq<real>)
    requires |dist| >= 2 && Forward(ds) && index + 1 < |dist|
    requires ds != [] ==> index <= Segment(dist, ds[0])
    ensures Exact(dist, index, ds) <==> Steady(dist, index, ds)
    decreases |ds|
  {
    hide SegmentFrom, Moved, Segment;
    if ds != [] {
      var s := Segment(dist, ds[0]);
      MovesTowards(dist, index, ds[0]);
      assert Forward(ds[1..]);
      if s <= index + 1 {
        if |ds| > 1 {
          SegmentGrows(dist, ds[0], ds[1]);
        }
        SegmentInside(dist, ds[0]);
        ExactIfSteady(dist, s, ds[1..]);
      }
    }
  }

  lemma SegmentGrows(dist: seq<real>, d: real, d': real)
    requires |dist| >= 2 && d <= d'
    ensures Segment(dist, d) <= Segment(dist, d')
  {
    SearchGrows(dist, d, d', 0);
  }

  lemma SegmentInside(dist: seq<real>, d: real)
    requires |dist| >= 2
    ensures Segment(dist, d) + 1 < |dist|
  {}

  /** Along any run of distances that do not decrease, from the entry of a section on, the remembered index is always
      the one a search would find, exactly if no sample jumps over a whole segment. */
  lemma CursorIsSearch(dist: seq<real>, ds: seq<real>)
    requires |dist| >= 2 && Forward(ds)
    ensures Exact(dist, 0, ds) <==> Steady(dist, 0, ds)
  {
    ExactIfSteady(dist, 0, ds);
  }

  /** How far the line through two breakpoints, at d, is above the value y, times the length of the segment. */
  function Above(dist: seq<real>, values: seq<real>, i: nat, d: real, y: real): real
    requires i + 1 < |dist| == |values|
  {
    (values[i + 1] - values[i]) * (d - dist[i]) - (y - values[i]) * (dist[i + 1] - dist[i])
  }

  /** A limit lies on the line, or at its bound, and at the bound exactly where the line does not lie above it. */
  predicate Follows(dist: seq<real>, values: seq<real>, i: nat, d: real, bound: real, limit: real)
    requires i + 1 < |dist| == |values|
  {
    && limit >= bound
    && (limit > bound ==> Above(dist, values, i, d, limit) == 0.0)
    && (limit == bound <==> Above(dist, values, i, d, bound) <= 0.0)
  }

  lemma BoundedFollows(dist: seq<real>, values: seq<real>, i: nat, d: real, bound: real)
    requires i + 1 < |dist| == |values| && dist[i] < dist[i + 1]
    ensures Follows(dist, values, i, d, bound, AtLeast(On(dist, values, i, d), bound))
  {
    var y, span := On(dist, values, i, d), dist[i + 1] - dist[i];
    LiesOnLine(d, dist[i], values[i], dist[i + 1], values[i + 1]);
    hide CalcSpeed;
    SameSign(y - bound, span);
    assert Above(dist, values, i, d, bound) == (y - bound) * span;
  }

  lemma SameSign(x: real, span: real)
    requires span > 0.0
    ensures x > 0.0 <==> x * span > 0.0
  {}

  /** Where the cursor stands after the calls for some samples. */
  function CursorAfter(dist: seq<real>, index: nat, ds: seq<real>): (r: nat)
    requires index + 1 < |dist|
    ensures r + 1 < |dist|
    decreases |ds|
  {
    if ds == [] then index else CursorAfter(dist, Moved(dist, index, ds[0]), ds[1..])
  }

  lemma {:induction false} ExactAfter(dist: seq<real>, index: nat, ds: seq<real>, k: nat)
    requires index + 1 < |dist| && Exact(dist, index, ds) && k < |ds|
    ensures CursorAfter(dist, index, ds[..k + 1]) == Segment(dist, ds[k])
    decreases |ds|
  {
    hide Segment, Moved;
    var next := Moved(dist, index, ds[0]);
    if k == 0 {
      assert ds[..1][1..] == [];
    } else {
      assert ds[..k + 1][1..] == ds[1..][..k];
      ExactAfter(dist, next, ds[1..], k - 1);
    }
  }

  /** At every sample of a steady run all four limits follow the curve on the segment of the sample. */
  lemma LimitsFollowCurve(c: Curve, ds: seq<real>, k: nat)
    requires IsCurve(c) && (forall i, j :: 0 <= i < j < |c.dist| ==> c.dist[i] < c.dist[j])
    requires Forward(ds) && Steady(c.dist, 0, ds) && k < |ds|
    ensures
      var i, d := Segment(c.dist, ds[k]), ds[k];
      var l := LimitsOn(c, CursorAfter(c.dist, 0, ds[..k + 1]), d);
      && i + 1 < |c.dist|
      && Follows(c.dist, c.speed, i, d, 0.0, l.desired) && Follows(c.dist, c.low, i, d, -1.0, l.low)
      && Follows(c.dist, c.high, i, d, 5.0, l.high) && Follows(c.dist, c.veryHigh, i, d, 8.0, l.veryHigh)
  {
    hide Segment, Follows, On, Steady, Exact, CursorAfter;
    var i, d := Segment(c.dist, ds[k]), ds[k];
    CursorIsSearch(c.dist, ds);
    ExactAfter(c.dist, 0, ds, k);
    SegmentInside(c.dist, d);
    BoundedFollows(c.dist, c.speed, i, d, 0.0);
    BoundedFollows(c.dist, c.low, i, d, -1.0);
    BoundedFollows(c.dist, c.high, i, d, 5.0);
    BoundedFollows(c.dist, c.veryHigh, i, d, 8.0);
  }

  /** On a segment without length the value is that of its start. */
  lemma NoLength(dist: seq<real>, values: seq<real>, i: nat, d: real)
    requires i + 1 < |dist| == |values| && dist[i] == dist[i + 1]
    ensures On(dist, values, i, d) == values[i]
  {}

  predicate InOrder(c: Curve)
    requires IsCurve(c)
  {
    forall i :: 0 <= i < |c.dist| ==> c.low[i] <= c.speed[i] <= c.high[i] <= c.veryHigh[i]
  }

  /** If the limits are in order at all breakpoints they are in order at every sample within the profile for which the
      cursor stands where the search would. */
  lemma LimitsStayInOrder(c: Curve, d: real)
    requires IsCurve(c) && Ascending(c.dist) && InOrder(c) && c.dist[0] <= d <= c.dist[|c.dist| - 1]
    ensures var l := LimitsOn(c, Segment(c.dist, d), d); l.low <= l.desired <= l.high <= l.veryHigh
  {
    var i := Segment(c.dist, d);
    assert c.dist[i] <= d <= c.dist[i + 1];
    hide CalcSpeed;
    KeepsOrder(d, c.dist[i], c.dist[i + 1], c.low[i], c.low[i + 1], c.speed[i], c.speed[i + 1]);
    KeepsOrder(d, c.dist[i], c.dist[i + 1], c.speed[i], c.speed[i + 1], c.high[i], c.high[i + 1]);
    KeepsOrder(d, c.dist[i], c.dist[i + 1], c.high[i], c.high[i + 1], c.veryHigh[i], c.veryHigh[i + 1]);
  }

  /** A cursor left behind by a jump can give limits out of order. */
  lemma JumpCanDisorder() returns (c: Curve, d: real)
    ensures IsCurve(c) && Ascending(c.dist) && InOrder(c) && c.dist[0] <= d <= c.dist[|c.dist| - 1]
    ensures var l := LimitsOn(c, Moved(c.dist, 0, d), d); l.desired > l.high
  {
    c := Curve([0.0, 1.0, 2.0, 3.0], [0.0, 0.0, 20.0, 20.0], [0.0, 0.0, 0.0, 0.0], [20.0, 20.0, 20.0, 20.0],
               [30.0, 30.0, 30.0, 30.0]);
    d := 3.0;
    assert On(c.dist, c.speed, 1, d) == 40.0;
    assert On(c.dist, c.high, 1, d) == 20.0;
  }

  // ---------------------------------------------------------------- the object

  class ProfileReader {
    const curves: seq<Curve>
    var lastSection: int
    var myIndex: nat
    var kind: int

    predicate Valid()
      reads this
    {
      (forall k :: 0 <= k < |curves| ==> IsCurve(curves[k]))
      && (0 <= lastSection < |curves| ==> myIndex + 1 < |curves[lastSection].dist|)
    }

    constructor (curves: seq<Curve>)
      requires forall k :: 0 <= k < |curves| ==> IsCurve(curves[k])
      ensures Valid() && this.curves == curves && lastSection == -1 && myIndex == 0 && kind == 1
    {
      this.curves := curves;
      lastSection, myIndex, kind := -1, 0, 1;
    }

    /** The limits at a place, the kind of segment (0 slower, 1 level, 2 faster), and whether to warn of its end. */
    method CalcDesired(section: nat, speed: real, distance: real) returns (limits: Limits, mode: int, warn: bool)
      requires Valid() && section < |curves|
      modifies this
      ensures Valid() && lastSection == section
      ensures myIndex == Moved(curves[section].dist, if section == old(lastSection) then old(myIndex) else 0, distance)
      ensures limits == LimitsOn(curves[section], myIndex, distance)
      ensures var v := curves[section].speed;
              mode == kind == if v[myIndex + 1] < v[myIndex] then 0 else if v[myIndex + 1] > v[myIndex] then 2 else 1
      ensures warn <==> mode == 1 && curves[section].dist[myIndex + 1] - distance < speed * (1.0 / 3.6) * 5.5
    {
      hide CalcSpeed;
      if section != lastSection {
        myIndex := 0;
        lastSection := section;
      }
      var c := curves[section];
      if distance > c.dist[myIndex + 1] {
        if myIndex + 2 < |c.dist| {
          myIndex := myIndex + 1;
        }
      }
      warn := false;
      var distanceToNext := c.dist[myIndex + 1] - distance;
      if distanceToNext < speed * (1.0 / 3.6) * 5.5 {
        warn := true;
      }
      if c.speed[myIndex + 1] < c.speed[myIndex] {
        kind := 0;
      } else if c.speed[myIndex + 1] > c.speed[myIndex] {
        kind := 2;
      } else {
        kind := 1;
      }
      if kind != 1 {
        warn := false;
      }
      var d1, d2 := c.dist[myIndex], c.dist[myIndex + 1];
      var desired := CalcSpeed(distance, d1, c.speed[myIndex], d2, c.speed[myIndex + 1]);
      if desired < 0.0 {
        desired := 0.0;
      }
      var low := CalcSpeed(distance, d1, c.low[myIndex], d2, c.low[myIndex + 1]);
      if low < -1.0 {
        low := -1.0;
      }
      var high := CalcSpeed(distance, d1, c.high[myIndex], d2, c.high[myIndex + 1]);
      if high < 5.0 {
        high := 5.0;
      }
      var veryHigh := CalcSpeed(distance, d1, c.veryHigh[myIndex], d2, c.veryHigh[myIndex + 1]);
      if veryHigh < 8.0 {
        veryHigh := 8.0;
      }
      limits := Limits(desired, low, high, veryHigh);
      mode := kind;
    }
  }
}
