/** What an IntersectionObserver reports for one target (document_loader.rs, `ioBox`, `ioClip`, `ioTouches`,
    `ioExpand`, `ioGeometry`, `ioIndex`), over the real numbers. */
module ObserverGeometry {
  import opened Wrappers

  datatype Box = Box(x: real, y: real, width: real, height: real) {
    function Right(): real { x + width }
    function Bottom(): real { y + height }
  }

  /** An ancestor's box and the axes on which its overflow clips. */
  datatype Clip = Clip(box: Box, clipX: bool, clipY: bool)

  predicate IsPositive(b: Box) { b.width > 0.0 && b.height > 0.0 }

  // ioClip and ioTouches.

  function Max(a: real, b: real): real { if b > a then b else a }
  function Min(a: real, b: real): real { if b < a then b else a }

  function Clipped(box: Box, c: Clip): Option<Box> {
    var left := if c.clipX then Max(box.x, c.box.x) else box.x;
    var right := if c.clipX then Min(box.Right(), c.box.Right()) else box.Right();
    var top := if c.clipY then Max(box.y, c.box.y) else box.y;
    var bottom := if c.clipY then Min(box.Bottom(), c.box.Bottom()) else box.Bottom();
    if right - left > 0.0 && bottom - top > 0.0 then Some(Box(left, top, right - left, bottom - top)) else None
  }

  predicate Touches(box: Box, c: Clip) {
    && (c.clipX ==> box.Right() >= c.box.x && box.x <= c.box.Right())
    && (c.clipY ==> box.Bottom() >= c.box.y && box.y <= c.box.Bottom())
  }

  datatype Edge = Edge(value: real, percent: bool)
  datatype Margin = Margin(top: Edge, right: Edge, bottom: Edge, left: Edge)

  function Extent(e: Edge, base: real): real { if e.percent then base * e.value / 100.0 else e.value }

  function Expanded(box: Box, m: Margin): Box {
    var top, right := Extent(m.top, box.height), Extent(m.right, box.width);
    var bottom, left := Extent(m.bottom, box.height), Extent(m.left, box.width);
    Box(box.x - left, box.y - top, box.width + left + right, box.height + top + bottom)
  }

  // The region, as the loop over the ancestors computes it.

  function Region(region: Option<Box>, clips: seq<Clip>): Option<Box>
    decreases |clips|
  {
    if clips == [] || region.None? then region else Region(Clipped(region.value, clips[0]), clips[1..])
  }

  /** `(x, y)` lies strictly inside the box. */
  predicate Inside(b: Box, x: real, y: real) { b.x < x < b.Right() && b.y < y < b.Bottom() }

  predicate InsideClip(c: Clip, x: real, y: real) {
    (c.clipX ==> c.box.x < x < c.box.Right()) && (c.clipY ==> c.box.y < y < c.box.Bottom())
  }

  predicate InsideAll(clips: seq<Clip>, x: real, y: real) {
    forall i :: 0 <= i < |clips| ==> InsideClip(clips[i], x, y)
  }

  lemma ClippedInside(b: Box, c: Clip, x: real, y: real)
    ensures (Clipped(b, c).Some? && Inside(Clipped(b, c).value, x, y)) <==> Inside(b, x, y) && InsideClip(c, x, y)
  {
  }

  /** The region holds exactly the points that the target and every clip hold. The right-hand side knows no
      order. */
  lemma {:induction false} RegionIsIntersection(region: Option<Box>, clips: seq<Clip>, x: real, y: real)
    ensures (Region(region, clips).Some? && Inside(Region(region, clips).value, x, y)) <==>
            region.Some? && Inside(region.value, x, y) && InsideAll(clips, x, y)
    decreases |clips|
  {
    if clips == [] || region.None? {
    } else {
      ClippedInside(region.value, clips[0], x, y);
      RegionIsIntersection(Clipped(region.value, clips[0]), clips[1..], x, y);
      assert InsideAll(clips, x, y) <==> InsideClip(clips[0], x, y) && InsideAll(clips[1..], x, y) by {
        assert forall i :: 1 <= i < |clips| ==> clips[i] == clips[1..][i - 1];
      }
    }
  }

  lemma {:induction false} RegionIsPositive(region: Option<Box>, clips: seq<Clip>)
    requires region.Some? ==> IsPositive(region.value)
    ensures Region(region, clips).Some? ==> IsPositive(Region(region, clips).value)
    decreases |clips|
  {
    if clips == [] || region.None? {
    } else {
      RegionIsPositive(Clipped(region.value, clips[0]), clips[1..]);
    }
  }

  function Middle(a: real, b: real): real { (a + b) / 2.0 }

  /** A positive box is known by the points inside it. */
  lemma BoxOfPoints(a: Box, b: Box)
    requires IsPositive(a) && IsPositive(b)
    requires forall x, y :: Inside(a, x, y) <==> Inside(b, x, y)
    ensures a == b
  {
    BoxWithin(a, b);
    BoxWithin(b, a);
  }

  lemma BoxWithin(a: Box, b: Box)
    requires IsPositive(a) && IsPositive(b)
    requires forall x, y :: Inside(a, x, y) ==> Inside(b, x, y)
    ensures b.x <= a.x && b.y <= a.y && a.Right() <= b.Right() && a.Bottom() <= b.Bottom()
  {
    var mx, my := Middle(a.x, a.Right()), Middle(a.y, a.Bottom());
    if a.x < b.x {
      assert Inside(a, Middle(a.x, Min(b.x, a.Right())), my);
    }
    if b.Right() < a.Right() {
      assert Inside(a, Middle(Max(b.Right(), a.x), a.Right()), my);
    }
    if a.y < b.y {
      assert Inside(a, mx, Middle(a.y, Min(b.y, a.Bottom())));
    }
    if b.Bottom() < a.Bottom() {
      assert Inside(a, mx, Middle(Max(b.Bottom(), a.y), a.Bottom()));
    }
  }

  /** Clipping is independent of order and repetition: the same clips give the same region, null or not. */
  lemma RegionIgnoresOrder(target: Box, p: seq<Clip>, q: seq<Clip>)
    requires IsPositive(target) && (forall c :: c in p <==> c in q)
    ensures Region(Some(target), p) == Region(Some(target), q)
  {
    var a, b := Region(Some(target), p), Region(Some(target), q);
    RegionIsPositive(Some(target), p);
    RegionIsPositive(Some(target), q);
    forall x, y
      ensures (a.Some? && Inside(a.value, x, y)) <==> (b.Some? && Inside(b.value, x, y))
    {
      RegionIsIntersection(Some(target), p, x, y);
      RegionIsIntersection(Some(target), q, x, y);
      SameInside(p, q, x, y);
      SameInside(q, p, x, y);
    }
    if a.Some? {
      assert Inside(a.value, Middle(a.value.x, a.value.Right()), Middle(a.value.y, a.value.Bottom()));
    }
    if b.Some? {
      assert Inside(b.value, Middle(b.value.x, b.value.Right()), Middle(b.value.y, b.value.Bottom()));
    }
    if a.Some? && b.Some? {
      BoxOfPoints(a.value, b.value);
    }
  }

  lemma SameInside(p: seq<Clip>, q: seq<Clip>, x: real, y: real)
    requires forall c :: c in p ==> c in q
    ensures InsideAll(q, x, y) ==> InsideAll(p, x, y)
  {
    if InsideAll(q, x, y) {
      forall i | 0 <= i < |p| ensures InsideClip(p[i], x, y) {
        assert p[i] in q;
        var j :| 0 <= j < |q| && q[j] == p[i];
      }
    }
  }

  // ioGeometry.

  const EPSILON: real := 0.000001
  const MAX_ANCESTORS: nat := 64

  datatype Report = Report(intersecting: bool, ratio: real, rect: Box)

  const MISS := Report(false, 0.0, Box(0.0, 0.0, 0.0, 0.0))

  /** The ancestors the walk visits, then the root with its margin. */
  function Visited(ancestors: seq<Clip>, root: Box): seq<Clip> {
    (if |ancestors| > MAX_ANCESTORS then ancestors[..MAX_ANCESTORS] else ancestors) + [Clip(root, true, true)]
  }

  function Area(b: Box): real { b.width * b.height }

  function Snapped(ratio: real): real { if ratio > 1.0 - EPSILON then 1.0 else ratio }

  /** For a target with an area: the region, and the share of the target it covers. For one without: whether it
      touches every clip. */
  function Seen(bounds: Box, clips: seq<Clip>): Report {
    if IsPositive(bounds) then
      var region := Region(Some(bounds), clips);
      if region.None? then MISS
      else Report(true, Snapped(Share(region.value, bounds)), region.value)
    else if forall i :: 0 <= i < |clips| ==> Touches(bounds, clips[i]) then
      Report(true, 1.0, Box(bounds.x, bounds.y, 0.0, 0.0))
    else MISS
  }

  function Share(part: Box, whole: Box): real
    requires IsPositive(whole)
  {
    AreaPositive(whole);
    Area(part) / Area(whole)
  }

  lemma AreaPositive(b: Box)
    requires IsPositive(b)
    ensures Area(b) > 0.0
  {
  }

  lemma ProductGrows(w: real, h: real, w': real, h': real)
    requires 0.0 < w <= w' && 0.0 < h <= h'
    ensures 0.0 < w * h <= w' * h'
  {
    assert w * h <= w * h';
    assert w * h' <= w' * h';
  }

  lemma Quotient(a: real, b: real)
    requires 0.0 < a <= b
    ensures 0.0 < a / b <= 1.0
  {
    assert a / b * b == a;
  }

  lemma {:induction false} RegionWithin(region: Box, clips: seq<Clip>)
    requires IsPositive(region)
    ensures var r := Region(Some(region), clips);
      r.Some? ==>
        && region.x <= r.value.x && region.y <= r.value.y
        && r.value.Right() <= region.Right() && r.value.Bottom() <= region.Bottom()
    decreases |clips|
  {
    if clips == [] || Clipped(region, clips[0]).None? {
    } else {
      RegionWithin(Clipped(region, clips[0]).value, clips[1..]);
    }
  }

  lemma ShareInRange(part: Box, whole: Box)
    requires IsPositive(part) && IsPositive(whole) && part.width <= whole.width && part.height <= whole.height
    ensures 0.0 < Share(part, whole) <= 1.0
  {
    ProductGrows(part.width, part.height, whole.width, whole.height);
    Quotient(Area(part), Area(whole));
  }

  /** A target with an area that is seen at all is seen by a share in (0, 1], so the clamps of `ioGeometry` change
      nothing; one without an area is seen wholly or not at all. */
  lemma RatioInRange(bounds: Box, clips: seq<Clip>)
    ensures var r := Seen(bounds, clips);
      if r.intersecting then 0.0 < r.ratio <= 1.0 else r == MISS
    ensures var r := Seen(bounds, clips);
      r.intersecting && IsPositive(bounds) ==> IsPositive(r.rect) && 0.0 < Share(r.rect, bounds) <= 1.0
  {
    if IsPositive(bounds) && Region(Some(bounds), clips).Some? {
      var r := Region(Some(bounds), clips).value;
      RegionIsPositive(Some(bounds), clips);
      RegionWithin(bounds, clips);
      ShareInRange(r, bounds);
    }
  }

  /** Reports, too, do not depend on the order of the clips. */
  lemma SeenIgnoresOrder(bounds: Box, p: seq<Clip>, q: seq<Clip>)
    requires forall c :: c in p <==> c in q
    ensures Seen(bounds, p) == Seen(bounds, q)
  {
    if IsPositive(bounds) {
      RegionIgnoresOrder(bounds, p, q);
    } else {
      SameTouch(bounds, p, q);
      SameTouch(bounds, q, p);
    }
  }

  lemma SameTouch(bounds: Box, p: seq<Clip>, q: seq<Clip>)
    requires forall c :: c in p ==> c in q
    ensures (forall i :: 0 <= i < |q| ==> Touches(bounds, q[i])) ==> forall i :: 0 <= i < |p| ==> Touches(bounds, p[i])
  {
    if forall i :: 0 <= i < |q| ==> Touches(bounds, q[i]) {
      forall i | 0 <= i < |p| ensures Touches(bounds, p[i]) {
        assert p[i] in q;
        var j :| 0 <= j < |q| && q[j] == p[i];
      }
    }
  }

  lemma {:induction false} RegionSnoc(region: Option<Box>, clips: seq<Clip>, c: Clip)
    ensures Region(region, clips + [c]) ==
      var r := Region(region, clips); if r.Some? then Clipped(r.value, c) else None
    decreases |clips|
  {
    if clips == [] {
      assert (clips + [c])[1..] == [];
    } else if region.Some? {
      RegionSnoc(Clipped(region.value, clips[0]), clips[1..], c);
      assert (clips + [c])[1..] == clips[1..] + [c];
    }
  }

  /** A clip on neither axis changes nothing. */
  lemma UnclippedStays(box: Box, c: Clip)
    requires IsPositive(box) && !c.clipX && !c.clipY
    ensures Clipped(box, c) == Some(box)
  {
  }

  /** The walk over the ancestors: the region of a positive target, or whether an empty one is contained. */
  method WalkAncestors(bounds: Box, ancestors: seq<Clip>) returns (region: Option<Box>, contained: bool, visited: nat)
    ensures visited == if |ancestors| > MAX_ANCESTORS then MAX_ANCESTORS else |ancestors|
    ensures IsPositive(bounds) ==> region == Region(Some(bounds), ancestors[..visited])
    ensures !IsPositive(bounds) ==> (contained <==> forall i :: 0 <= i < visited ==> Touches(bounds, ancestors[i]))
  {
    var positive := bounds.width > 0.0 && bounds.height > 0.0;
    region := if positive then Some(bounds) else None;
    contained := !positive;
    visited := 0;
    while visited < |ancestors| && visited < MAX_ANCESTORS
      invariant visited <= |ancestors| && visited <= MAX_ANCESTORS
      invariant positive ==> region == Region(Some(bounds), ancestors[..visited])
      invariant !positive ==> (contained <==> forall i :: 0 <= i < visited ==> Touches(bounds, ancestors[i]))
    {
      var c := ancestors[visited];
      if positive {
        RegionSnoc(Some(bounds), ancestors[..visited], c);
        RegionIsPositive(Some(bounds), ancestors[..visited]);
        assert ancestors[..visited + 1] == ancestors[..visited] + [c];
        if !c.clipX && !c.clipY && region.Some? {
          UnclippedStays(region.value, c);
        }
      }
      if c.clipX || c.clipY {
        if positive {
          region := if region.Some? then Clipped(region.value, c) else None;
        } else if !Touches(bounds, c) {
          contained := false;
        }
      }
      visited := visited + 1;
    }
  }

  /** The share a region covers, with the clamps and the snap to one of `ioGeometry`. */
  method Ratio(region: Box, bounds: Box) returns (ratio: real)
    requires IsPositive(region) && IsPositive(bounds)
    requires region.width <= bounds.width && region.height <= bounds.height
    ensures ratio == Snapped(Share(region, bounds))
  {
    ShareInRange(region, bounds);
    AreaPositive(bounds);
    var share := Area(region) / Area(bounds);
    assert share == Share(region, bounds);
    ratio := share;
    if ratio < 0.0 {
      ratio := 0.0;
    }
    if ratio > 1.0 {
      ratio := 1.0;
    }
    if ratio > 1.0 - EPSILON {
      ratio := 1.0;
    }
  }

  lemma VisitedTouch(bounds: Box, seen: seq<Clip>, last: Clip)
    ensures (forall i :: 0 <= i < |seen + [last]| ==> Touches(bounds, (seen + [last])[i])) <==>
            (forall i :: 0 <= i < |seen| ==> Touches(bounds, seen[i])) && Touches(bounds, last)
  {
    var clips := seen + [last];
    assert clips[|seen|] == last && forall i :: 0 <= i < |seen| ==> clips[i] == seen[i];
  }

  /** What `ioGeometry` reports; `shown` is true of a rendered target inside the root. */
  method Geometry(shown: bool, bounds: Box, ancestors: seq<Clip>, rootBounds: Box, margin: Margin)
    returns (report: Report)
    ensures report == if shown then Seen(bounds, Visited(ancestors, Expanded(rootBounds, margin))) else MISS
  {
    if !shown {
      return MISS;
    }
    var root := Expanded(rootBounds, margin);
    var region, contained, visited := WalkAncestors(bounds, ancestors);
    var last := Clip(root, true, true);
    ghost var clips := ancestors[..visited] + [last];
    assert clips == Visited(ancestors, root);
    report := MISS;
    if IsPositive(bounds) {
      RegionSnoc(Some(bounds), ancestors[..visited], last);
      region := if region.Some? then Clipped(region.value, last) else None;
      if region.Some? {
        RegionIsPositive(Some(bounds), clips);
        RegionWithin(bounds, clips);
        var ratio := Ratio(region.value, bounds);
        report := Report(true, ratio, region.value);
      }
    } else {
      VisitedTouch(bounds, ancestors[..visited], last);
      if contained && Touches(bounds, last) {
        report := Report(true, 1.0, Box(bounds.x, bounds.y, 0.0, 0.0));
      }
    }
  }

  // ioIndex.

  function LastReached(thresholds: seq<real>, ratio: real, n: nat): (index: int)
    requires n <= |thresholds|
    ensures -1 <= index < n
  {
    if n == 0 then -1
    else if ratio + EPSILON >= thresholds[n - 1] then n - 1
    else LastReached(thresholds, ratio, n - 1)
  }

  /** The last threshold reached, -1 when none is or the target is not seen. */
  function Index(thresholds: seq<real>, report: Report): (index: int)
    ensures -1 <= index < |thresholds|
  {
    if report.intersecting then LastReached(thresholds, report.ratio, |thresholds|) else -1
  }

  method ThresholdIndex(thresholds: seq<real>, report: Report) returns (index: int)
    ensures index == Index(thresholds, report)
  {
    index := -1;
    if !report.intersecting {
      return;
    }
    for i := 0 to |thresholds|
      invariant index == LastReached(thresholds, report.ratio, i)
    {
      if report.ratio + EPSILON >= thresholds[i] {
        index := i;
      }
    }
  }

  predicate IsSorted(t: seq<real>) { forall i, j :: 0 <= i <= j < |t| ==> t[i] <= t[j] }

  /** Over the sorted thresholds of an observer the index separates those reached from those not. */
  lemma {:induction false} IndexSeparates(thresholds: seq<real>, ratio: real, n: nat, i: nat)
    requires IsSorted(thresholds) && i < n <= |thresholds|
    ensures thresholds[i] <= ratio + EPSILON <==> i <= LastReached(thresholds, ratio, n)
  {
    if i == n - 1 {
    } else {
      assert thresholds[i] <= thresholds[n - 1];
      IndexSeparates(thresholds, ratio, n - 1, i);
    }
  }
}
