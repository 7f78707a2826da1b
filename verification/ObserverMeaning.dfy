/** What an IntersectionObserver report means (document_loader.rs, `ioGeometry`): points, edges and areas. */
module ObserverMeaning {
  import opened Wrappers
  import opened ObserverGeometry

  /** A percentage of an edge's box, or pixels. */
  function Shift(e: Edge, size: real): real { if e.percent then size * e.value / 100.0 else e.value }

  /** The root margin moves each edge outwards: top and bottom by parts of the height, left and right by parts of the
      width. */
  lemma ExpandedEdges(box: Box, m: Margin)
    ensures var r := Expanded(box, m);
      && r.x == box.x - Shift(m.left, box.width) && r.Right() == box.Right() + Shift(m.right, box.width)
      && r.y == box.y - Shift(m.top, box.height) && r.Bottom() == box.Bottom() + Shift(m.bottom, box.height)
  {
  }

  /** A report of a target with an area covers exactly the points inside the target, inside the first 64 ancestors
      where they clip, and inside the root. */
  lemma ReportCovers(bounds: Box, ancestors: seq<Clip>, root: Box, x: real, y: real)
    requires IsPositive(bounds)
    ensures var r := Seen(bounds, Visited(ancestors, root));
      (r.intersecting && Inside(r.rect, x, y)) <==>
        && Inside(bounds, x, y) && Inside(root, x, y)
        && forall i :: 0 <= i < |ancestors| && i < 64 ==>
             (ancestors[i].clipX ==> ancestors[i].box.x < x < ancestors[i].box.Right()) &&
             (ancestors[i].clipY ==> ancestors[i].box.y < y < ancestors[i].box.Bottom())
  {
    var clips := Visited(ancestors, root);
    RegionIsIntersection(Some(bounds), clips, x, y);
    RatioInRange(bounds, clips);
    var n := |clips| - 1;
    assert clips[n] == Clip(root, true, true) && forall i :: 0 <= i < n ==> clips[i] == ancestors[i];
    assert InsideAll(clips, x, y) <==> Inside(root, x, y) && forall i :: 0 <= i < n ==> InsideClip(ancestors[i], x, y);
  }

  /** It is reported as intersecting exactly when there is such a point. */
  lemma ReportIffPoint(bounds: Box, ancestors: seq<Clip>, root: Box)
    requires IsPositive(bounds)
    ensures var clips := Visited(ancestors, root);
      Seen(bounds, clips).intersecting <==> exists x, y :: Inside(bounds, x, y) && InsideAll(clips, x, y)
  {
    var clips := Visited(ancestors, root);
    var r := Seen(bounds, clips);
    if r.intersecting {
      RatioInRange(bounds, clips);
      var x, y := Middle(r.rect.x, r.rect.Right()), Middle(r.rect.y, r.rect.Bottom());
      RegionIsIntersection(Some(bounds), clips, x, y);
      assert Inside(bounds, x, y) && InsideAll(clips, x, y);
    } else {
      forall x, y ensures !(Inside(bounds, x, y) && InsideAll(clips, x, y)) {
        RegionIsIntersection(Some(bounds), clips, x, y);
      }
    }
  }

  predicate IsRatio(ratio: real, covered: real, whole: real) {
    if covered > whole * (1.0 - 0.000001) then ratio == 1.0 else ratio * whole == covered
  }

  /** The ratio is the part of the target's area that the reported rectangle covers, or one when all but a millionth
      is covered. */
  lemma RatioIsArea(bounds: Box, clips: seq<Clip>)
    requires IsPositive(bounds) && Seen(bounds, clips).intersecting
    ensures IsRatio(Seen(bounds, clips).ratio, Area(Seen(bounds, clips).rect), Area(bounds))
  {
    SeenRatio(bounds, clips);
    SnappedShare(Area(Seen(bounds, clips).rect), Area(bounds));
  }

  /** The area of a box cut in two is the sum of the two areas, and that of a unit square is one. */
  lemma AreaAdds(box: Box, part: real)
    ensures Area(box) == Area(box.(width := part)) + Area(box.(width := box.width - part))
    ensures Area(box) == Area(box.(height := part)) + Area(box.(height := box.height - part))
    ensures Area(Box(box.x, box.y, 1.0, 1.0)) == 1.0
  {
    assert box.width * box.height == part * box.height + (box.width - part) * box.height;
    assert box.width * box.height == box.width * part + box.width * (box.height - part);
  }

  lemma SeenRatio(bounds: Box, clips: seq<Clip>)
    requires IsPositive(bounds) && Seen(bounds, clips).intersecting
    ensures Area(bounds) > 0.0
    ensures Seen(bounds, clips).ratio == Snapped(Area(Seen(bounds, clips).rect) / Area(bounds))
  {
    AreaPositive(bounds);
  }

  lemma SnappedShare(part: real, whole: real)
    requires whole > 0.0
    ensures IsRatio(Snapped(part / whole), part, whole)
  {
    ShareTimes(part, whole);
  }

  lemma ShareTimes(part: real, whole: real)
    requires whole > 0.0
    ensures part / whole * whole == part
    ensures part > whole * (1.0 - EPSILON) <==> part / whole > 1.0 - EPSILON
  {
    var q := part / whole;
    assert q * whole == part;
    if q > 1.0 - EPSILON {
      MulGrows(1.0 - EPSILON, q, whole);
    } else {
      MulMonotone(q, 1.0 - EPSILON, whole);
    }
  }

  lemma MulGrows(a: real, b: real, w: real)
    requires a < b && w > 0.0
    ensures w * a < b * w
  {
  }

  lemma MulMonotone(a: real, b: real, w: real)
    requires a <= b && w > 0.0
    ensures a * w <= w * b
  {
  }

  // Targets without an area.

  /** `(x, y)` lies in the box or on its edge. */
  predicate Within(b: Box, x: real, y: real) { b.x <= x <= b.Right() && b.y <= y <= b.Bottom() }

  predicate WithinClip(c: Clip, x: real, y: real) {
    (c.clipX ==> c.box.x <= x <= c.box.Right()) && (c.clipY ==> c.box.y <= y <= c.box.Bottom())
  }

  /** A box touches a clip exactly when they share a point, edges included. */
  lemma TouchesIsMeeting(b: Box, c: Clip)
    requires b.width >= 0.0 && b.height >= 0.0 && c.box.width >= 0.0 && c.box.height >= 0.0
    ensures Touches(b, c) <==> exists x, y :: Within(b, x, y) && WithinClip(c, x, y)
  {
    if Touches(b, c) {
      var x := if c.clipX then Max(b.x, c.box.x) else b.x;
      var y := if c.clipY then Max(b.y, c.box.y) else b.y;
      assert Within(b, x, y) && WithinClip(c, x, y);
    }
  }

  /** A target without an area is seen wholly, at its own place, exactly when it touches every clip. */
  lemma EmptyTargetSeen(bounds: Box, clips: seq<Clip>)
    requires !IsPositive(bounds)
    ensures var r := Seen(bounds, clips);
      if forall i :: 0 <= i < |clips| ==> Touches(bounds, clips[i]) then
        r.intersecting && r.ratio == 1.0 && r.rect.x == bounds.x && r.rect.y == bounds.y
        && r.rect.width == r.rect.height == 0.0
      else !r.intersecting && r.ratio == 0.0
  {
  }

  /** The index counts the thresholds reached, less one; a target out of sight reaches none. */
  lemma IndexCounts(thresholds: seq<real>, report: Report, i: nat)
    requires IsSorted(thresholds) && i < |thresholds|
    ensures i <= Index(thresholds, report) <==> report.intersecting && thresholds[i] <= report.ratio + 0.000001
  {
    IndexSeparates(thresholds, report.ratio, |thresholds|, i);
  }
}
