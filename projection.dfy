/**
 * Projection from BEV pixels into vehicle metres, with range gating (the
 * second half of `detect_objects`).
 *
 * The BEV image's vertical pixel axis is the vehicle's longitudinal x and its
 * horizontal axis the vehicle's lateral y, re-centred by half the lateral
 * span. A projected box is kept exactly when its x, y and z fall inside the
 * configured limits; the others are dropped without an error.
 */
module Projection {
  import opened Types

  /**
   * One candidate in vehicle space. The class id becomes 1; z, the box height
   * and the yaw pass through unchanged; only x, y, width and length are scaled.
   */
  function Project(g: Geometry, obj: Box): (o: Box)
    requires g.Valid()
    ensures o.id == 1.0
    ensures o.z == obj.z && o.height == obj.height && o.yaw == obj.yaw
  {
    var spanX := g.limX.hi - g.limX.lo;
    var spanY := g.limY.hi - g.limY.lo;
    Box(1.0,
        obj.y / g.bevHeight * spanX,
        obj.x / g.bevWidth * spanY - spanY / 2.0,
        obj.z,
        obj.height,
        obj.width / g.bevWidth * spanY,
        obj.length / g.bevHeight * spanX,
        obj.yaw)
  }

  /** The inverse of Project, back to BEV pixels; defined when both spans are non-zero. */
  function Unproject(g: Geometry, o: Box): Box
    requires g.Valid() && g.limX.Span() > 0.0 && g.limY.Span() > 0.0
  {
    var spanX := g.limX.Span();
    var spanY := g.limY.Span();
    Box(o.id,
        (o.y + spanY / 2.0) / spanY * g.bevWidth,
        o.x / spanX * g.bevHeight,
        o.z,
        o.height,
        o.width / spanY * g.bevWidth,
        o.length / spanX * g.bevHeight,
        o.yaw)
  }

  /** Scaling by s / d and back by d / s is the identity. */
  lemma ScaleBack(v: real, d: real, s: real)
    requires d > 0.0 && s > 0.0
    ensures v / d * s / s * d == v
  {
    var u := v / d;
    assert u * d == v;
    assert u * s / s == u;
  }

  /**
   * With non-degenerate limits the projection loses nothing but the class id:
   * mapping back recovers the BEV candidate.
   */
  lemma ProjectRoundTrip(g: Geometry, b: Box)
    requires g.Valid() && g.limX.Span() > 0.0 && g.limY.Span() > 0.0
    ensures Unproject(g, Project(g, b)) == b.(id := 1.0)
  {
    var spanX, spanY := g.limX.Span(), g.limY.Span();
    var o := Project(g, b);
    ScaleBack(b.y, g.bevHeight, spanX);
    ScaleBack(b.x, g.bevWidth, spanY);
    ScaleBack(b.width, g.bevWidth, spanY);
    ScaleBack(b.length, g.bevHeight, spanX);
    assert o.y + spanY / 2.0 == b.x / g.bevWidth * spanY;
  }

  /** The range gate: x, y and z inside their limits, bounds included. */
  predicate InLimits(g: Geometry, o: Box)
    ensures InLimits(g, o) ==> g.limX.Ordered() && g.limY.Ordered() && g.limZ.Ordered()
    ensures InLimits(g, o) <==> g.limX.lo <= o.x <= g.limX.hi && g.limY.lo <= o.y <= g.limY.hi
                                && g.limZ.lo <= o.z <= g.limZ.hi
  {
    g.limX.Contains(o.x) && g.limY.Contains(o.y) && g.limZ.Contains(o.z)
  }

  /**
   * The object list the projection loop builds: every detection projected, in
   * input order, keeping those that pass the gate. No more objects than
   * detections come out, and each one is in range and of class 1.
   */
  function Objects(g: Geometry, detections: seq<Box>): (objects: seq<Box>)
    requires g.Valid()
    ensures |objects| <= |detections|
    ensures forall k :: 0 <= k < |objects| ==> InLimits(g, objects[k]) && objects[k].id == 1.0
  {
    if detections == [] then []
    else
      var rest := Objects(g, detections[..|detections| - 1]);
      var o := Project(g, detections[|detections| - 1]);
      if InLimits(g, o) then rest + [o] else rest
  }

  /** The positions of the detections whose projection passes the gate, in increasing order. */
  function Kept(g: Geometry, detections: seq<Box>): seq<nat>
    requires g.Valid()
  {
    if detections == [] then []
    else
      var rest := Kept(g, detections[..|detections| - 1]);
      if InLimits(g, Project(g, detections[|detections| - 1])) then rest + [|detections| - 1] else rest
  }

  /**
   * The objects are exactly the order-preserving subsequence of projected
   * detections that pass the gate: the k-th object is the projection of the
   * Kept[k]-th detection, Kept is strictly increasing, and a position is kept
   * if and only if its projection passes the gate.
   */
  lemma {:induction false} ObjectsAreKeptProjections(g: Geometry, detections: seq<Box>)
    requires g.Valid()
    ensures |Objects(g, detections)| == |Kept(g, detections)|
    ensures forall k :: 0 <= k < |Kept(g, detections)| ==>
      Kept(g, detections)[k] < |detections|
      && Objects(g, detections)[k] == Project(g, detections[Kept(g, detections)[k]])
    ensures forall k, m :: 0 <= k < m < |Kept(g, detections)| ==> Kept(g, detections)[k] < Kept(g, detections)[m]
    ensures forall i :: 0 <= i < |detections| ==>
      (i in Kept(g, detections) <==> InLimits(g, Project(g, detections[i])))
  {
    if detections != [] {
      var init := detections[..|detections| - 1];
      ObjectsAreKeptProjections(g, init);
      assert forall i :: 0 <= i < |init| ==> init[i] == detections[i];
    }
  }

  /** Projection distributes over concatenation of detection lists. */
  lemma {:induction false} ObjectsAppend(g: Geometry, d: seq<Box>, e: seq<Box>)
    requires g.Valid()
    ensures Objects(g, d + e) == Objects(g, d) + Objects(g, e)
    decreases |e|
  {
    if e == [] {
      assert d + e == d;
    } else {
      var init, last := e[..|e| - 1], e[|e| - 1];
      assert (d + e)[..|d + e| - 1] == d + init;
      assert (d + e)[|d + e| - 1] == last;
      ObjectsAppend(g, d, init);
    }
  }

  lemma ObjectsPrefix(g: Geometry, detections: seq<Box>, i: nat)
    requires g.Valid() && i < |detections|
    ensures var o := Project(g, detections[i]);
      Objects(g, detections[..i + 1]) == if InLimits(g, o) then Objects(g, detections[..i]) + [o] else Objects(g, detections[..i])
  {
    assert detections[..i + 1][..i] == detections[..i];
  }

  /**
   * The projection loop: an empty detection list gives an empty object list;
   * otherwise every detection is projected and appended when it passes the gate.
   */
  method ExtractObjects(g: Geometry, detections: seq<Box>) returns (objects: seq<Box>)
    requires g.Valid()
    ensures objects == Objects(g, detections)
  {
    objects := [];
    if |detections| > 0 {
      for i := 0 to |detections|
        invariant objects == Objects(g, detections[..i])
      {
        ObjectsPrefix(g, detections, i);
        var obj := Project(g, detections[i]);
        if InLimits(g, obj) {
          objects := objects + [obj];
        }
      }
      assert detections[..|detections|] == detections;
    }
  }

  /** A value scaled from [0, d] to [0, s] stays in [0, s] exactly when it started in [0, d]. */
  lemma ScaledInside(v: real, d: real, s: real)
    requires d > 0.0 && s > 0.0
    ensures 0.0 <= v / d * s <= s <==> 0.0 <= v <= d
  {
    var u := v / d;
    assert v == u * d;
    assert 0.0 <= u * s <==> 0.0 <= u;
    assert u * s <= s <==> u <= 1.0;
    assert 0.0 <= u <==> 0.0 <= v;
    assert u <= 1.0 <==> v <= d;
  }

  /**
   * The transform ignores the lower x limit and re-centres y by half its span,
   * so when x starts at 0 and y is symmetric (as in the shipped configuration)
   * the gate on x and y keeps exactly the candidates inside the BEV image.
   */
  lemma GateIsImageExtent(g: Geometry, b: Box)
    requires g.Valid() && g.limX.lo == 0.0 && g.limX.hi > 0.0
    requires g.limY.lo == -g.limY.hi && g.limY.hi > 0.0
    ensures InLimits(g, Project(g, b))
            <==> 0.0 <= b.x <= g.bevWidth && 0.0 <= b.y <= g.bevHeight && g.limZ.Contains(b.z)
  {
    XGateIsImageHeight(g, b);
    YGateIsImageWidth(g, b);
    assert InLimits(g, Project(g, b))
           <==> g.limX.Contains(Project(g, b).x) && g.limY.Contains(Project(g, b).y) && g.limZ.Contains(b.z);
  }

  lemma XGateIsImageHeight(g: Geometry, b: Box)
    requires g.Valid() && g.limX.lo == 0.0 && g.limX.hi > 0.0
    ensures g.limX.Contains(Project(g, b).x) <==> 0.0 <= b.y <= g.bevHeight
  {
    var spanX := g.limX.hi - g.limX.lo;
    var sx := b.y / g.bevHeight * spanX;
    assert Project(g, b).x == sx;
    assert spanX == g.limX.hi;
    assert g.limX.Contains(sx) <==> 0.0 <= sx <= spanX;
    ScaledInside(b.y, g.bevHeight, spanX);
  }

  lemma YGateIsImageWidth(g: Geometry, b: Box)
    requires g.Valid() && g.limY.lo == -g.limY.hi && g.limY.hi > 0.0
    ensures g.limY.Contains(Project(g, b).y) <==> 0.0 <= b.x <= g.bevWidth
  {
    var spanY := g.limY.hi - g.limY.lo;
    var sy := b.x / g.bevWidth * spanY;
    assert Project(g, b).y == sy - spanY / 2.0;
    assert spanY / 2.0 == g.limY.hi;
    ScaledInside(b.x, g.bevWidth, spanY);
  }
}
