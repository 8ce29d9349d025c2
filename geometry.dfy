/** The rounded-rectangle clip path: a closed figure recorded as the list of segments
    a path builder receives, over real-valued coordinates (y grows downwards). */
module Geometry {

  datatype Vector2 = Vector2(x: real, y: real)

  /** Per-corner radii of a rounded control or grid. */
  datatype CornerRadius = CornerRadius(topLeft: real, topRight: real, bottomRight: real, bottomLeft: real)

  datatype SweepDirection = Clockwise | CounterClockwise
  datatype ArcSize = Small | Large
  datatype FigureLoop = Open | Closed

  /** One call on the path builder after the figure's start. `rotation` is the rotation angle argument as passed. */
  datatype Segment =
    | Line(to: Vector2)
    | Arc(to: Vector2, radiusX: real, radiusY: real, rotation: real, sweep: SweepDirection, size: ArcSize)

  datatype Figure = Figure(start: Vector2, segments: seq<Segment>, loop: FigureLoop)

  /** The i-th point the figure passes through: its start, then the end of each segment. */
  function Vertex(f: Figure, i: nat): Vector2
    requires i <= |f.segments|
  {
    if i == 0 then f.start else f.segments[i - 1].to
  }

  /** The closed rounded rectangle of size (w, h): top edge, top-right corner, right edge,
      bottom-right corner, bottom edge, bottom-left corner, left edge, top-left corner. */
  function RoundedRectPath(w: real, h: real, cr: CornerRadius): Figure {
    var tl, tr, br, bl := cr.topLeft, cr.topRight, cr.bottomRight, cr.bottomLeft;
    Figure(
      Vector2(tl, 0.0),
      [ Line(Vector2(w - tr, 0.0)),
        Arc(Vector2(w, tr), tr, tr, 90.0, Clockwise, Small),
        Line(Vector2(w, h - br)),
        Arc(Vector2(w - br, h), br, br, 0.0, Clockwise, Small),
        Line(Vector2(bl, h)),
        Arc(Vector2(0.0, h - bl), bl, bl, 270.0, Clockwise, Small),
        Line(Vector2(0.0, tl)),
        Arc(Vector2(tl, 0.0), tl, tl, 180.0, Clockwise, Small) ],
      Closed)
  }

  /** The radius of the corner the arc at segment index i (1, 3, 5 or 7) rounds. */
  function CornerOf(cr: CornerRadius, i: nat): real {
    if i == 1 then cr.topRight
    else if i == 3 then cr.bottomRight
    else if i == 5 then cr.bottomLeft
    else cr.topLeft
  }

  /** The centre of the quarter circle that rounds the corner of the arc at segment index i. */
  function CornerCentre(w: real, h: real, cr: CornerRadius, i: nat): Vector2 {
    if i == 1 then Vector2(w - cr.topRight, cr.topRight)
    else if i == 3 then Vector2(w - cr.bottomRight, h - cr.bottomRight)
    else if i == 5 then Vector2(cr.bottomLeft, h - cr.bottomLeft)
    else Vector2(cr.topLeft, cr.topLeft)
  }

  function SqDist(p: Vector2, q: Vector2): real {
    (p.x - q.x) * (p.x - q.x) + (p.y - q.y) * (p.y - q.y)
  }

  /** Twice the signed area swept by the polyline through ps (shoelace sum); positive means
      clockwise on a screen whose y axis points down. */
  function ShoelaceSum(ps: seq<Vector2>): real
    decreases |ps|
  {
    if |ps| < 2 then 0.0
    else ps[0].x * ps[1].y - ps[1].x * ps[0].y + ShoelaceSum(ps[1..])
  }

  function Vertices(f: Figure): (vs: seq<Vector2>)
    ensures |vs| == |f.segments| + 1
    ensures forall i :: 0 <= i < |vs| ==> vs[i] == Vertex(f, i)
  {
    seq(|f.segments| + 1, i requires 0 <= i <= |f.segments| => Vertex(f, i))
  }

  /** The figure is closed, starts just right of the top-left corner, alternates straight
      edges and corner arcs, and every arc is a small clockwise arc with its own corner's radius. */
  lemma PathShape(w: real, h: real, cr: CornerRadius)
    ensures var f := RoundedRectPath(w, h, cr);
      && f.loop == Closed
      && f.start == Vector2(cr.topLeft, 0.0)
      && |f.segments| == 8
      && Vertex(f, 8) == f.start
      && (forall i :: 0 <= i < 8 && i % 2 == 0 ==> f.segments[i].Line?)
      && (forall i :: 0 <= i < 8 && i % 2 == 1 ==>
            && f.segments[i].Arc?
            && f.segments[i].sweep == Clockwise && f.segments[i].size == Small
            && f.segments[i].radiusX == f.segments[i].radiusY == CornerOf(cr, i))
  {
    var f := RoundedRectPath(w, h, cr);
    forall i | 0 <= i < 8
      ensures i % 2 == 0 ==> f.segments[i].Line?
      ensures i % 2 == 1 ==> f.segments[i].Arc? && f.segments[i].sweep == Clockwise && f.segments[i].size == Small
                             && f.segments[i].radiusX == f.segments[i].radiusY == CornerOf(cr, i)
    {
      assert i == 0 || i == 1 || i == 2 || i == 3 || i == 4 || i == 5 || i == 6 || i == 7;
    }
  }

  /** Every straight edge runs parallel to an axis and keeps the previous point's other
      coordinate: the top and bottom edges are horizontal, the left and right edges vertical. */
  lemma EdgesAxisParallel(w: real, h: real, cr: CornerRadius)
    ensures var f := RoundedRectPath(w, h, cr);
      forall i :: 0 <= i < 8 && i % 2 == 0 ==>
        (if i % 4 == 0 then Vertex(f, i).y == f.segments[i].to.y
         else Vertex(f, i).x == f.segments[i].to.x)
  {
    var f := RoundedRectPath(w, h, cr);
    forall i | 0 <= i < 8 && i % 2 == 0
      ensures if i % 4 == 0 then Vertex(f, i).y == f.segments[i].to.y else Vertex(f, i).x == f.segments[i].to.x
    {
      assert i == 0 || i == 2 || i == 4 || i == 6;
    }
  }

  /** Both end points of every corner arc (segment index i odd) lie on the circle of that
      corner's radius around the corner's centre. The end points are equally one radius from
      the opposite (concave) centre, so that the corner bulges outward rests on the clockwise
      sweep PathShape states, not on this lemma. */
  lemma ArcsAreQuarterCircles(w: real, h: real, cr: CornerRadius, i: nat)
    requires i == 1 || i == 3 || i == 5 || i == 7
    ensures var f, c, r := RoundedRectPath(w, h, cr), CornerCentre(w, h, cr, i), CornerOf(cr, i);
      SqDist(Vertex(f, i), c) == r * r && SqDist(f.segments[i].to, c) == r * r
  {
    var f := RoundedRectPath(w, h, cr);
    var tl, tr, br, bl := cr.topLeft, cr.topRight, cr.bottomRight, cr.bottomLeft;
    if i == 1 {
      assert Vertex(f, 1) == Vector2(w - tr, 0.0) && f.segments[1].to == Vector2(w, tr);
      OnCircle(Vector2(w - tr, 0.0), Vector2(w - tr, tr), tr);
      OnCircle(Vector2(w, tr), Vector2(w - tr, tr), tr);
    } else if i == 3 {
      assert Vertex(f, 3) == Vector2(w, h - br) && f.segments[3].to == Vector2(w - br, h);
      OnCircle(Vector2(w, h - br), Vector2(w - br, h - br), br);
      OnCircle(Vector2(w - br, h), Vector2(w - br, h - br), br);
    } else if i == 5 {
      assert Vertex(f, 5) == Vector2(bl, h) && f.segments[5].to == Vector2(0.0, h - bl);
      OnCircle(Vector2(bl, h), Vector2(bl, h - bl), bl);
      OnCircle(Vector2(0.0, h - bl), Vector2(bl, h - bl), bl);
    } else {
      assert Vertex(f, 7) == Vector2(0.0, tl) && f.segments[7].to == Vector2(tl, 0.0);
      OnCircle(Vector2(0.0, tl), Vector2(tl, tl), tl);
      OnCircle(Vector2(tl, 0.0), Vector2(tl, tl), tl);
    }
  }

  /** A point one radius away from a centre along an axis lies on the circle around it. */
  lemma OnCircle(p: Vector2, c: Vector2, r: real)
    requires (p.x == c.x && (p.y - c.y == r || p.y - c.y == -r)) || (p.y == c.y && (p.x - c.x == r || p.x - c.x == -r))
    ensures SqDist(p, c) == r * r
  {
    if p.x == c.x {
      assert (p.y - c.y) * (p.y - c.y) == r * r;
    } else {
      assert (p.x - c.x) * (p.x - c.x) == r * r;
    }
  }

  /** When the radii fit the element (adjacent radii never exceed the side they share),
      every vertex of the figure (its start and the end of each segment) lies inside the
      element's bounds; the arcs between vertices are not bounded here. */
  lemma PathInsideBounds(w: real, h: real, cr: CornerRadius)
    requires 0.0 <= cr.topLeft && 0.0 <= cr.topRight && 0.0 <= cr.bottomRight && 0.0 <= cr.bottomLeft
    requires cr.topLeft + cr.topRight <= w && cr.bottomLeft + cr.bottomRight <= w
    requires cr.topRight + cr.bottomRight <= h && cr.topLeft + cr.bottomLeft <= h
    ensures var f := RoundedRectPath(w, h, cr);
      forall i :: 0 <= i <= 8 ==> 0.0 <= Vertex(f, i).x <= w && 0.0 <= Vertex(f, i).y <= h
  {
    var f := RoundedRectPath(w, h, cr);
    forall i | 0 <= i <= 8
      ensures 0.0 <= Vertex(f, i).x <= w && 0.0 <= Vertex(f, i).y <= h
    {
      assert i == 0 || i == 1 || i == 2 || i == 3 || i == 4 || i == 5 || i == 6 || i == 7 || i == 8;
    }
  }

  /** Twice the signed area of the triangle (origin, p, q). */
  function Cross(p: Vector2, q: Vector2): real {
    p.x * q.y - q.x * p.y
  }

  /** One step of the shoelace sum over a suffix. */
  lemma ShoelaceStep(ps: seq<Vector2>, k: nat)
    requires k + 1 < |ps|
    ensures ShoelaceSum(ps[k..]) == Cross(ps[k], ps[k + 1]) + ShoelaceSum(ps[k + 1..])
  {
    assert ps[k..][1..] == ps[k + 1..];
  }

  /** The shoelace sum of nine points is the sum of the eight consecutive cross products. */
  lemma ShoelaceNine(ps: seq<Vector2>)
    requires |ps| == 9
    ensures ShoelaceSum(ps) == Cross(ps[0], ps[1]) + Cross(ps[1], ps[2]) + Cross(ps[2], ps[3]) + Cross(ps[3], ps[4])
                             + Cross(ps[4], ps[5]) + Cross(ps[5], ps[6]) + Cross(ps[6], ps[7]) + Cross(ps[7], ps[8])
  {
    assert ShoelaceSum(ps[8..]) == 0.0;
    ShoelaceStep(ps, 7);
    ShoelaceStep(ps, 6);
    ShoelaceStep(ps, 5);
    ShoelaceStep(ps, 4);
    ShoelaceStep(ps, 3);
    ShoelaceStep(ps, 2);
    ShoelaceStep(ps, 1);
    ShoelaceStep(ps, 0);
    assert ps[0..] == ps;
  }

  /** The eight cross products of the rounded rectangle's points add up to 2wh minus the sum
      of the squared radii. */
  lemma AreaAlgebra(w: real, h: real, tl: real, tr: real, br: real, bl: real)
    ensures Cross(Vector2(tl, 0.0), Vector2(w - tr, 0.0)) + Cross(Vector2(w - tr, 0.0), Vector2(w, tr))
            + Cross(Vector2(w, tr), Vector2(w, h - br)) + Cross(Vector2(w, h - br), Vector2(w - br, h))
            + Cross(Vector2(w - br, h), Vector2(bl, h)) + Cross(Vector2(bl, h), Vector2(0.0, h - bl))
            + Cross(Vector2(0.0, h - bl), Vector2(0.0, tl)) + Cross(Vector2(0.0, tl), Vector2(tl, 0.0))
            == 2.0 * w * h - (tl * tl + tr * tr + br * br + bl * bl)
  {
    assert Cross(Vector2(tl, 0.0), Vector2(w - tr, 0.0)) == 0.0;
    assert Cross(Vector2(w - tr, 0.0), Vector2(w, tr)) == w * tr - tr * tr;
    assert Cross(Vector2(w, tr), Vector2(w, h - br)) == w * h - w * br - w * tr;
    assert Cross(Vector2(w, h - br), Vector2(w - br, h)) == w * br + br * h - br * br;
    assert Cross(Vector2(w - br, h), Vector2(bl, h)) == w * h - br * h - bl * h;
    assert Cross(Vector2(bl, h), Vector2(0.0, h - bl)) == bl * h - bl * bl;
    assert Cross(Vector2(0.0, h - bl), Vector2(0.0, tl)) == 0.0;
    assert Cross(Vector2(0.0, tl), Vector2(tl, 0.0)) == - tl * tl;
  }

  /** The polygon through the figure's points encloses the rectangle minus the four corner
      triangles: twice its signed area is 2wh minus the sum of the squared radii. */
  lemma PathSignedArea(w: real, h: real, cr: CornerRadius)
    ensures ShoelaceSum(Vertices(RoundedRectPath(w, h, cr)))
            == 2.0 * w * h - (cr.topLeft * cr.topLeft + cr.topRight * cr.topRight
                              + cr.bottomRight * cr.bottomRight + cr.bottomLeft * cr.bottomLeft)
  {
    var vs := Vertices(RoundedRectPath(w, h, cr));
    var tl, tr, br, bl := cr.topLeft, cr.topRight, cr.bottomRight, cr.bottomLeft;
    assert vs == [Vector2(tl, 0.0), Vector2(w - tr, 0.0), Vector2(w, tr), Vector2(w, h - br),
                  Vector2(w - br, h), Vector2(bl, h), Vector2(0.0, h - bl), Vector2(0.0, tl), Vector2(tl, 0.0)];
    ShoelaceNine(vs);
    AreaAlgebra(w, h, tl, tr, br, bl);
  }

  lemma ProductBound(r: real, a: real, b: real)
    requires 0.0 <= r && 2.0 * r <= a && 2.0 * r <= b
    ensures 4.0 * (r * r) <= a * b
  {
    assert (2.0 * r) * (2.0 * r) <= a * (2.0 * r);
    assert a * (2.0 * r) <= a * b;
  }

  /** For a non-empty element whose radii are at most half its shorter side, the figure is
      traced clockwise on screen: its signed area is positive. */
  lemma PathIsClockwise(w: real, h: real, cr: CornerRadius)
    requires 0.0 < w && 0.0 < h
    requires 0.0 <= cr.topLeft && 2.0 * cr.topLeft <= w && 2.0 * cr.topLeft <= h
    requires 0.0 <= cr.topRight && 2.0 * cr.topRight <= w && 2.0 * cr.topRight <= h
    requires 0.0 <= cr.bottomRight && 2.0 * cr.bottomRight <= w && 2.0 * cr.bottomRight <= h
    requires 0.0 <= cr.bottomLeft && 2.0 * cr.bottomLeft <= w && 2.0 * cr.bottomLeft <= h
    ensures ShoelaceSum(Vertices(RoundedRectPath(w, h, cr))) > 0.0
  {
    PathSignedArea(w, h, cr);
    SquaresBelowArea(w, h, cr);
  }

  /** Radii of at most half the shorter side leave the four squared radii below 2wh. */
  lemma SquaresBelowArea(w: real, h: real, cr: CornerRadius)
    requires 0.0 < w && 0.0 < h
    requires 0.0 <= cr.topLeft && 2.0 * cr.topLeft <= w && 2.0 * cr.topLeft <= h
    requires 0.0 <= cr.topRight && 2.0 * cr.topRight <= w && 2.0 * cr.topRight <= h
    requires 0.0 <= cr.bottomRight && 2.0 * cr.bottomRight <= w && 2.0 * cr.bottomRight <= h
    requires 0.0 <= cr.bottomLeft && 2.0 * cr.bottomLeft <= w && 2.0 * cr.bottomLeft <= h
    ensures cr.topLeft * cr.topLeft + cr.topRight * cr.topRight
            + cr.bottomRight * cr.bottomRight + cr.bottomLeft * cr.bottomLeft < 2.0 * w * h
  {
    var area := w * h;
    assert 0.0 < area by { assert 0.0 < w * h; }
    ProductBound(cr.topLeft, w, h);
    ProductBound(cr.topRight, w, h);
    ProductBound(cr.bottomRight, w, h);
    ProductBound(cr.bottomLeft, w, h);
    assert 2.0 * w * h == 2.0 * area;
  }

  /** A 100 x 50 element with all radii 10: four arcs of radius 10, straight top and bottom
      edges of length 80 and straight side edges of length 30. */
  lemma UniformRadiusExample()
    ensures var f := RoundedRectPath(100.0, 50.0, CornerRadius(10.0, 10.0, 10.0, 10.0));
      && (forall i :: 0 <= i < 8 && i % 2 == 1 ==> f.segments[i].radiusX == 10.0 && f.segments[i].radiusY == 10.0)
      && f.segments[0].to.x - Vertex(f, 0).x == 80.0
      && Vertex(f, 4).x - f.segments[4].to.x == 80.0
      && f.segments[2].to.y - Vertex(f, 2).y == 30.0
      && Vertex(f, 6).y - f.segments[6].to.y == 30.0
  {
    PathShape(100.0, 50.0, CornerRadius(10.0, 10.0, 10.0, 10.0));
  }
}
