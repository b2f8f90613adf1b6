/** Trigger regions and the watcher that fires them, over exact reals. */
module Triggers {
  import opened Events

  datatype Vec2 = Vec2(x: real, y: real)
  datatype Vec3 = Vec3(x: real, y: real, z: real)

  datatype Shape =
    | Sphere(position: Vec3, radius: real)
    | Plane(side1: Vec2, side2: Vec2, height: real, z: real, thickness: real)

  function Sub(a: Vec2, b: Vec2): Vec2 {
    Vec2(a.x - b.x, a.y - b.y)
  }

  function Dot(a: Vec2, b: Vec2): real {
    a.x * b.x + a.y * b.y
  }

  /** The squared length of a - b. */
  function Gap2(a: Vec2, b: Vec2): real {
    Dot(Sub(a, b), Sub(a, b))
  }

  function Gap3(a: Vec3, b: Vec3): real {
    (a.x - b.x) * (a.x - b.x) + (a.y - b.y) * (a.y - b.y) + (a.z - b.z) * (a.z - b.z)
  }

  /** The point at alpha on the line from a to b. */
  function Mix(a: Vec2, b: Vec2, alpha: real): Vec2 {
    Vec2((1.0 - alpha) * a.x + alpha * b.x, (1.0 - alpha) * a.y + alpha * b.y)
  }

  /** norm < limit, said of the norm's square. */
  predicate NormBelow(square: real, limit: real) {
    limit > 0.0 && square < limit * limit
  }

  lemma NormBelowIsNormBelow(norm: real, limit: real)
    requires norm >= 0.0
    ensures NormBelow(norm * norm, limit) <==> norm < limit
  {
    if limit > 0.0 {
      if norm < limit {
        SquareGrows(norm, limit);
      } else {
        SquareKeepsOrder(limit, norm);
      }
    }
  }

  lemma SquareGrows(a: real, b: real)
    requires 0.0 <= a < b
    ensures a * a < b * b
  {
    calc {
      a * a;
    <=
      a * b;
    <
      b * b;
    }
  }

  lemma SquareKeepsOrder(a: real, b: real)
    requires 0.0 <= a <= b
    ensures a * a <= b * b
  {
    if a < b {
      SquareGrows(a, b);
    }
  }

  /** Where the player's projection falls along the plane's base line. */
  function Alpha(side1: Vec2, side2: Vec2, p: Vec2): real
    requires side1 != side2
  {
    DistinctHaveGap(side1, side2);
    Dot(Sub(side2, side1), Sub(p, side1)) / Gap2(side2, side1)
  }

  lemma DistinctHaveGap(a: Vec2, b: Vec2)
    requires a != b
    ensures Gap2(b, a) > 0.0
  {
    var d := Sub(b, a);
    assert d.x != 0.0 || d.y != 0.0;
    calc {
      Gap2(b, a);
    ==
      d.x * d.x + d.y * d.y;
    > { SquaresPositive(d.x, d.y); }
      0.0;
    }
  }

  lemma SquaresPositive(x: real, y: real)
    requires x != 0.0 || y != 0.0
    ensures x * x + y * y > 0.0
  {
    if x != 0.0 {
      calc {
        x * x + y * y;
      >= { assert y * y >= 0.0; }
        x * x;
      >
        0.0;
      }
    } else {
      calc {
        x * x + y * y;
      >= { assert x * x >= 0.0; }
        y * y;
      >
        0.0;
      }
    }
  }

  /** With equal sides the quotient is not a number and every comparison with it fails. */
  predicate Check(shape: Shape, p: Vec3) {
    match shape
    case Sphere(position, radius) => NormBelow(Gap3(position, p), radius)
    case Plane(side1, side2, height, z, thickness) =>
      && z < p.z < z + height
      && side1 != side2
      && var p2 := Vec2(p.x, p.y);
         var alpha := Alpha(side1, side2, p2);
         0.0 <= alpha <= 1.0 && NormBelow(Gap2(Mix(side1, side2, alpha), p2), thickness)
  }

  function Middle(shape: Shape): Vec3 {
    match shape
    case Sphere(position, _) => position
    case Plane(side1, side2, height, z, _) =>
      Vec3((side1.x + side2.x) / 2.0, (side1.y + side2.y) / 2.0, z + height / 2.0)
  }

  // ---------- Geometry ----------

  /** Along the line the squared distance to p is a parabola with its vertex at Alpha. */
  lemma DistanceFromVertex(a: Vec2, b: Vec2, p: Vec2, t: real)
    requires a != b
    ensures var alpha := Alpha(a, b, p);
      Gap2(Mix(a, b, t), p) == Gap2(Mix(a, b, alpha), p) + (t - alpha) * (t - alpha) * Gap2(b, a)
  {
    DistinctHaveGap(a, b);
    var dx, dy, ex, ey := b.x - a.x, b.y - a.y, p.x - a.x, p.y - a.y;
    var d2, de, e2 := dx * dx + dy * dy, dx * ex + dy * ey, ex * ex + ey * ey;
    var alpha := Alpha(a, b, p);
    assert alpha * d2 == de;
    AlongLine(a, b, p, t);
    AlongLine(a, b, p, alpha);
    Parabola(d2, de, e2, alpha, t);
  }

  lemma AlongLine(a: Vec2, b: Vec2, p: Vec2, t: real)
    ensures var dx, dy, ex, ey := b.x - a.x, b.y - a.y, p.x - a.x, p.y - a.y;
      Gap2(Mix(a, b, t), p) == t * t * (dx * dx + dy * dy) - 2.0 * t * (dx * ex + dy * ey) + (ex * ex + ey * ey)
  {
    var dx, dy, ex, ey := b.x - a.x, b.y - a.y, p.x - a.x, p.y - a.y;
    var m := Mix(a, b, t);
    assert m.x - p.x == t * dx - ex;
    assert m.y - p.y == t * dy - ey;
    SquareOfDifference(t, dx, ex);
    SquareOfDifference(t, dy, ey);
  }

  lemma SquareOfDifference(t: real, d: real, e: real)
    ensures (t * d - e) * (t * d - e) == t * t * (d * d) - 2.0 * t * (d * e) + e * e
  {
  }

  lemma Parabola(d2: real, de: real, e2: real, alpha: real, t: real)
    requires alpha * d2 == de
    ensures t * t * d2 - 2.0 * t * de + e2
         == (alpha * alpha * d2 - 2.0 * alpha * de + e2) + (t - alpha) * (t - alpha) * d2
  {
    assert t * de == t * alpha * d2;
    assert alpha * de == alpha * alpha * d2;
    assert (t - alpha) * (t - alpha) == t * t - 2.0 * (t * alpha) + alpha * alpha;
    assert (t - alpha) * (t - alpha) * d2 == t * t * d2 - 2.0 * (t * alpha) * d2 + alpha * alpha * d2;
  }

  /** Some point of the base segment is within thickness of p. */
  ghost predicate NearSegment(a: Vec2, b: Vec2, p: Vec2, thickness: real) {
    exists t :: 0.0 <= t <= 1.0 && NormBelow(Gap2(Mix(a, b, t), p), thickness)
  }

  /**
   * A plane accepts a point exactly when it is in the height band, beside the base segment, and less than
   * thickness away from the segment's nearest point, which is the projected point it measures to.
   */
  lemma PlaneAcceptsNearSegment(shape: Shape, p: Vec3)
    requires shape.Plane?
    ensures Check(shape, p) <==>
      && shape.z < p.z < shape.z + shape.height && shape.side1 != shape.side2
      && 0.0 <= Alpha(shape.side1, shape.side2, Vec2(p.x, p.y)) <= 1.0
      && NearSegment(shape.side1, shape.side2, Vec2(p.x, p.y), shape.thickness)
    ensures shape.side1 != shape.side2 ==>
      forall t :: Gap2(Mix(shape.side1, shape.side2, Alpha(shape.side1, shape.side2, Vec2(p.x, p.y))), Vec2(p.x, p.y))
               <= Gap2(Mix(shape.side1, shape.side2, t), Vec2(p.x, p.y))
  {
    var a, b, q := shape.side1, shape.side2, Vec2(p.x, p.y);
    if a != b {
      var alpha := Alpha(a, b, q);
      forall t
        ensures Gap2(Mix(a, b, alpha), q) <= Gap2(Mix(a, b, t), q)
      {
        ProjectionIsNearest(a, b, q, t);
      }
    }
  }

  lemma ProjectionIsNearest(a: Vec2, b: Vec2, p: Vec2, t: real)
    requires a != b
    ensures Gap2(Mix(a, b, Alpha(a, b, p)), p) <= Gap2(Mix(a, b, t), p)
  {
    var d := t - Alpha(a, b, p);
    DistanceFromVertex(a, b, p, t);
    DistinctHaveGap(a, b);
    assert d * d >= 0.0;
    assert d * d * Gap2(b, a) >= 0.0;
  }

  /** The two sides of a plane are interchangeable. */
  lemma PlaneIsSymmetric(shape: Shape, p: Vec3)
    requires shape.Plane?
    ensures Check(shape, p) <==> Check(shape.(side1 := shape.side2, side2 := shape.side1), p)
  {
    if shape.side1 != shape.side2 {
      var a, b, q := shape.side1, shape.side2, Vec2(p.x, p.y);
      AlphaFlips(a, b, q);
      var alpha := Alpha(a, b, q);
      MixFlips(a, b, alpha);
    }
  }

  lemma MixFlips(a: Vec2, b: Vec2, alpha: real)
    ensures Mix(b, a, 1.0 - alpha) == Mix(a, b, alpha)
  {
    assert 1.0 - (1.0 - alpha) == alpha;
  }

  lemma AlphaFlips(a: Vec2, b: Vec2, p: Vec2)
    requires a != b
    ensures Alpha(b, a, p) == 1.0 - Alpha(a, b, p)
  {
    DistinctHaveGap(a, b);
    DistinctHaveGap(b, a);
    var n, m := Dot(Sub(b, a), Sub(p, a)), Dot(Sub(a, b), Sub(p, b));
    var d2 := Gap2(b, a);
    assert Gap2(a, b) == d2;
    AlphaSum(b.x - a.x, p.x - a.x);
    AlphaSum(b.y - a.y, p.y - a.y);
    assert n + m == d2;
    assert n / d2 + m / d2 == (n + m) / d2 == 1.0;
  }

  lemma AlphaSum(d: real, e: real)
    ensures d * e + (-d) * (e - d) == d * d
  {
  }

  /** The middle is as far from one side as from the other, and from the bottom as from the top. */
  lemma MiddleIsCentre(shape: Shape)
    ensures var m := Middle(shape);
      match shape
      case Sphere(position, _) => m == position
      case Plane(side1, side2, height, z, _) =>
        && m.x - side1.x == side2.x - m.x && m.y - side1.y == side2.y - m.y
        && m.z - z == (z + height) - m.z
  {
  }

  /** A region's middle is accepted exactly when the region is not degenerate. */
  lemma MiddleIsAccepted(shape: Shape)
    ensures Check(shape, Middle(shape)) <==>
      match shape
      case Sphere(_, radius) => radius > 0.0
      case Plane(side1, side2, height, _, thickness) => height > 0.0 && thickness > 0.0 && side1 != side2
  {
    match shape
    case Sphere(position, radius) =>
      SphereMiddle(position, radius);
    case Plane(side1, side2, _, _, _) =>
      if side1 != side2 {
        PlaneMiddle(shape);
      }
  }

  lemma ZeroBelow(limit: real)
    ensures NormBelow(0.0, limit) <==> limit > 0.0
  {
    NormBelowIsNormBelow(0.0, limit);
  }

  lemma ZeroGap3(p: Vec3)
    ensures Gap3(p, p) == 0.0
  {
    ZeroSquare(p.x - p.x);
    ZeroSquare(p.y - p.y);
    ZeroSquare(p.z - p.z);
  }

  lemma ZeroSquare(d: real)
    requires d == 0.0
    ensures d * d == 0.0
  {
  }

  lemma SphereMiddle(position: Vec3, radius: real)
    ensures Check(Sphere(position, radius), position) <==> radius > 0.0
  {
    ZeroGap3(position);
    ZeroBelow(radius);
  }

  lemma PlaneMiddle(shape: Shape)
    requires shape.Plane? && shape.side1 != shape.side2
    ensures Check(shape, Middle(shape)) <==> shape.height > 0.0 && shape.thickness > 0.0
  {
    MiddleIsCentre(shape);
    PlaneCentre(shape, Middle(shape));
  }

  /** A point halfway between the sides and halfway up. */
  lemma PlaneCentre(shape: Shape, p: Vec3)
    requires shape.Plane? && shape.side1 != shape.side2
    requires p.x - shape.side1.x == shape.side2.x - p.x && p.y - shape.side1.y == shape.side2.y - p.y
    requires p.z - shape.z == (shape.z + shape.height) - p.z
    ensures Check(shape, p) <==> shape.height > 0.0 && shape.thickness > 0.0
  {
    var m := Vec2(p.x, p.y);
    assert m == Vec2((shape.side1.x + shape.side2.x) / 2.0, (shape.side1.y + shape.side2.y) / 2.0);
    AlphaOfMiddle(shape.side1, shape.side2, m);
    GapOfMiddle(shape.side1, shape.side2, m);
    PlaneCheckAt(shape, p, m, 0.5);
    CentredAccepts(Check(shape, p), shape.z, shape.height, p.z, Gap2(Mix(shape.side1, shape.side2, 0.5), m), shape.thickness);
  }

  lemma GapOfMiddle(a: Vec2, b: Vec2, m: Vec2)
    requires m == Vec2((a.x + b.x) / 2.0, (a.y + b.y) / 2.0)
    ensures Gap2(Mix(a, b, 0.5), m) == 0.0
  {
    assert Mix(a, b, 0.5) == m;
    assert Sub(m, m) == Vec2(0.0, 0.0);
  }

  lemma CentredAccepts(accepted: bool, z: real, height: real, pz: real, square: real, thickness: real)
    requires square == 0.0 && pz == z + height / 2.0
    requires accepted <==> z < pz < z + height && NormBelow(square, thickness)
    ensures accepted <==> height > 0.0 && thickness > 0.0
  {
    ZeroBelow(thickness);
  }

  lemma PlaneCheckAt(shape: Shape, p: Vec3, q: Vec2, alpha: real)
    requires shape.Plane? && shape.side1 != shape.side2 && q == Vec2(p.x, p.y)
    requires Alpha(shape.side1, shape.side2, q) == alpha
    ensures Check(shape, p) <==>
      && shape.z < p.z < shape.z + shape.height && 0.0 <= alpha <= 1.0
      && NormBelow(Gap2(Mix(shape.side1, shape.side2, alpha), q), shape.thickness)
  {
  }

  lemma AlphaOfMiddle(a: Vec2, b: Vec2, m: Vec2)
    requires a != b && m == Vec2((a.x + b.x) / 2.0, (a.y + b.y) / 2.0)
    ensures Alpha(a, b, m) == 0.5
  {
    DistinctHaveGap(a, b);
    var d2 := Gap2(b, a);
    assert Sub(m, a) == Vec2((b.x - a.x) / 2.0, (b.y - a.y) / 2.0);
    HalfProduct(b.x - a.x);
    HalfProduct(b.y - a.y);
    assert Dot(Sub(b, a), Sub(m, a)) == d2 / 2.0;
    assert (d2 / 2.0) / d2 == 0.5;
  }

  lemma HalfProduct(d: real)
    ensures d * (d / 2.0) == d * d / 2.0
  {
  }

  // ---------- Distances in coordinates ----------

  /** From a sphere's centre, in any direction of length one, the points closer than the radius are accepted and no others. */
  lemma SphereAcceptsWithin(c: Vec3, radius: real, u: Vec3, t: real)
    requires u.x * u.x + u.y * u.y + u.z * u.z == 1.0 && t >= 0.0
    ensures Check(Sphere(c, radius), Vec3(c.x + t * u.x, c.y + t * u.y, c.z + t * u.z)) <==> t < radius
  {
    var p := Vec3(c.x + t * u.x, c.y + t * u.y, c.z + t * u.z);
    var x, y, z := c.x - p.x, c.y - p.y, c.z - p.z;
    assert x == -(t * u.x) && y == -(t * u.y) && z == -(t * u.z);
    ScaledSquare(t, u.x, x);
    ScaledSquare(t, u.y, y);
    ScaledSquare(t, u.z, z);
    calc {
      Gap3(c, p);
      t * t * (u.x * u.x) + t * t * (u.y * u.y) + t * t * (u.z * u.z);
      { SumScaled(t * t, u.x * u.x, u.y * u.y, u.z * u.z); }
      t * t * (u.x * u.x + u.y * u.y + u.z * u.z);
      t * t;
    }
    NormBelowIsNormBelow(t, radius);
  }

  lemma ScaledSquare(t: real, u: real, x: real)
    requires x == -(t * u)
    ensures x * x == t * t * (u * u)
  {
    calc {
      x * x;
      (t * u) * (t * u);
      t * (u * (t * u));
      t * t * (u * u);
    }
  }

  lemma SumScaled(s: real, a: real, b: real, c: real)
    ensures s * a + s * b + s * c == s * (a + b + c)
  {
  }

  /**
   * A plane in coordinates: t along its base line from side1 to side2 and d across, in a direction n of length
   * one that is square to the base. It accepts what is inside the height band, beside the base, and closer
   * than thickness on either side.
   */
  lemma PlaneAcceptsWithin(shape: Shape, n: Vec2, t: real, d: real, p: Vec3)
    requires shape.Plane? && shape.side1 != shape.side2
    requires n.x * n.x + n.y * n.y == 1.0
    requires n.x * (shape.side2.x - shape.side1.x) + n.y * (shape.side2.y - shape.side1.y) == 0.0
    requires p.x == shape.side1.x + t * (shape.side2.x - shape.side1.x) + d * n.x
    requires p.y == shape.side1.y + t * (shape.side2.y - shape.side1.y) + d * n.y
    ensures Check(shape, p) <==>
      shape.z < p.z < shape.z + shape.height && 0.0 <= t <= 1.0 && -shape.thickness < d < shape.thickness
  {
    var a, b, q := shape.side1, shape.side2, Vec2(p.x, p.y);
    AlphaAt(a, b, n, t, d, q);
    GapAcross(a, b, n, t, d, q);
    PlaneCheckAt(shape, p, q, t);
    AcrossAccepts(Check(shape, p), shape.z < p.z < shape.z + shape.height, t, Gap2(Mix(a, b, t), q), d, shape.thickness);
  }

  lemma AcrossAccepts(accepted: bool, inBand: bool, t: real, square: real, d: real, thickness: real)
    requires square == d * d && (accepted <==> inBand && 0.0 <= t <= 1.0 && NormBelow(square, thickness))
    ensures accepted <==> inBand && 0.0 <= t <= 1.0 && -thickness < d < thickness
  {
    EitherSide(d, thickness);
  }

  lemma AlphaAt(a: Vec2, b: Vec2, n: Vec2, t: real, d: real, q: Vec2)
    requires a != b && n.x * (b.x - a.x) + n.y * (b.y - a.y) == 0.0
    requires q == Vec2(a.x + t * (b.x - a.x) + d * n.x, a.y + t * (b.y - a.y) + d * n.y)
    ensures Alpha(a, b, q) == t
  {
    var ex, ey := b.x - a.x, b.y - a.y;
    var e2 := Gap2(b, a);
    DistinctHaveGap(a, b);
    Along(ex, n.x, t, d, q.x - a.x);
    Along(ey, n.y, t, d, q.y - a.y);
    calc {
      Dot(Sub(b, a), Sub(q, a));
      ex * (q.x - a.x) + ey * (q.y - a.y);
      (t * (ex * ex) + d * (n.x * ex)) + (t * (ey * ey) + d * (n.y * ey));
      { SumTwo(t, ex * ex, ey * ey); SumTwo(d, n.x * ex, n.y * ey); }
      t * (ex * ex + ey * ey) + d * (n.x * ex + n.y * ey);
      t * e2;
    }
    assert t * e2 / e2 == t;
  }

  lemma Along(e: real, n: real, t: real, d: real, x: real)
    requires x == t * e + d * n
    ensures e * x == t * (e * e) + d * (n * e)
  {
    calc {
      e * x;
      e * (t * e) + e * (d * n);
      t * (e * e) + d * (n * e);
    }
  }

  lemma SumTwo(s: real, a: real, b: real)
    ensures s * a + s * b == s * (a + b)
  {
  }

  lemma GapAcross(a: Vec2, b: Vec2, n: Vec2, t: real, d: real, q: Vec2)
    requires n.x * n.x + n.y * n.y == 1.0
    requires q == Vec2(a.x + t * (b.x - a.x) + d * n.x, a.y + t * (b.y - a.y) + d * n.y)
    ensures Gap2(Mix(a, b, t), q) == d * d
  {
    var m := Mix(a, b, t);
    MixIs(a.x, b.x, t);
    MixIs(a.y, b.y, t);
    var x, y := m.x - q.x, m.y - q.y;
    assert x == -(d * n.x) && y == -(d * n.y);
    ScaledSquare(d, n.x, x);
    ScaledSquare(d, n.y, y);
    SumTwo(d * d, n.x * n.x, n.y * n.y);
  }

  lemma MixIs(a: real, b: real, t: real)
    ensures (1.0 - t) * a + t * b == a + t * (b - a)
  {
  }

  lemma EitherSide(d: real, limit: real)
    ensures NormBelow(d * d, limit) <==> -limit < d < limit
  {
    if d >= 0.0 {
      NormBelowIsNormBelow(d, limit);
    } else {
      NormBelowIsNormBelow(-d, limit);
      assert (-d) * (-d) == d * d;
    }
  }

  // ---------- The watcher ----------

  class Region {
    const shape: Shape
    const uuid: Uuid
    var name: string
    var isTriggered: bool

    constructor (shape: Shape, uuid: Uuid, name: string)
      ensures this.shape == shape && this.uuid == uuid && this.name == name && !isTriggered
    {
      this.shape, this.uuid, this.name, isTriggered := shape, uuid, name, false;
    }

    method Trigger(p: Vec3) returns (fired: bool)
      modifies this`isTriggered
      ensures fired <==> !old(isTriggered) && Check(shape, p)
      ensures isTriggered <==> old(isTriggered) || Check(shape, p)
    {
      if isTriggered {
        return false;
      }
      if Check(shape, p) {
        isTriggered := true;
        return true;
      }
      return false;
    }

    method Reset()
      modifies this`isTriggered
      ensures !isTriggered
    {
      isTriggered := false;
    }
  }

  /** The first region in the list that is armed and contains p; the length of the list if none is. */
  ghost function FirstArmed(regions: seq<Region>, triggered: set<Region>, p: Vec3): (k: nat)
    ensures k <= |regions|
    ensures forall i :: 0 <= i < k ==> regions[i] in triggered || !Check(regions[i].shape, p)
    ensures k < |regions| ==> regions[k] !in triggered && Check(regions[k].shape, p)
  {
    if regions == [] || (regions[0] !in triggered && Check(regions[0].shape, p)) then 0
    else 1 + FirstArmed(regions[1..], triggered, p)
  }

  class TriggerWatcher {
    var regions: seq<Region>
    // regions whose trigger was signalled, in order
    var signals: seq<Region>

    /** The regions of the list that are triggered. The list may hold one region more than once. */
    ghost function Triggered(): set<Region>
      reads this, regions
    {
      set r | r in regions && r.isTriggered
    }

    constructor (regions: seq<Region>)
      ensures this.regions == regions && signals == []
    {
      this.regions, signals := regions, [];
    }

    /** Fires the first armed region that contains p, and that one only. */
    method Watch(p: Vec3) returns (fired: bool)
      modifies this`signals, regions`isTriggered
      ensures var k := old(FirstArmed(regions, Triggered(), p));
        && fired == (k < |regions|)
        && Triggered() == old(Triggered()) + (if fired then {regions[k]} else {})
        && signals == old(signals) + (if fired then [regions[k]] else [])
    {
      ghost var k := FirstArmed(regions, Triggered(), p);
      for i := 0 to |regions|
        invariant i <= k && signals == old(signals)
        invariant forall r :: r in regions ==> r.isTriggered == old(r.isTriggered)
      {
        var hit := regions[i].Trigger(p);
        if hit {
          signals := signals + [regions[i]];
          return true;
        }
      }
      return false;
    }

    method Reset()
      modifies regions`isTriggered
      ensures Triggered() == {}
    {
      for i := 0 to |regions|
        invariant forall j :: 0 <= j < i ==> !regions[j].isTriggered
      {
        regions[i].Reset();
      }
    }

    /** The frame callback and the resets, one after the other: the watcher's whole life on one map. */
    method Live(moments: seq<Moment>)
      modifies this`signals, regions`isTriggered
      ensures signals == old(signals) + old(Signalled(regions, Triggered(), moments))
    {
      assert moments[0..] == moments;
      for i := 0 to |moments|
        invariant signals + Signalled(regions, Triggered(), moments[i..])
               == old(signals) + old(Signalled(regions, Triggered(), moments))
      {
        ghost var before, rest := Triggered(), moments[i + 1..];
        assert moments[i..][0] == moments[i] && moments[i..][1..] == rest;
        match moments[i] {
          case Rearm => Reset();
          case Frame(p) =>
            ghost var was, k := signals, FirstArmed(regions, before, p);
            var fired := Watch(p);
            if fired {
              assert was + ([regions[k]] + Signalled(regions, Triggered(), rest)) == signals + Signalled(regions, Triggered(), rest);
            } else {
              assert Triggered() == before;
            }
        }
      }
      assert signals + [] == signals;
    }
  }

  // ---------- Watching over time ----------

  /** The regions that fire, in order, while the player passes these positions. */
  ghost function Fired(regions: seq<Region>, triggered: set<Region>, path: seq<Vec3>): seq<Region>
    decreases |path|
  {
    if path == [] then []
    else
      var k := FirstArmed(regions, triggered, path[0]);
      if k < |regions| then [regions[k]] + Fired(regions, triggered + {regions[k]}, path[1..])
      else Fired(regions, triggered, path[1..])
  }

  /** Between two resets no region fires twice, and none that was triggered before fires at all. */
  lemma {:induction false} FiresAtMostOnce(regions: seq<Region>, triggered: set<Region>, path: seq<Vec3>)
    ensures var f := Fired(regions, triggered, path);
      && |f| <= |path|
      && (forall i :: 0 <= i < |f| ==> f[i] in regions && f[i] !in triggered)
      && (forall i, j :: 0 <= i < j < |f| ==> f[i] != f[j])
    decreases |path|
  {
    if path != [] {
      var k := FirstArmed(regions, triggered, path[0]);
      FiresAtMostOnce(regions, if k < |regions| then triggered + {regions[k]} else triggered, path[1..]);
    }
  }

  /** What happens to the watcher: a frame with the player at a position, or a reset. */
  datatype Moment = Frame(position: Vec3) | Rearm

  /** The signals given over these moments. */
  ghost function Signalled(regions: seq<Region>, triggered: set<Region>, moments: seq<Moment>): seq<Region>
    decreases |moments|
  {
    if moments == [] then []
    else
      match moments[0]
      case Rearm => Signalled(regions, {}, moments[1..])
      case Frame(p) =>
        var k := FirstArmed(regions, triggered, p);
        if k < |regions| then [regions[k]] + Signalled(regions, triggered + {regions[k]}, moments[1..])
        else Signalled(regions, triggered, moments[1..])
  }

  ghost function Frames(path: seq<Vec3>): (r: seq<Moment>)
    ensures |r| == |path| && forall i :: 0 <= i < |r| ==> r[i] == Frame(path[i])
  {
    seq(|path|, i requires 0 <= i < |path| => Frame(path[i]))
  }

  /** Up to the next reset the signals are those of the path walked; a reset arms every region again. */
  lemma {:induction false} SignalsSplitAtReset(regions: seq<Region>, triggered: set<Region>, path: seq<Vec3>, rest: seq<Moment>)
    ensures Signalled(regions, triggered, Frames(path) + [Rearm] + rest)
         == Fired(regions, triggered, path) + Signalled(regions, {}, rest)
    ensures Signalled(regions, triggered, Frames(path)) == Fired(regions, triggered, path)
    decreases |path|
  {
    var all := Frames(path) + [Rearm] + rest;
    if path == [] {
      assert Frames(path) == [];
      assert all == [Rearm] + rest && all[1..] == rest;
    } else {
      var k := FirstArmed(regions, triggered, path[0]);
      var t := if k < |regions| then triggered + {regions[k]} else triggered;
      assert Frames(path)[1..] == Frames(path[1..]);
      assert all[0] == Frame(path[0]) && all[1..] == Frames(path[1..]) + [Rearm] + rest;
      SignalsSplitAtReset(regions, t, path[1..], rest);
    }
  }

  /** Armed regions containing p. */
  ghost function Pending(regions: seq<Region>, triggered: set<Region>, p: Vec3): set<Region> {
    set r | r in regions && r !in triggered && Check(r.shape, p)
  }

  /** Each call fires one pending region while there is one, and fires nothing otherwise. */
  lemma WatchMakesProgress(regions: seq<Region>, triggered: set<Region>, p: Vec3)
    ensures var k := FirstArmed(regions, triggered, p);
      && (k == |regions| <==> Pending(regions, triggered, p) == {})
      && (k < |regions| ==>
            && regions[k] in Pending(regions, triggered, p)
            && Pending(regions, triggered + {regions[k]}, p) == Pending(regions, triggered, p) - {regions[k]}
            && |Pending(regions, triggered + {regions[k]}, p)| == |Pending(regions, triggered, p)| - 1)
  {
    var k := FirstArmed(regions, triggered, p);
    if k < |regions| {
      assert regions[k] in Pending(regions, triggered, p);
      assert Pending(regions, triggered + {regions[k]}, p) == Pending(regions, triggered, p) - {regions[k]};
    } else {
      forall r | r in regions
        ensures r !in Pending(regions, triggered, p)
      {
        var i :| 0 <= i < |regions| && regions[i] == r;
      }
    }
  }

  ghost function Standing(p: Vec3, n: nat): seq<Vec3> {
    seq(n, _ => p)
  }

  /** What is pending, in list order, each region where it is first listed. */
  ghost function InListOrder(regions: seq<Region>, triggered: set<Region>, p: Vec3): seq<Region> {
    if regions == [] then []
    else if regions[0] !in triggered && Check(regions[0].shape, p) then
      [regions[0]] + InListOrder(regions[1..], triggered + {regions[0]}, p)
    else InListOrder(regions[1..], triggered, p)
  }

  /** The first armed region leads the list; arming it no more leaves the rest of the list. */
  lemma {:induction false} FirstArmedLeads(regions: seq<Region>, triggered: set<Region>, p: Vec3)
    ensures var k := FirstArmed(regions, triggered, p);
      InListOrder(regions, triggered, p) ==
        if k == |regions| then [] else [regions[k]] + InListOrder(regions, triggered + {regions[k]}, p)
  {
    if regions != [] && !(regions[0] !in triggered && Check(regions[0].shape, p)) {
      FirstArmedLeads(regions[1..], triggered, p);
    }
  }

  lemma {:induction false} InListOrderLists(regions: seq<Region>, triggered: set<Region>, p: Vec3)
    ensures forall r :: r in InListOrder(regions, triggered, p) <==> r in Pending(regions, triggered, p)
    ensures |InListOrder(regions, triggered, p)| == |Pending(regions, triggered, p)|
  {
    if regions != [] {
      var hit := regions[0] !in triggered && Check(regions[0].shape, p);
      var rest := if hit then triggered + {regions[0]} else triggered;
      InListOrderLists(regions[1..], rest, p);
      var now, later := Pending(regions, triggered, p), Pending(regions[1..], rest, p);
      if hit {
        assert now == later + {regions[0]};
        assert regions[0] !in later;
      } else {
        assert now == later;
      }
    }
  }

  lemma {:induction false} StandingFires(regions: seq<Region>, triggered: set<Region>, p: Vec3, n: nat)
    requires n > 0
    ensures var k := FirstArmed(regions, triggered, p);
      Fired(regions, triggered, Standing(p, n)) ==
        if k < |regions| then [regions[k]] + Fired(regions, triggered + {regions[k]}, Standing(p, n - 1))
        else Fired(regions, triggered, Standing(p, n - 1))
  {
    assert Standing(p, n)[0] == p && Standing(p, n)[1..] == Standing(p, n - 1);
  }

  /**
   * A player who stands still fires the pending regions one per call, in list order, and after as many
   * calls as there are pending regions nothing more fires.
   */
  lemma {:induction false} StandingFiresInOrder(regions: seq<Region>, triggered: set<Region>, p: Vec3, n: nat)
    ensures var all := InListOrder(regions, triggered, p);
      Fired(regions, triggered, Standing(p, n)) == if n <= |all| then all[..n] else all
    decreases n
  {
    if n > 0 {
      var k := FirstArmed(regions, triggered, p);
      StandingFires(regions, triggered, p, n);
      FirstArmedLeads(regions, triggered, p);
      StandingFiresInOrder(regions, if k < |regions| then triggered + {regions[k]} else triggered, p, n - 1);
    }
  }
}
