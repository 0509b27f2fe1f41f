/** The integer point family of the clipper: a fixed-width signed coordinate
    type, two concrete point variants (2D and 3D) that share one capability
    shape, and the inverse slope `GetDx` that the shared capability defines
    once for every variant. */
module Point {

  /** Bounds of the default build's coordinate width, a 64-bit signed integer. */
  const CINT_MIN: int := -0x8000_0000_0000_0000
  const CINT_MAX: int := 0x7FFF_FFFF_FFFF_FFFF

  predicate IsCInt(v: int) {
    CINT_MIN <= v <= CINT_MAX
  }

  /** The coordinate scalar: every value a 64-bit signed integer holds. */
  type CInt = v: int | IsCInt(v)

  /** What the z accessor reports: a stored z, or absent for planar points. */
  datatype Option<T> = None | Some(value: T)

  /** The result of the inverse slope: the distinguished horizontal constant,
      or the quotient of the x difference by the y difference, kept exact. */
  datatype Dx = Horizontal | Slope(dx: real)

  /** The subtractions in `InverseSlope` are done in `CInt` and so must not
      overflow; they are done only when the two y coordinates differ. */
  predicate DxDefined(selfX: CInt, selfY: CInt, otherX: CInt, otherY: CInt): (ok: bool)
    ensures selfY == otherY ==> ok
    ensures selfY != otherY ==>
              (ok <==> CINT_MIN <= otherX - selfX <= CINT_MAX && CINT_MIN <= otherY - selfY <= CINT_MAX)
  {
    selfY == otherY || (IsCInt(otherX - selfX) && IsCInt(otherY - selfY))
  }

  /** The shared default `get_dx` of the integer point capability, written
      once over what the accessors report: horizontal exactly when the y
      coordinates agree, otherwise the x step per unit of y step taken from
      `self` towards `other`. */
  function InverseSlope(selfX: CInt, selfY: CInt, otherX: CInt, otherY: CInt): (r: Dx)
    requires DxDefined(selfX, selfY, otherX, otherY)
    ensures r == Horizontal <==> selfY == otherY
    ensures r.Slope? ==> r.dx * (otherY - selfY) as real == (otherX - selfX) as real
  {
    if selfY == otherY then Horizontal
    else
      var run: CInt := otherX - selfX;
      var rise: CInt := otherY - selfY;
      Slope(run as real / rise as real)
  }

  /** A point of the discrete plane; it has no z. */
  datatype IntPoint2d = IntPoint2d(x: CInt, y: CInt) {

    static function New(x: CInt, y: CInt): (p: IntPoint2d)
      ensures p.GetX() == x && p.GetY() == y
      ensures p.GetZ() == None
    {
      IntPoint2d(x, y)
    }

    function GetX(): (r: CInt)
      ensures r == x
    {
      x
    }

    function GetY(): (r: CInt)
      ensures r == y
    {
      y
    }

    /** A planar point never reports a z. */
    function GetZ(): (r: Option<CInt>)
      ensures r == None
    {
      None
    }

    /** `p.set_x(v)` is `p := p.SetX(v)`. */
    function SetX(v: CInt): (q: IntPoint2d)
      ensures q.GetX() == v
      ensures q.GetY() == GetY() && q.GetZ() == GetZ()
    {
      this.(x := v)
    }

    /** `p.set_y(v)` is `p := p.SetY(v)`. */
    function SetY(v: CInt): (q: IntPoint2d)
      ensures q.GetY() == v
      ensures q.GetX() == GetX() && q.GetZ() == GetZ()
    {
      this.(y := v)
    }

    /** Setting z on a planar point is accepted and changes nothing. */
    function SetZ(v: CInt): (q: IntPoint2d)
      ensures q == this
      ensures q.GetZ() == None
    {
      this
    }

    function GetDx(other: IntPoint2d): (r: Dx)
      requires DxDefined(GetX(), GetY(), other.GetX(), other.GetY())
      ensures r == Horizontal <==> GetY() == other.GetY()
      ensures r.Slope? ==> r.dx * (other.GetY() - GetY()) as real == (other.GetX() - GetX()) as real
    {
      InverseSlope(GetX(), GetY(), other.GetX(), other.GetY())
    }
  }

  /** A point of discrete 3-space; z is auxiliary data that starts at 0. */
  datatype IntPoint3d = IntPoint3d(x: CInt, y: CInt, z: CInt) {

    static function New(x: CInt, y: CInt): (p: IntPoint3d)
      ensures p.GetX() == x && p.GetY() == y
      ensures p.GetZ() == Some(0)
    {
      IntPoint3d(x, y, 0)
    }

    function GetX(): (r: CInt)
      ensures r == x
    {
      x
    }

    function GetY(): (r: CInt)
      ensures r == y
    {
      y
    }

    /** A 3D point always reports its stored z. */
    function GetZ(): (r: Option<CInt>)
      ensures r.Some? && r.value == z
    {
      Some(z)
    }

    /** `p.set_x(v)` is `p := p.SetX(v)`. */
    function SetX(v: CInt): (q: IntPoint3d)
      ensures q.GetX() == v
      ensures q.GetY() == GetY() && q.GetZ() == GetZ()
    {
      this.(x := v)
    }

    /** `p.set_y(v)` is `p := p.SetY(v)`. */
    function SetY(v: CInt): (q: IntPoint3d)
      ensures q.GetY() == v
      ensures q.GetX() == GetX() && q.GetZ() == GetZ()
    {
      this.(y := v)
    }

    /** `p.set_z(v)` is `p := p.SetZ(v)`: z round-trips. */
    function SetZ(v: CInt): (q: IntPoint3d)
      ensures q.GetZ() == Some(v)
      ensures q.GetX() == GetX() && q.GetY() == GetY()
    {
      this.(z := v)
    }

    function GetDx(other: IntPoint3d): (r: Dx)
      requires DxDefined(GetX(), GetY(), other.GetX(), other.GetY())
      ensures r == Horizontal <==> GetY() == other.GetY()
      ensures r.Slope? ==> r.dx * (other.GetY() - GetY()) as real == (other.GetX() - GetX()) as real
    {
      InverseSlope(GetX(), GetY(), other.GetX(), other.GetY())
    }
  }

  /** Equality of points is structural: two constructed points are equal
      exactly when their coordinates are. */
  lemma EqualityIsStructural(x1: CInt, y1: CInt, x2: CInt, y2: CInt, z1: CInt, z2: CInt)
    ensures IntPoint2d.New(x1, y1) == IntPoint2d.New(x2, y2) <==> x1 == x2 && y1 == y2
    ensures IntPoint3d.New(x1, y1).SetZ(z1) == IntPoint3d.New(x2, y2).SetZ(z2)
            <==> x1 == x2 && y1 == y2 && z1 == z2
  {
  }

  /** A horizontal pair of points is recognised whatever the x coordinates
      are, and no division happens for it. */
  lemma HorizontalIgnoresX(y: CInt, x1: CInt, x2: CInt, x3: CInt, x4: CInt)
    ensures InverseSlope(x1, y, x2, y) == InverseSlope(x3, y, x4, y) == Horizontal
  {
  }

  /** A quotient is the one value that multiplies back to the dividend. */
  lemma QuotientUnique(num: real, den: real, d: real)
    requires den != 0.0 && d * den == num
    ensures d == num / den
  {
  }

  /** Multiplying both sides by a positive factor keeps a strict order. */
  lemma ScalePositive(u: real, v: real, k: real)
    requires k > 0.0
    ensures u < v <==> u * k < v * k
  {
  }

  /** Read directly: a sloped result is the x difference divided by the y
      difference, both taken as `other - self`. */
  lemma InverseSlopeIsQuotient(selfX: CInt, selfY: CInt, otherX: CInt, otherY: CInt)
    requires selfY != otherY && DxDefined(selfX, selfY, otherX, otherY)
    ensures InverseSlope(selfX, selfY, otherX, otherY)
            == Slope((otherX - selfX) as real / (otherY - selfY) as real)
  {
    var d := InverseSlope(selfX, selfY, otherX, otherY).dx;
    QuotientUnique((otherX - selfX) as real, (otherY - selfY) as real, d);
  }

  /** Coordinates within half the 64-bit range never make `get_dx` overflow. */
  lemma HalfRangeIsDefined(selfX: CInt, selfY: CInt, otherX: CInt, otherY: CInt)
    requires -0x4000_0000_0000_0000 <= selfX < 0x4000_0000_0000_0000
    requires -0x4000_0000_0000_0000 <= selfY < 0x4000_0000_0000_0000
    requires -0x4000_0000_0000_0000 <= otherX < 0x4000_0000_0000_0000
    requires -0x4000_0000_0000_0000 <= otherY < 0x4000_0000_0000_0000
    ensures DxDefined(selfX, selfY, otherX, otherY)
  {
  }

  /** Swapping the two points negates both the x and the y difference, so the
      quotient is the same and the horizontal/sloped classification agrees. */
  lemma InverseSlopeSwap(aX: CInt, aY: CInt, bX: CInt, bY: CInt)
    requires DxDefined(aX, aY, bX, bY) && DxDefined(bX, bY, aX, aY)
    ensures InverseSlope(bX, bY, aX, aY) == InverseSlope(aX, aY, bX, bY)
  {
    if aY != bY {
      var run, rise := (bX - aX) as real, (bY - aY) as real;
      var d := InverseSlope(aX, aY, bX, bY).dx;
      assert d * (-rise) == -run;
      QuotientUnique(-run, -rise, d);
    }
  }

  /** The subtraction bound is not symmetric: at the edge of the 64-bit range
      `get_dx` may be computable in one direction and overflow in the other,
      which is why `InverseSlopeSwap` needs both directions defined. */
  lemma DefinednessIsNotSymmetric()
    ensures exists aX: CInt, aY: CInt, bX: CInt, bY: CInt ::
              DxDefined(aX, aY, bX, bY) && !DxDefined(bX, bY, aX, aY)
  {
    // self (0, 1), other (i64::MIN, 0): the x difference is i64::MIN itself,
    // while the reverse call computes 0 - i64::MIN, one past i64::MAX
    assert DxDefined(0, 1, CINT_MIN, 0) && !DxDefined(CINT_MIN, 0, 0, 1);
  }

  /** Two edges leaving one point have the same inverse slope exactly when
      the three points are collinear. */
  lemma InverseSlopeEqualIffCollinear(aX: CInt, aY: CInt, bX: CInt, bY: CInt, cX: CInt, cY: CInt)
    requires aY != bY && aY != cY
    requires DxDefined(aX, aY, bX, bY) && DxDefined(aX, aY, cX, cY)
    ensures InverseSlope(aX, aY, bX, bY) == InverseSlope(aX, aY, cX, cY)
            <==> (bX - aX) * (cY - aY) == (cX - aX) * (bY - aY)
  {
    var p, q := (bX - aX) as real, (bY - aY) as real;
    var r, s := (cX - aX) as real, (cY - aY) as real;
    var d1, d2 := InverseSlope(aX, aY, bX, bY).dx, InverseSlope(aX, aY, cX, cY).dx;
    assert ((bX - aX) * (cY - aY)) as real == p * s;
    assert ((cX - aX) * (bY - aY)) as real == r * q;
    assert d1 * (q * s) == p * s by { assert d1 * q == p; }
    assert d2 * (q * s) == r * q by { assert d2 * s == r; }
    if p * s == r * q {
      QuotientUnique(p * s, q * s, d1);
      QuotientUnique(p * s, q * s, d2);
    }
  }

  /** Two edges leaving one point upwards are ordered by inverse slope as the
      sweep needs: the first has the smaller x step per unit of y exactly when
      the second endpoint lies strictly to the right of the first edge's line. */
  lemma InverseSlopeOrdersUpwardEdges(aX: CInt, aY: CInt, bX: CInt, bY: CInt, cX: CInt, cY: CInt)
    requires aY < bY && aY < cY
    requires DxDefined(aX, aY, bX, bY) && DxDefined(aX, aY, cX, cY)
    ensures InverseSlope(aX, aY, bX, bY).dx < InverseSlope(aX, aY, cX, cY).dx
            <==> (bX - aX) * (cY - aY) < (cX - aX) * (bY - aY)
  {
    var p, q := (bX - aX) as real, (bY - aY) as real;
    var r, s := (cX - aX) as real, (cY - aY) as real;
    var d1, d2 := InverseSlope(aX, aY, bX, bY).dx, InverseSlope(aX, aY, cX, cY).dx;
    assert ((bX - aX) * (cY - aY)) as real == p * s;
    assert ((cX - aX) * (bY - aY)) as real == r * q;
    assert d1 * (q * s) == p * s by { assert d1 * q == p; }
    assert d2 * (q * s) == r * q by { assert d2 * s == r; }
    assert q * s > 0.0 by { ScalePositive(0.0, s, q); }
    ScalePositive(d1, d2, q * s);
  }

  /** Moving upwards, the inverse slope has the sign of the x step. */
  lemma InverseSlopeSignUpward(aX: CInt, aY: CInt, bX: CInt, bY: CInt)
    requires aY < bY && DxDefined(aX, aY, bX, bY)
    ensures InverseSlope(aX, aY, bX, bY).dx < 0.0 <==> bX < aX
    ensures InverseSlope(aX, aY, bX, bY).dx == 0.0 <==> bX == aX
  {
    var d := InverseSlope(aX, aY, bX, bY).dx;
    var q := (bY - aY) as real;
    assert d * q == (bX - aX) as real;
  }

  /** The z coordinate of a 3D point plays no part in its inverse slope. */
  lemma GetDxIgnoresZ(p: IntPoint3d, q: IntPoint3d, z1: CInt, z2: CInt)
    requires DxDefined(p.GetX(), p.GetY(), q.GetX(), q.GetY())
    ensures p.SetZ(z1).GetDx(q.SetZ(z2)) == p.GetDx(q)
  {
  }

  /** A 2D point and a 3D point with the same x and y have the same inverse
      slope: the shared default method sees only the accessors. */
  lemma GetDxAgreesAcrossVariants(p: IntPoint3d, q: IntPoint3d)
    requires DxDefined(p.GetX(), p.GetY(), q.GetX(), q.GetY())
    ensures IntPoint2d.New(p.GetX(), p.GetY()).GetDx(IntPoint2d.New(q.GetX(), q.GetY())) == p.GetDx(q)
  {
  }

  /** Worked cases: (0,0) to (10,5) gives 2; (0,7) to (10,7) is horizontal;
      a 3D point built at (1,2) with z set to 9 reports z 9. */
  lemma Examples()
    ensures IntPoint2d.New(0, 0).GetDx(IntPoint2d.New(10, 5)) == Slope(2.0)
    ensures IntPoint2d.New(0, 7).GetDx(IntPoint2d.New(10, 7)) == Horizontal
    ensures IntPoint3d.New(1, 2).SetZ(9).GetZ() == Some(9)
    ensures IntPoint2d.New(0, 0).SetZ(9) == IntPoint2d.New(0, 0)
  {
  }
}
