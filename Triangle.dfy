/**
 * Triangle: one facet of the model to cut, with its three vertices in the order given and the
 * unit normal of the edges B - A and C - B computed once when it is made.
 */
module Triangle {
  import opened Wrappers
  import opened Linear

  datatype Triangle = Triangle(vertices: seq<Vec3>, normal: Vec3)

  /** The normal before normalisation: the cross product of the edges A->B and B->C. */
  function EdgeNormal(a: Vec3, b: Vec3, c: Vec3): Vec3 {
    Cross3(Sub3(b, a), Sub3(c, b))
  }

  /**
   * Vector3D.normalize: the vector divided by its length, which the model receives as `norm`;
   * a vector of length zero cannot be normalised.
   */
  function Normalize(v: Vec3, norm: Vec3 -> real): (r: Result<Vec3>)
    ensures r.Err? <==> norm(v) == 0.0
    ensures r.Err? ==> r.error == ZeroNorm
    ensures r.Ok? ==> Scale3(norm(v), r.value) == v
  {
    var s := norm(v);
    if s == 0.0 then Err(ZeroNorm)
    else
      var u := Scale3(1.0 / s, v);
      assert Scale3(s, u) == v by {
        assert s * (1.0 / s) == 1.0;
        assert s * (1.0 / s * v.x) == v.x;
        assert s * (1.0 / s * v.y) == v.y;
        assert s * (1.0 / s * v.z) == v.z;
      }
      Ok(u)
  }

  /** The constructor: the vertices in order, and the normalised edge normal. */
  function MakeTriangle(v1: Vec3, v2: Vec3, v3: Vec3, norm: Vec3 -> real): Result<Triangle> {
    match Normalize(EdgeNormal(v1, v2, v3), norm)
    case Err(e) => Err(e)
    case Ok(n) => Ok(Triangle([v1, v2, v3], n))
  }

  function GetVertices(t: Triangle): seq<Vec3> { t.vertices }

  function GetNormal(t: Triangle): Vec3 { t.normal }

  /** The vertices come back as given, in order, and the normal is the one computed at construction. */
  lemma MadeTriangle(v1: Vec3, v2: Vec3, v3: Vec3, norm: Vec3 -> real)
    ensures MakeTriangle(v1, v2, v3, norm).Ok? <==> norm(EdgeNormal(v1, v2, v3)) != 0.0
    ensures MakeTriangle(v1, v2, v3, norm).Ok? ==>
      GetVertices(MakeTriangle(v1, v2, v3, norm).value) == [v1, v2, v3]
      && Scale3(norm(EdgeNormal(v1, v2, v3)), GetNormal(MakeTriangle(v1, v2, v3, norm).value)) == EdgeNormal(v1, v2, v3)
  {}

  /** The edge normal is orthogonal to all three edges. */
  lemma EdgeNormalOrthogonal(a: Vec3, b: Vec3, c: Vec3)
    ensures Dot3(Sub3(b, a), EdgeNormal(a, b, c)) == 0.0
    ensures Dot3(Sub3(c, b), EdgeNormal(a, b, c)) == 0.0
    ensures Dot3(Sub3(a, c), EdgeNormal(a, b, c)) == 0.0
  {
    var u, v := Sub3(b, a), Sub3(c, b);
    CrossOrthogonal(u, v);
    assert Sub3(a, c) == Neg3(Add3(u, v));
    DotComm(Neg3(Add3(u, v)), Cross3(u, v));
    DotNeg(Cross3(u, v), Add3(u, v));
    DotAdd(Cross3(u, v), u, v);
    DotComm(Cross3(u, v), u);
    DotComm(Cross3(u, v), v);
  }

  /** So is the stored normal of every triangle that could be made. */
  lemma {:induction false} NormalOrthogonal(v1: Vec3, v2: Vec3, v3: Vec3, norm: Vec3 -> real)
    requires MakeTriangle(v1, v2, v3, norm).Ok?
    ensures var n := GetNormal(MakeTriangle(v1, v2, v3, norm).value);
      Dot3(Sub3(v2, v1), n) == 0.0 && Dot3(Sub3(v3, v2), n) == 0.0 && Dot3(Sub3(v1, v3), n) == 0.0
  {
    var e := EdgeNormal(v1, v2, v3);
    var k := 1.0 / norm(e);
    assert GetNormal(MakeTriangle(v1, v2, v3, norm).value) == Scale3(k, e);
    EdgeNormalOrthogonal(v1, v2, v3);
    DotScaleRight(k, Sub3(v2, v1), e);
    DotScaleRight(k, Sub3(v3, v2), e);
    DotScaleRight(k, Sub3(v1, v3), e);
  }

  /** With the vertices in reverse order the edge normal points the other way. */
  lemma ReversedOrientation(a: Vec3, b: Vec3, c: Vec3)
    ensures EdgeNormal(c, b, a) == Neg3(EdgeNormal(a, b, c))
  {}

  /** A cyclic rotation of the vertices keeps the edge normal. */
  lemma CyclicOrientation(a: Vec3, b: Vec3, c: Vec3)
    ensures EdgeNormal(b, c, a) == EdgeNormal(a, b, c)
    ensures EdgeNormal(c, a, b) == EdgeNormal(a, b, c)
  {}

  /** Reversing the vertices of a triangle that can be made negates its stored normal. */
  lemma {:induction false} ReversedNormal(v1: Vec3, v2: Vec3, v3: Vec3, norm: Vec3 -> real)
    requires MakeTriangle(v1, v2, v3, norm).Ok?
    requires norm(Neg3(EdgeNormal(v1, v2, v3))) == norm(EdgeNormal(v1, v2, v3))
    ensures MakeTriangle(v3, v2, v1, norm).Ok?
    ensures GetNormal(MakeTriangle(v3, v2, v1, norm).value) == Neg3(GetNormal(MakeTriangle(v1, v2, v3, norm).value))
  {
    ReversedOrientation(v1, v2, v3);
  }

  /**
   * Collinear vertices (the two edges linearly dependent: some j·(b - a) + k·(c - b) = 0 with j
   * and k not both 0) have a zero edge normal, and no triangle is made from them.
   */
  lemma {:induction false} Collinear(a: Vec3, b: Vec3, c: Vec3, j: real, k: real, norm: Vec3 -> real)
    requires j != 0.0 || k != 0.0
    requires Add3(Scale3(j, Sub3(b, a)), Scale3(k, Sub3(c, b))) == Zero3
    requires norm(Zero3) == 0.0
    ensures EdgeNormal(a, b, c) == Zero3
    ensures MakeTriangle(a, b, c, norm) == Err(ZeroNorm)
  {
    var u, w := Sub3(b, a), Sub3(c, b);
    var n := Cross3(u, w);
    if j != 0.0 {
      // j·n = (j·u) × w = (-k·w) × w = 0
      assert Scale3(j, u) == Scale3(-k, w);
      CrossScale(j, u, w);
      CrossScale(-k, w, w);
      ScaledZero(j, n);
    } else {
      // k·n = -(k·w) × u = -(-j·u) × u = 0
      assert Scale3(k, w) == Scale3(-j, u);
      CrossScale(k, w, u);
      CrossScale(-j, u, u);
      assert Cross3(w, u) == Neg3(n);
      ScaledZero(k, n);
    }
  }

  /** Scaling the first factor of a cross product scales the product; a vector crossed with itself is 0. */
  lemma CrossScale(k: real, u: Vec3, w: Vec3)
    ensures Cross3(Scale3(k, u), w) == Scale3(k, Cross3(u, w))
    ensures Cross3(u, u) == Zero3
  {}

  lemma ScaledZero(k: real, v: Vec3)
    requires k != 0.0 && Scale3(k, v) == Zero3
    ensures v == Zero3
  {}
}
