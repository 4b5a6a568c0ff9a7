/** The point of a triangle that is closest to a given point, over the reals. */
module ClosestPoint {
  import opened Wrappers

  datatype Vec3 = Vec3(x: real, y: real, z: real)

  function Sub(a: Vec3, b: Vec3): Vec3 {
    Vec3(a.x - b.x, a.y - b.y, a.z - b.z)
  }

  function Dot(a: Vec3, b: Vec3): real {
    a.x * b.x + a.y * b.y + a.z * b.z
  }

  function Product(x: real, y: real): real {
    x * y
  }

  function Ratio(x: real, y: real): real
    requires y != 0.0
  {
    x / y
  }

  /** The areas va, vb and vc are of this form. */
  function Minor(x: real, y: real, z: real, w: real): real {
    x * w - y * z
  }

  /** a + t * d */
  function Along(a: Vec3, t: real, d: Vec3): Vec3 {
    Vec3(a.x + t * d.x, a.y + t * d.y, a.z + t * d.z)
  }

  /** dtClosestPtPointTriangle. None stands for the quotient 0/0. */
  function ClosestPtPointTriangle(p: Vec3, a: Vec3, b: Vec3, c: Vec3): Option<Vec3> {
    var ab, ac, ap, bp, cp := Sub(b, a), Sub(c, a), Sub(p, a), Sub(p, b), Sub(p, c);
    Region(a, b, c, Dot(ab, ap), Dot(ac, ap), Dot(ab, bp), Dot(ac, bp), Dot(ab, cp), Dot(ac, cp))
  }

  /** The regions that are told apart by the six scalar products, in the order of the tests. */
  function Region(a: Vec3, b: Vec3, c: Vec3, d1: real, d2: real, d3: real, d4: real, d5: real, d6: real): Option<Vec3> {
    var vc, vb, va := Minor(d1, d2, d3, d4), Minor(d5, d6, d1, d2), Minor(d3, d4, d5, d6);
    if d1 <= 0.0 && d2 <= 0.0 then Some(a)
    else if d3 >= 0.0 && d4 <= d3 then Some(b)
    else if vc <= 0.0 && d1 >= 0.0 && d3 <= 0.0 then
      if d1 - d3 == 0.0 then None else Some(Along(a, Ratio(d1, d1 - d3), Sub(b, a)))
    else if d6 >= 0.0 && d5 <= d6 then Some(c)
    else if vb <= 0.0 && d2 >= 0.0 && d6 <= 0.0 then
      if d2 - d6 == 0.0 then None else Some(Along(a, Ratio(d2, d2 - d6), Sub(c, a)))
    else if va <= 0.0 && d4 - d3 >= 0.0 && d5 - d6 >= 0.0 then
      if d4 - d3 + (d5 - d6) == 0.0 then None
      else Some(Along(b, Ratio(d4 - d3, d4 - d3 + (d5 - d6)), Sub(c, b)))
    else if va + vb + vc == 0.0 then None
    else
      var denom := Ratio(1.0, va + vb + vc);
      Some(Along(Along(a, Product(vb, denom), Sub(b, a)), Product(vc, denom), Sub(c, a)))
  }

  // ----- what it should compute

  function At(a: Vec3, b: Vec3, c: Vec3, v: real, w: real): Vec3 {
    Along(Along(a, v, Sub(b, a)), w, Sub(c, a))
  }

  predicate Weights(v: real, w: real) {
    v >= 0.0 && w >= 0.0 && v + w <= 1.0
  }

  ghost predicate InTriangle(q: Vec3, a: Vec3, b: Vec3, c: Vec3) {
    exists v, w :: Weights(v, w) && q == At(a, b, c, v, w)
  }

  function DistSqr(p: Vec3, q: Vec3): real {
    Dot(Sub(p, q), Sub(p, q))
  }

  // ----- the regions, told from the scalar products alone

  /** B = ab.ab, C = ac.ac and m = ab.ac of a triangle, with d1 = ab.ap and d2 = ac.ap. */
  predicate Products(B: real, C: real, m: real, d1: real, d2: real) {
    && B >= 0.0 && C >= 0.0 && m * m <= B * C
    && (B == 0.0 ==> d1 == 0.0 && m == 0.0)
    && (C == 0.0 ==> d2 == 0.0 && m == 0.0)
    && B - 2.0 * m + C >= 0.0
    && (B - 2.0 * m + C == 0.0 ==> d1 == d2 && m == B)
  }

  /** The point with weights v and w is seen from p at an obtuse angle to every corner. */
  predicate Obtuse(B: real, C: real, m: real, d1: real, d2: real, v: real, w: real) {
    var g1, g2 := d1 - v * B - w * m, d2 - v * m - w * C;
    var s := -v * g1 - w * g2;
    s <= 0.0 && s + g1 <= 0.0 && s + g2 <= 0.0
  }

  lemma SignOfFactor(x: real, y: real)
    requires x > 0.0
    ensures x * y > 0.0 <==> y > 0.0
    ensures x * y < 0.0 <==> y < 0.0
  {
  }

  /** Beyond one corner of an edge and on its outer side means on the outer side of the next edge too. */
  lemma OuterSides(B: real, C: real, m: real, d1: real, d2: real)
    requires B > 0.0 && m * m <= B * C && d1 < 0.0 && d2 > 0.0 && B * d2 - m * d1 <= 0.0
    ensures m < 0.0 && C * d1 - m * d2 <= 0.0
  {
    SignOfFactor(B, d2);
    SignOfFactor(-d1, m);
    assert (-m) * (B * d2) <= (-m) * (m * d1);
    assert B * (C * d1 - m * d2) == (B * C) * d1 + (-m) * (B * d2);
    assert (B * C) * d1 <= (m * m) * d1;
    assert (-m) * (m * d1) == -((m * m) * d1);
    SignOfFactor(B, C * d1 - m * d2);
  }

  /** None of the six regions of corners and edges. */
  predicate Face(B: real, C: real, m: real, d1: real, d2: real) {
    var d3, d4, d5, d6 := d1 - B, d2 - m, d1 - m, d2 - C;
    && !(d1 <= 0.0 && d2 <= 0.0)
    && !(d3 >= 0.0 && d4 <= d3)
    && !(B * d2 - m * d1 <= 0.0 && d1 >= 0.0 && d3 <= 0.0)
    && !(d6 >= 0.0 && d5 <= d6)
    && !(C * d1 - m * d2 <= 0.0 && d2 >= 0.0 && d6 <= 0.0)
    && !(d3 * d6 - d5 * d4 <= 0.0 && d4 - d3 >= 0.0 && d5 - d6 >= 0.0)
  }

  lemma PositiveBehind(B: real, C: real, m: real, d1: real, d2: real)
    requires Products(B, C, m, d1, d2) && Face(B, C, m, d1, d2) && d1 < 0.0
    ensures B * d2 - m * d1 > 0.0
  {
    if B * d2 - m * d1 <= 0.0 {
      OuterSides(B, C, m, d1, d2);
      SignOfFactor(d2 - C, d1 - B);
      SignOfFactor(d1 - m, d2 - m);
    }
  }

  lemma Crossed(d3: real, d4: real, d5: real, d6: real)
    requires d5 < d6 < 0.0 < d3 < d4
    ensures d3 * d6 - d5 * d4 > 0.0
  {
    SignOfFactor(d6 - d5, d4);
    SignOfFactor(-d6, d4 - d3);
    assert d3 * d6 - d5 * d4 == (d6 - d5) * d4 + (-d6) * (d4 - d3);
  }

  lemma PositiveBeyond(B: real, C: real, m: real, d1: real, d2: real)
    requires Products(B, C, m, d1, d2) && Face(B, C, m, d1, d2) && d1 > B
    ensures B * d2 - m * d1 > 0.0
  {
    var d3, d4, d5, d6 := d1 - B, d2 - m, d1 - m, d2 - C;
    var E, n := B - 2.0 * m + C, B - m;
    assert B * (d4 - d3) - n * (-d3) == B * d2 - m * d1;
    assert B * E - n * n == B * C - m * m;
    assert E * (-d3) - n * (d4 - d3) == d3 * d6 - d5 * d4;
    assert d1 * d4 - d3 * d2 == B * d2 - m * d1;
    if B * d2 - m * d1 <= 0.0 {
      OuterSides(B, E, n, -d3, d4 - d3);
      if d5 < d6 { Crossed(d3, d4, d5, d6); }
    }
  }

  lemma PositiveAt(B: real, C: real, m: real, d1: real, d2: real)
    requires Products(B, C, m, d1, d2) && Face(B, C, m, d1, d2)
    ensures B * d2 - m * d1 > 0.0
  {
    if d1 < 0.0 {
      PositiveBehind(B, C, m, d1, d2);
    } else if d1 > B {
      PositiveBeyond(B, C, m, d1, d2);
    }
  }

  /** Inside all regions of corners and edges the three areas are positive. */
  lemma FaceAreas(B: real, C: real, m: real, d1: real, d2: real)
    requires Products(B, C, m, d1, d2) && Face(B, C, m, d1, d2)
    ensures B * d2 - m * d1 > 0.0 && C * d1 - m * d2 > 0.0
    ensures (d1 - B) * (d2 - C) - (d1 - m) * (d2 - m) > 0.0
  {
    var d3, d4, d5, d6 := d1 - B, d2 - m, d1 - m, d2 - C;
    PositiveAt(B, C, m, d1, d2);
    PositiveAt(C, B, m, d2, d1);
    var E := B - 2.0 * m + C;
    assert E * B - (B - m) * (B - m) == B * C - m * m && E * C - (C - m) * (C - m) == B * C - m * m;
    assert E * (-d3) - (B - m) * (d4 - d3) == d3 * d6 - d5 * d4;
    assert E * (-d6) - (C - m) * (d5 - d6) == d3 * d6 - d5 * d4;
    if d3 * d6 - d5 * d4 <= 0.0 {
      if d4 < d3 {
        OuterSides(E, B, B - m, d4 - d3, -d3);
      } else {
        OuterSides(E, C, C - m, d5 - d6, -d6);
      }
    }
  }

  // ----- each region returns a point seen at obtuse angles

  lemma EdgeIsObtuse(B: real, C: real, m: real, d1: real, d2: real)
    requires B > 0.0 && 0.0 <= d1 <= B && B * d2 - m * d1 <= 0.0
    ensures Weights(d1 / B, 0.0) && Obtuse(B, C, m, d1, d2, d1 / B, 0.0)
  {
    var v := d1 / B;
    assert v * B == d1;
    assert B * (d2 - v * m) == B * d2 - m * d1;
    SignOfFactor(B, d2 - v * m);
    SignOfFactor(B, v);
    SignOfFactor(B, 1.0 - v);
  }

  lemma SwapIsObtuse(B: real, C: real, m: real, d1: real, d2: real, v: real, w: real)
    requires Obtuse(C, B, m, d2, d1, w, v)
    ensures Obtuse(B, C, m, d1, d2, v, w)
  {
  }

  /** The same point told from corner b. */
  lemma TurnIsObtuse(B: real, C: real, m: real, d1: real, d2: real, w: real)
    requires Obtuse(B - 2.0 * m + C, B, B - m, d2 - m - (d1 - B), B - d1, w, 0.0)
    ensures Obtuse(B, C, m, d1, d2, 1.0 - w, w)
  {
    var E := B - 2.0 * m + C;
    var g1, g2 := d1 - (1.0 - w) * B - w * m, d2 - (1.0 - w) * m - w * C;
    assert d2 - m - (d1 - B) - w * E - 0.0 * (B - m) == g2 - g1;
    assert B - d1 - w * (B - m) - 0.0 * B == -g1;
    assert -w * (g2 - g1) == -(1.0 - w) * g1 - w * g2 + g1;
  }

  /** Where v * B + w * m == d1 and v * m + w * C == d2, by Cramer's rule. */
  lemma Cramer(B: real, C: real, m: real, d1: real, d2: real)
    requires B * C - m * m != 0.0
    ensures var v, w := (C * d1 - m * d2) / (B * C - m * m), (B * d2 - m * d1) / (B * C - m * m);
      d1 - v * B - w * m == 0.0 && d2 - v * m - w * C == 0.0
  {
    var G, vb, vc := B * C - m * m, C * d1 - m * d2, B * d2 - m * d1;
    var v, w := vb / G, vc / G;
    assert G * v == vb && G * w == vc;
    assert vb * B + vc * m == G * d1 && vb * m + vc * C == G * d2;
    assert G * (v * B + w * m) == vb * B + vc * m && G * (v * m + w * C) == vb * m + vc * C;
    Cancel(G, v * B + w * m, d1);
    Cancel(G, v * m + w * C, d2);
  }

  lemma Cancel(x: real, y: real, z: real)
    requires x != 0.0 && x * y == x * z
    ensures y == z
  {
    assert x * (y - z) == 0.0;
  }

  lemma ThreeParts(x: real, y: real, z: real)
    requires x > 0.0 && y > 0.0 && z > 0.0
    ensures Weights(x / (x + y + z), y / (x + y + z))
  {
    var G := x + y + z;
    assert G * (x / G) == x && G * (y / G) == y;
    SignOfFactor(G, x / G);
    SignOfFactor(G, y / G);
    assert G * (1.0 - x / G - y / G) == z;
    SignOfFactor(G, 1.0 - x / G - y / G);
  }

  lemma FaceIsObtuse(B: real, C: real, m: real, d1: real, d2: real)
    requires B * d2 - m * d1 > 0.0 && C * d1 - m * d2 > 0.0 && (d1 - B) * (d2 - C) - (d1 - m) * (d2 - m) > 0.0
    ensures B * C - m * m > 0.0
    ensures var v, w := (C * d1 - m * d2) / (B * C - m * m), (B * d2 - m * d1) / (B * C - m * m);
      Weights(v, w) && Obtuse(B, C, m, d1, d2, v, w)
  {
    var va := (d1 - B) * (d2 - C) - (d1 - m) * (d2 - m);
    assert B * C - m * m == C * d1 - m * d2 + (B * d2 - m * d1) + va;
    ThreeParts(C * d1 - m * d2, B * d2 - m * d1, va);
    Cramer(B, C, m, d1, d2);
  }

  lemma FarEdgeIsObtuse(B: real, C: real, m: real, d1: real, d2: real)
    requires Products(B, C, m, d1, d2) && B - 2.0 * m + C > 0.0
    requires B * C - m * m - (C * d1 - m * d2) - (B * d2 - m * d1) <= 0.0
    requires d2 - m - (d1 - B) >= 0.0 && d1 - m - (d2 - C) >= 0.0
    ensures var w := (d2 - m - (d1 - B)) / (B - 2.0 * m + C);
      Weights(1.0 - w, w) && Obtuse(B, C, m, d1, d2, 1.0 - w, w)
  {
    var E, t := B - 2.0 * m + C, d2 - m - (d1 - B);
    assert E * (B - d1) - (B - m) * t == B * C - m * m - (C * d1 - m * d2) - (B * d2 - m * d1);
    EdgeIsObtuse(E, B, B - m, t, B - d1);
    TurnIsObtuse(B, C, m, d1, d2, t / E);
  }

  // ----- vectors

  lemma CauchySchwarz(u: Vec3, t: Vec3)
    ensures Dot(u, t) * Dot(u, t) <= Dot(u, u) * Dot(t, t)
  {
    var x, y, z := u.y * t.z - u.z * t.y, u.z * t.x - u.x * t.z, u.x * t.y - u.y * t.x;
    NotNegative(x);
    NotNegative(y);
    NotNegative(z);
    Lagrange(u.x, u.y, u.z, t.x, t.y, t.z);
  }

  lemma Lagrange(a: real, b: real, c: real, d: real, e: real, f: real)
    ensures (a * a + b * b + c * c) * (d * d + e * e + f * f) - (a * d + b * e + c * f) * (a * d + b * e + c * f) ==
            (b * f - c * e) * (b * f - c * e) + (c * d - a * f) * (c * d - a * f) + (a * e - b * d) * (a * e - b * d)
  {
  }

  lemma DotWithNothing(u: Vec3, t: Vec3)
    requires Dot(u, u) == 0.0
    ensures Dot(u, t) == 0.0 == Dot(t, u)
  {
    SquareIsPositive(u);
    DotZero(t);
    hide Dot;
    DotCommutes(u, t);
  }

  lemma DotZero(t: Vec3)
    ensures Dot(Vec3(0.0, 0.0, 0.0), t) == 0.0
  {
  }

  lemma OtherEdge(p: Vec3, a: Vec3, b: Vec3, c: Vec3)
    ensures var ab, ac, ap := Sub(b, a), Sub(c, a), Sub(p, a);
      && Dot(Sub(c, b), Sub(c, b)) == Dot(ab, ab) - 2.0 * Dot(ab, ac) + Dot(ac, ac)
      && Dot(Sub(c, b), ap) == Dot(ac, ap) - Dot(ab, ap)
      && Dot(Sub(c, b), ab) == Dot(ab, ac) - Dot(ab, ab)
  {
  }

  lemma TriangleProducts(p: Vec3, a: Vec3, b: Vec3, c: Vec3)
    ensures var ab, ac, ap := Sub(b, a), Sub(c, a), Sub(p, a);
      Products(Dot(ab, ab), Dot(ac, ac), Dot(ab, ac), Dot(ab, ap), Dot(ac, ap))
    ensures Dot(Sub(b, a), Sub(b, a)) == 0.0 <==> a == b
  {
    var ab, ac, bc, ap := Sub(b, a), Sub(c, a), Sub(c, b), Sub(p, a);
    SquareIsPositive(ab);
    SquareIsPositive(ac);
    SquareIsPositive(bc);
    hide Dot;
    CauchySchwarz(ab, ac);
    OtherEdge(p, a, b, c);
    if Dot(ab, ab) == 0.0 { DotWithNothing(ab, ac); DotWithNothing(ab, ap); }
    if Dot(ac, ac) == 0.0 { DotWithNothing(ac, ab); DotWithNothing(ac, ap); }
    if Dot(bc, bc) == 0.0 { DotWithNothing(bc, ab); DotWithNothing(bc, ap); }
    if a == b { SquareOfNothing(ab); }
  }

  lemma SquareOfNothing(u: Vec3)
    requires u == Vec3(0.0, 0.0, 0.0)
    ensures Dot(u, u) == 0.0
  {
  }

  function Square(x: real): real {
    Product(x, x)
  }

  lemma PositiveProduct(x: real, y: real)
    requires x > 0.0 && y > 0.0
    ensures Product(x, y) > 0.0
  {
    SignOfFactor(x, y);
  }

  lemma Negated(x: real)
    ensures Square(x) == Square(-x)
  {
  }

  lemma NotNegative(x: real)
    ensures Square(x) >= 0.0
    ensures x != 0.0 ==> Square(x) > 0.0
  {
    Negated(x);
    if x > 0.0 {
      hide Product;
      PositiveProduct(x, x);
    } else if x < 0.0 {
      hide Product;
      PositiveProduct(-x, -x);
    }
  }

  lemma DotIsSquares(u: Vec3)
    ensures Dot(u, u) == Square(u.x) + Square(u.y) + Square(u.z)
  {
  }

  lemma SquareIsPositive(u: Vec3)
    ensures Dot(u, u) >= 0.0
    ensures u != Vec3(0.0, 0.0, 0.0) ==> Dot(u, u) > 0.0
  {
    hide Square, Dot;
    DotIsSquares(u);
    NotNegative(u.x);
    NotNegative(u.y);
    NotNegative(u.z);
  }

  lemma FromOtherCorners(p: Vec3, a: Vec3, b: Vec3, c: Vec3)
    ensures var ab, ac, ap := Sub(b, a), Sub(c, a), Sub(p, a);
      && Dot(ab, Sub(p, b)) == Dot(ab, ap) - Dot(ab, ab)
      && Dot(ac, Sub(p, b)) == Dot(ac, ap) - Dot(ab, ac)
      && Dot(ab, Sub(p, c)) == Dot(ab, ap) - Dot(ab, ac)
      && Dot(ac, Sub(p, c)) == Dot(ac, ap) - Dot(ac, ac)
  {
  }

  lemma DotFromAt(u: Vec3, p: Vec3, a: Vec3, b: Vec3, c: Vec3, v: real, w: real)
    ensures Dot(u, Sub(p, At(a, b, c, v, w))) ==
            Dot(u, Sub(p, a)) - v * Dot(u, Sub(b, a)) - w * Dot(u, Sub(c, a))
  {
  }

  lemma LawOfCosines(p: Vec3, q: Vec3, x: Vec3)
    ensures DistSqr(p, x) == DistSqr(p, q) + DistSqr(q, x) - 2.0 * Dot(Sub(x, q), Sub(p, q))
  {
  }

  lemma Between(u: Vec3, a: Vec3, b: Vec3, c: Vec3, v: real, w: real, v': real, w': real)
    ensures Dot(Sub(At(a, b, c, v', w'), At(a, b, c, v, w)), u) ==
            (v' - v) * Dot(Sub(b, a), u) + (w' - w) * Dot(Sub(c, a), u)
  {
  }

  /** A point of the triangle that is seen at obtuse angles is closer than any other, by the law of cosines. */
  lemma ObtuseIsClosest(p: Vec3, a: Vec3, b: Vec3, c: Vec3, v: real, w: real, v': real, w': real)
    requires Weights(v', w')
    requires var ab, ac, ap := Sub(b, a), Sub(c, a), Sub(p, a);
      Obtuse(Dot(ab, ab), Dot(ac, ac), Dot(ab, ac), Dot(ab, ap), Dot(ac, ap), v, w)
    ensures var q, x := At(a, b, c, v, w), At(a, b, c, v', w');
      DistSqr(p, x) >= DistSqr(p, q) + DistSqr(q, x)
  {
    hide Dot, Sub, At, DistSqr;
    var ab, ac, ap := Sub(b, a), Sub(c, a), Sub(p, a);
    var q, x := At(a, b, c, v, w), At(a, b, c, v', w');
    DotFromAt(ab, p, a, b, c, v, w);
    DotFromAt(ac, p, a, b, c, v, w);
    DotCommutes(ac, ab);
    var g1, g2 := Dot(ab, Sub(p, q)), Dot(ac, Sub(p, q));
    var s := -v * g1 - w * g2;
    LawOfCosines(p, q, x);
    Between(Sub(p, q), a, b, c, v, w, v', w');
    assert (v' - v) * g1 + (w' - w) * g2 == v' * (s + g1) + w' * (s + g2) + (1.0 - v' - w') * s;
    Combination(v', w', s + g1, s + g2, s);
  }

  lemma DotCommutes(u: Vec3, t: Vec3)
    ensures Dot(u, t) == Dot(t, u)
  {
  }

  lemma Combination(v: real, w: real, x: real, y: real, z: real)
    requires Weights(v, w) && x <= 0.0 && y <= 0.0 && z <= 0.0
    ensures v * x + w * y + (1.0 - v - w) * z <= 0.0
  {
    NotPositive(v, x);
    NotPositive(w, y);
    NotPositive(1.0 - v - w, z);
  }

  lemma NotPositive(x: real, y: real)
    requires x >= 0.0 && y <= 0.0
    ensures x * y <= 0.0
  {
    if x > 0.0 { SignOfFactor(x, y); }
  }

  // ----- the code

  /** The weights of the point that the code returns, by the same branches. */
  function CodeWeights(d1: real, d2: real, d3: real, d4: real, d5: real, d6: real,
                       va: real, vb: real, vc: real): Option<(real, real)>
  {
    if d1 <= 0.0 && d2 <= 0.0 then Some((0.0, 0.0))
    else if d3 >= 0.0 && d4 <= d3 then Some((1.0, 0.0))
    else if vc <= 0.0 && d1 >= 0.0 && d3 <= 0.0 then
      if d1 - d3 == 0.0 then None else Some((Ratio(d1, d1 - d3), 0.0))
    else if d6 >= 0.0 && d5 <= d6 then Some((0.0, 1.0))
    else if vb <= 0.0 && d2 >= 0.0 && d6 <= 0.0 then
      if d2 - d6 == 0.0 then None else Some((0.0, Ratio(d2, d2 - d6)))
    else if va <= 0.0 && d4 - d3 >= 0.0 && d5 - d6 >= 0.0 then
      if d4 - d3 + (d5 - d6) == 0.0 then None
      else Some((1.0 - Ratio(d4 - d3, d4 - d3 + (d5 - d6)), Ratio(d4 - d3, d4 - d3 + (d5 - d6))))
    else if va + vb + vc == 0.0 then None
    else Some((Ratio(vb, va + vb + vc), Ratio(vc, va + vb + vc)))
  }

  lemma Corners(a: Vec3, b: Vec3, c: Vec3, t: real)
    ensures At(a, b, c, 0.0, 0.0) == a && At(a, b, c, 1.0, 0.0) == b && At(a, b, c, 0.0, 1.0) == c
    ensures At(a, b, c, t, 0.0) == Along(a, t, Sub(b, a)) && At(a, b, c, 0.0, t) == Along(a, t, Sub(c, a))
    ensures At(a, b, c, 1.0 - t, t) == Along(b, t, Sub(c, b))
  {
  }

  lemma TimesReciprocal(x: real, y: real)
    requires y != 0.0
    ensures Product(x, Ratio(1.0, y)) == Ratio(x, y)
  {
  }

  /** What the six scalar products and the three areas in the code amount to. */
  predicate Amounts(B: real, C: real, m: real, d1: real, d2: real, d3: real, d4: real, d5: real, d6: real,
                    va: real, vb: real, vc: real)
  {
    && d3 == d1 - B && d4 == d2 - m && d5 == d1 - m && d6 == d2 - C
    && vc == B * d2 - m * d1 && vb == C * d1 - m * d2 && va + vb + vc == B * C - m * m
  }

  lemma AmountsOf(B: real, C: real, m: real, d1: real, d2: real, d3: real, d4: real, d5: real, d6: real)
    requires d3 == d1 - B && d4 == d2 - m && d5 == d1 - m && d6 == d2 - C
    ensures Amounts(B, C, m, d1, d2, d3, d4, d5, d6, Minor(d3, d4, d5, d6), Minor(d5, d6, d1, d2),
      Minor(d1, d2, d3, d4))
  {
  }

  lemma CodeReturns(a: Vec3, b: Vec3, c: Vec3, d1: real, d2: real, d3: real, d4: real, d5: real, d6: real)
    ensures var r := CodeWeights(d1, d2, d3, d4, d5, d6, Minor(d3, d4, d5, d6),
      Minor(d5, d6, d1, d2), Minor(d1, d2, d3, d4));
      Region(a, b, c, d1, d2, d3, d4, d5, d6) == if r.None? then None else Some(At(a, b, c, r.value.0, r.value.1))
  {
    hide Sub, At, Along, Product, Ratio, Minor;
    var vc, vb, va := Minor(d1, d2, d3, d4), Minor(d5, d6, d1, d2), Minor(d3, d4, d5, d6);
    var G := va + vb + vc;
    Corners(a, b, c, 0.0);
    if d1 - d3 != 0.0 { Corners(a, b, c, Ratio(d1, d1 - d3)); }
    if d2 - d6 != 0.0 { Corners(a, b, c, Ratio(d2, d2 - d6)); }
    if d4 - d3 + (d5 - d6) != 0.0 { Corners(a, b, c, Ratio(d4 - d3, d4 - d3 + (d5 - d6))); }
    if G != 0.0 {
      TimesReciprocal(vb, G);
      TimesReciprocal(vc, G);
      FacePoint(a, b, c, Ratio(vb, G), Ratio(vc, G));
    }
  }

  lemma FacePoint(a: Vec3, b: Vec3, c: Vec3, v: real, w: real)
    ensures At(a, b, c, v, w) == Along(Along(a, v, Sub(b, a)), w, Sub(c, a))
  {
  }

  /** The quotient is 0/0 in one case only. */
  lemma CodeIsObtuse(B: real, C: real, m: real, d1: real, d2: real, d3: real, d4: real, d5: real, d6: real,
                     va: real, vb: real, vc: real)
    requires Products(B, C, m, d1, d2) && Amounts(B, C, m, d1, d2, d3, d4, d5, d6, va, vb, vc)
    ensures var r := CodeWeights(d1, d2, d3, d4, d5, d6, va, vb, vc);
      && (r.None? <==> B == 0.0 && d2 > 0.0)
      && (r.Some? ==> Weights(r.value.0, r.value.1) && Obtuse(B, C, m, d1, d2, r.value.0, r.value.1))
  {
    if d1 <= 0.0 && d2 <= 0.0 {
    } else if d3 >= 0.0 && d4 <= d3 {
    } else if vc <= 0.0 && d1 >= 0.0 && d3 <= 0.0 {
      if B != 0.0 { EdgeIsObtuse(B, C, m, d1, d2); }
    } else if d6 >= 0.0 && d5 <= d6 {
    } else if vb <= 0.0 && d2 >= 0.0 && d6 <= 0.0 {
      EdgeIsObtuse(C, B, m, d2, d1);
      SwapIsObtuse(B, C, m, d1, d2, 0.0, d2 / C);
    } else if va <= 0.0 && d4 - d3 >= 0.0 && d5 - d6 >= 0.0 {
      FarEdgeIsObtuse(B, C, m, d1, d2);
    } else {
      FaceAreas(B, C, m, d1, d2);
      FaceIsObtuse(B, C, m, d1, d2);
    }
  }

  /** The weights of the point returned, found at all unless a and b coincide and p lies beyond them towards c. */
  lemma ReturnedPoint(p: Vec3, a: Vec3, b: Vec3, c: Vec3) returns (v: real, w: real)
    ensures var r := ClosestPtPointTriangle(p, a, b, c);
      && (r.None? <==> a == b && Dot(Sub(c, a), Sub(p, a)) > 0.0)
      && (r.Some? ==> r.value == At(a, b, c, v, w) && Weights(v, w))
    ensures var ab, ac, ap := Sub(b, a), Sub(c, a), Sub(p, a);
      ClosestPtPointTriangle(p, a, b, c).Some? ==>
      Obtuse(Dot(ab, ab), Dot(ac, ac), Dot(ab, ac), Dot(ab, ap), Dot(ac, ap), v, w)
  {
    hide Dot, Sub, At, Region, Minor, CodeWeights, Products, Obtuse, Weights;
    var ab, ac, ap := Sub(b, a), Sub(c, a), Sub(p, a);
    TriangleProducts(p, a, b, c);
    FromOtherCorners(p, a, b, c);
    var d1, d2, d3, d4 := Dot(ab, ap), Dot(ac, ap), Dot(ab, Sub(p, b)), Dot(ac, Sub(p, b));
    var d5, d6 := Dot(ab, Sub(p, c)), Dot(ac, Sub(p, c));
    var va, vb, vc := Minor(d3, d4, d5, d6), Minor(d5, d6, d1, d2), Minor(d1, d2, d3, d4);
    AmountsOf(Dot(ab, ab), Dot(ac, ac), Dot(ab, ac), d1, d2, d3, d4, d5, d6);
    CodeReturns(a, b, c, d1, d2, d3, d4, d5, d6);
    CodeIsObtuse(Dot(ab, ab), Dot(ac, ac), Dot(ab, ac), d1, d2, d3, d4, d5, d6, va, vb, vc);
    var r := CodeWeights(d1, d2, d3, d4, d5, d6, va, vb, vc);
    v, w := if r.Some? then r.value.0 else 0.0, if r.Some? then r.value.1 else 0.0;
  }

  /** The point returned lies in the triangle, and every other point x of the triangle is further away from
      p, by no less than its own distance from it (all distances squared). */
  lemma ClosestPoint(p: Vec3, a: Vec3, b: Vec3, c: Vec3)
    ensures ClosestPtPointTriangle(p, a, b, c).None? <==> a == b && Dot(Sub(c, a), Sub(p, a)) > 0.0
    ensures var r := ClosestPtPointTriangle(p, a, b, c);
      r.Some? ==>
        && InTriangle(r.value, a, b, c)
        && forall x :: InTriangle(x, a, b, c) ==> DistSqr(p, x) >= DistSqr(p, r.value) + DistSqr(r.value, x)
  {
    hide Dot, Sub, At, DistSqr, ClosestPtPointTriangle, Weights, Obtuse;
    var v, w := ReturnedPoint(p, a, b, c);
    var r := ClosestPtPointTriangle(p, a, b, c);
    if r.Some? {
      forall x | InTriangle(x, a, b, c) ensures DistSqr(p, x) >= DistSqr(p, r.value) + DistSqr(r.value, x) {
        var v', w' :| Weights(v', w') && x == At(a, b, c, v', w');
        ObtuseIsClosest(p, a, b, c, v, w, v', w');
      }
    }
  }

  lemma ApartIsPositive(p: Vec3, q: Vec3)
    ensures DistSqr(p, q) >= 0.0 && (DistSqr(p, q) <= 0.0 ==> p == q)
  {
    hide Dot;
    SquareIsPositive(Sub(p, q));
  }

  lemma SameTriangle(p: Vec3, a: Vec3, b: Vec3, c: Vec3, a': Vec3, b': Vec3, c': Vec3)
    requires forall x :: InTriangle(x, a, b, c) <==> InTriangle(x, a', b', c')
    requires ClosestPtPointTriangle(p, a, b, c).Some? && ClosestPtPointTriangle(p, a', b', c').Some?
    ensures ClosestPtPointTriangle(p, a, b, c) == ClosestPtPointTriangle(p, a', b', c')
  {
    hide ClosestPtPointTriangle, InTriangle, DistSqr;
    ClosestPoint(p, a, b, c);
    ClosestPoint(p, a', b', c');
    var q, q' := ClosestPtPointTriangle(p, a, b, c).value, ClosestPtPointTriangle(p, a', b', c').value;
    ApartIsPositive(q, q');
    ApartIsPositive(q', q);
  }

  lemma SwappedWeights(a: Vec3, b: Vec3, c: Vec3, v: real, w: real)
    ensures At(a, b, c, v, w) == At(a, c, b, w, v)
    ensures At(a, b, c, v, w) == At(b, a, c, 1.0 - v - w, w)
  {
  }

  lemma SwappedTriangle(x: Vec3, a: Vec3, b: Vec3, c: Vec3)
    requires InTriangle(x, a, b, c)
    ensures InTriangle(x, a, c, b) && InTriangle(x, b, a, c)
  {
    hide At;
    var v, w :| Weights(v, w) && x == At(a, b, c, v, w);
    SwappedWeights(a, b, c, v, w);
    assert Weights(w, v) && Weights(1.0 - v - w, w);
  }

  /** The order in which the corners are given does not matter, wherever both orders give a point. */
  lemma OrderOfCorners(p: Vec3, a: Vec3, b: Vec3, c: Vec3)
    requires ClosestPtPointTriangle(p, a, b, c).Some?
    ensures ClosestPtPointTriangle(p, a, c, b).Some? ==>
      ClosestPtPointTriangle(p, a, c, b) == ClosestPtPointTriangle(p, a, b, c)
    ensures ClosestPtPointTriangle(p, b, a, c).Some? ==>
      ClosestPtPointTriangle(p, b, a, c) == ClosestPtPointTriangle(p, a, b, c)
  {
    hide ClosestPtPointTriangle, InTriangle;
    forall x ensures InTriangle(x, a, b, c) <==> InTriangle(x, a, c, b) {
      if InTriangle(x, a, b, c) { SwappedTriangle(x, a, b, c); }
      if InTriangle(x, a, c, b) { SwappedTriangle(x, a, c, b); }
    }
    forall x ensures InTriangle(x, a, b, c) <==> InTriangle(x, b, a, c) {
      if InTriangle(x, a, b, c) { SwappedTriangle(x, a, b, c); }
      if InTriangle(x, b, a, c) { SwappedTriangle(x, b, a, c); }
    }
    if ClosestPtPointTriangle(p, a, c, b).Some? { SameTriangle(p, a, b, c, a, c, b); }
    if ClosestPtPointTriangle(p, b, a, c).Some? { SameTriangle(p, a, b, c, b, a, c); }
  }

  lemma SelfDistance(p: Vec3)
    ensures DistSqr(p, p) == 0.0
  {
  }

  /** A point of the triangle is its own closest point. */
  lemma InsideIsFixed(p: Vec3, a: Vec3, b: Vec3, c: Vec3)
    requires InTriangle(p, a, b, c) && ClosestPtPointTriangle(p, a, b, c).Some?
    ensures ClosestPtPointTriangle(p, a, b, c) == Some(p)
  {
    hide ClosestPtPointTriangle, InTriangle, DistSqr;
    ClosestPoint(p, a, b, c);
    SelfDistance(p);
    ApartIsPositive(p, ClosestPtPointTriangle(p, a, b, c).value);
    ApartIsPositive(ClosestPtPointTriangle(p, a, b, c).value, p);
  }
}
