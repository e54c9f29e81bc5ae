/** Vectors of three reals, matrices by columns, and linear systems solved exactly. */
module LinearAlgebra {
  import opened Options

  datatype Vec = Vec(x: real, y: real, z: real)

  /** By columns. */
  datatype Mat = Mat(a: Vec, b: Vec, c: Vec)

  const E1 := Vec(1.0, 0.0, 0.0)
  const E2 := Vec(0.0, 1.0, 0.0)
  const E3 := Vec(0.0, 0.0, 1.0)

  /** A sum of three products, of which everything else is made. */
  function Lin(x: real, a: real, y: real, b: real, z: real, c: real): real { x * a + y * b + z * c }

  /** A two by two determinant. */
  function Minor(a: real, b: real, c: real, d: real): real { a * d - b * c }

  function Add(u: Vec, v: Vec): Vec { Vec(u.x + v.x, u.y + v.y, u.z + v.z) }

  function Sub(u: Vec, v: Vec): Vec { Vec(u.x - v.x, u.y - v.y, u.z - v.z) }

  function Times(s: real, v: Vec): Vec { Vec(s * v.x, s * v.y, s * v.z) }

  function Dot(u: Vec, v: Vec): real { Lin(u.x, v.x, u.y, v.y, u.z, v.z) }

  function Cross(u: Vec, v: Vec): Vec {
    Vec(Minor(u.y, u.z, v.y, v.z), Minor(u.z, u.x, v.z, v.x), Minor(u.x, u.y, v.x, v.y))
  }

  function Apply(m: Mat, w: Vec): Vec {
    Vec(Lin(w.x, m.a.x, w.y, m.b.x, w.z, m.c.x),
        Lin(w.x, m.a.y, w.y, m.b.y, w.z, m.c.y),
        Lin(w.x, m.a.z, w.y, m.b.z, w.z, m.c.z))
  }

  function Scaled(s: real, m: Mat): Mat { Mat(Times(s, m.a), Times(s, m.b), Times(s, m.c)) }

  function Det(m: Mat): real { Dot(m.a, Cross(m.b, m.c)) }

  /** The solution of `m w = p`, by Cramer's rule; none when the matrix is singular. */
  function Solve(m: Mat, p: Vec): Option<Vec> {
    var d := Det(m);
    if d == 0.0 then None
    else Some(Vec(Dot(p, Cross(m.b, m.c)) / d, Dot(p, Cross(m.c, m.a)) / d, Dot(p, Cross(m.a, m.b)) / d))
  }

  function Inverse(m: Mat): Option<Mat> {
    if Det(m) == 0.0 then None
    else Some(Mat(Solve(m, E1).value, Solve(m, E2).value, Solve(m, E3).value))
  }

  // --- Identities on plain numbers -----------------------------------------

  /** Scaling the first factors, or the second ones, scales the sum. */
  lemma LinTimes(
    s: real, x: real, a: real, y: real, b: real, z: real, c: real, x': real, y': real, z': real, sum: real)
    requires x' == s * x && y' == s * y && z' == s * z
    requires sum == Lin(x', a, y', b, z', c) || sum == Lin(a, x', b, y', c, z')
    ensures sum == s * Lin(x, a, y, b, z, c) && sum == s * Lin(a, x, b, y, c, z)
  {
  }

  lemma MinorTimes(s: real, a: real, b: real, c: real, d: real)
    ensures Minor(s * a, s * b, c, d) == s * Minor(a, b, c, d)
    ensures Minor(a, b, s * c, s * d) == s * Minor(a, b, c, d)
  {
  }

  lemma Quotient(y: real, x: real, d: real)
    requires d != 0.0 && y == x * d
    ensures y / d == x
  {
  }

  lemma Exchange(
    wx: real, wy: real, wz: real, a: real, b: real, c: real, d: real, e: real, f: real, g: real, h: real, i: real,
    n: real, o: real, p: real)
    ensures Lin(Lin(wx, a, wy, b, wz, c), n, Lin(wx, d, wy, e, wz, f), o, Lin(wx, g, wy, h, wz, i), p)
         == Lin(wx, Lin(a, n, d, o, g, p), wy, Lin(b, n, e, o, h, p), wz, Lin(c, n, f, o, i, p))
  {
  }

  lemma Alternating(a: real, b: real, c: real, d: real, e: real, f: real)
    ensures Lin(a, Minor(b, c, e, f), b, Minor(c, a, f, d), c, Minor(a, b, d, e)) == 0.0
    ensures Lin(d, Minor(b, c, e, f), e, Minor(c, a, f, d), f, Minor(a, b, d, e)) == 0.0
  {
  }

  lemma Cyclic(a: real, b: real, c: real, d: real, e: real, f: real, g: real, h: real, i: real)
    ensures Lin(a, Minor(e, f, h, i), b, Minor(f, d, i, g), c, Minor(d, e, g, h))
         == Lin(d, Minor(h, i, b, c), e, Minor(i, g, c, a), f, Minor(g, h, a, b))
  {
  }

  // --- Identities on vectors -----------------------------------------------

  lemma DotTimes(s: real, u: Vec, v: Vec)
    ensures Dot(Times(s, u), v) == s * Dot(u, v)
  {
    var n := Times(s, u);
    LinTimes(s, u.x, v.x, u.y, v.y, u.z, v.z, n.x, n.y, n.z, Dot(n, v));
  }

  lemma DotTimesRight(s: real, u: Vec, v: Vec)
    ensures Dot(u, Times(s, v)) == s * Dot(u, v)
  {
    var n := Times(s, v);
    LinTimes(s, v.x, u.x, v.y, u.y, v.z, u.z, n.x, n.y, n.z, Dot(u, n));
  }

  lemma CrossTimes(s: real, u: Vec, v: Vec)
    ensures Cross(Times(s, u), v) == Times(s, Cross(u, v))
    ensures Cross(u, Times(s, v)) == Times(s, Cross(u, v))
  {
    var n := Times(s, Cross(u, v));
    assert Cross(Times(s, u), v).x == n.x == Cross(u, Times(s, v)).x by { MinorTimes(s, u.y, u.z, v.y, v.z); }
    assert Cross(Times(s, u), v).y == n.y == Cross(u, Times(s, v)).y by { MinorTimes(s, u.z, u.x, v.z, v.x); }
    assert Cross(Times(s, u), v).z == n.z == Cross(u, Times(s, v)).z by { MinorTimes(s, u.x, u.y, v.x, v.y); }
  }

  lemma DotCross(u: Vec, v: Vec)
    ensures Dot(u, Cross(u, v)) == 0.0 && Dot(v, Cross(u, v)) == 0.0
  {
    Alternating(u.x, u.y, u.z, v.x, v.y, v.z);
  }

  lemma DotCycle(u: Vec, v: Vec, w: Vec)
    ensures Dot(u, Cross(v, w)) == Dot(v, Cross(w, u))
  {
    Cyclic(u.x, u.y, u.z, v.x, v.y, v.z, w.x, w.y, w.z);
  }

  lemma DotOfApply(m: Mat, w: Vec, n: Vec)
    ensures Dot(Apply(m, w), n) == Lin(w.x, Dot(m.a, n), w.y, Dot(m.b, n), w.z, Dot(m.c, n))
  {
    Exchange(w.x, w.y, w.z, m.a.x, m.b.x, m.c.x, m.a.y, m.b.y, m.c.y, m.a.z, m.b.z, m.c.z, n.x, n.y, n.z);
  }

  /** A system has no other solution than the one Cramer's rule gives. */
  lemma SolveUnique(m: Mat, w: Vec, p: Vec)
    requires Det(m) != 0.0 && Apply(m, w) == p
    ensures Solve(m, p) == Some(w)
  {
    var d := Det(m);
    CramerRow(m, w);
    Quotient(Dot(p, Cross(m.b, m.c)), w.x, d);
    Quotient(Dot(p, Cross(m.c, m.a)), w.y, d);
    Quotient(Dot(p, Cross(m.a, m.b)), w.z, d);
  }

  lemma CramerRow(m: Mat, w: Vec)
    ensures Dot(Apply(m, w), Cross(m.b, m.c)) == w.x * Det(m)
    ensures Dot(Apply(m, w), Cross(m.c, m.a)) == w.y * Det(m)
    ensures Dot(Apply(m, w), Cross(m.a, m.b)) == w.z * Det(m)
  {
    var d := Det(m);
    DotCross(m.b, m.c);
    DotCross(m.c, m.a);
    DotCross(m.a, m.b);
    DotCycle(m.a, m.b, m.c);
    DotCycle(m.b, m.c, m.a);
    DotOfApply(m, w, Cross(m.b, m.c));
    DotOfApply(m, w, Cross(m.c, m.a));
    DotOfApply(m, w, Cross(m.a, m.b));
    assert Lin(w.x, d, w.y, 0.0, w.z, 0.0) == w.x * d;
    assert Lin(w.x, 0.0, w.y, d, w.z, 0.0) == w.y * d;
    assert Lin(w.x, 0.0, w.y, 0.0, w.z, d) == w.z * d;
  }

  lemma ApplyTimesX(m: Mat, s: real, w: Vec)
    ensures Apply(m, Times(s, w)).x == s * Apply(m, w).x
  {
    var n := Times(s, w);
    LinTimes(s, w.x, m.a.x, w.y, m.b.x, w.z, m.c.x, n.x, n.y, n.z, Apply(m, n).x);
  }

  lemma ApplyTimesY(m: Mat, s: real, w: Vec)
    ensures Apply(m, Times(s, w)).y == s * Apply(m, w).y
  {
    var n := Times(s, w);
    LinTimes(s, w.x, m.a.y, w.y, m.b.y, w.z, m.c.y, n.x, n.y, n.z, Apply(m, n).y);
  }

  lemma ApplyTimesZ(m: Mat, s: real, w: Vec)
    ensures Apply(m, Times(s, w)).z == s * Apply(m, w).z
  {
    var n := Times(s, w);
    LinTimes(s, w.x, m.a.z, w.y, m.b.z, w.z, m.c.z, n.x, n.y, n.z, Apply(m, n).z);
  }

  lemma ApplyTimes(m: Mat, s: real, w: Vec)
    ensures Apply(m, Times(s, w)) == Times(s, Apply(m, w))
  {
    ApplyTimesX(m, s, w);
    ApplyTimesY(m, s, w);
    ApplyTimesZ(m, s, w);
  }

  lemma ApplyScaledX(s: real, m: Mat, w: Vec)
    ensures Apply(Scaled(s, m), w).x == s * Apply(m, w).x
  {
    var n := Scaled(s, m);
    LinTimes(s, m.a.x, w.x, m.b.x, w.y, m.c.x, w.z, n.a.x, n.b.x, n.c.x, Apply(n, w).x);
  }

  lemma ApplyScaledY(s: real, m: Mat, w: Vec)
    ensures Apply(Scaled(s, m), w).y == s * Apply(m, w).y
  {
    var n := Scaled(s, m);
    LinTimes(s, m.a.y, w.x, m.b.y, w.y, m.c.y, w.z, n.a.y, n.b.y, n.c.y, Apply(n, w).y);
  }

  lemma ApplyScaledZ(s: real, m: Mat, w: Vec)
    ensures Apply(Scaled(s, m), w).z == s * Apply(m, w).z
  {
    var n := Scaled(s, m);
    LinTimes(s, m.a.z, w.x, m.b.z, w.y, m.c.z, w.z, n.a.z, n.b.z, n.c.z, Apply(n, w).z);
  }

  lemma ApplyScaled(s: real, m: Mat, w: Vec)
    ensures Apply(Scaled(s, m), w) == Times(s, Apply(m, w))
  {
    ApplyScaledX(s, m, w);
    ApplyScaledY(s, m, w);
    ApplyScaledZ(s, m, w);
  }
}
