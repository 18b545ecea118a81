/** Linear algebra over the byte field that the erasure code computes in. The field
    operations are ISA-L's; what is used of them are the laws of a field of characteristic
    two on 0..255. */
module Gf {
  import opened Bytes

  datatype Field = Field(add: (byte, byte) -> byte, mul: (byte, byte) -> byte, inv: byte -> byte)

  type Vec = seq<byte>
  type Matrix = seq<seq<byte>>

  /** What holds of any three bytes: addition is its own inverse, multiplication is
      commutative, associative, distributive and has inverses. */
  ghost predicate FieldLaw(F: Field, a: byte, b: byte, c: byte) {
    && F.add(a, b) == F.add(b, a)
    && F.add(F.add(a, b), c) == F.add(a, F.add(b, c))
    && F.add(a, 0) == a
    && F.add(a, a) == 0
    && F.mul(a, b) == F.mul(b, a)
    && F.mul(F.mul(a, b), c) == F.mul(a, F.mul(b, c))
    && F.mul(a, 1) == a
    && F.mul(a, F.add(b, c)) == F.add(F.mul(a, b), F.mul(a, c))
    && (a != 0 ==> F.mul(a, F.inv(a)) == 1)
  }

  ghost predicate Laws(F: Field) { forall a: byte, b: byte, c: byte :: FieldLaw(F, a, b, c) }

  lemma AddComm(F: Field, a: byte, b: byte)
    requires Laws(F)
    ensures F.add(a, b) == F.add(b, a)
  {
    assert FieldLaw(F, a, b, 0);
  }

  lemma AddAssoc(F: Field, a: byte, b: byte, c: byte)
    requires Laws(F)
    ensures F.add(F.add(a, b), c) == F.add(a, F.add(b, c))
  {
    assert FieldLaw(F, a, b, c);
  }

  lemma AddZero(F: Field, a: byte)
    requires Laws(F)
    ensures F.add(a, 0) == a && F.add(a, a) == 0
  {
    assert FieldLaw(F, a, 0, 0);
  }

  lemma MulComm(F: Field, a: byte, b: byte)
    requires Laws(F)
    ensures F.mul(a, b) == F.mul(b, a)
  {
    assert FieldLaw(F, a, b, 0);
  }

  lemma MulAssoc(F: Field, a: byte, b: byte, c: byte)
    requires Laws(F)
    ensures F.mul(F.mul(a, b), c) == F.mul(a, F.mul(b, c))
  {
    assert FieldLaw(F, a, b, c);
  }

  lemma MulOne(F: Field, a: byte)
    requires Laws(F)
    ensures F.mul(a, 1) == a && F.mul(1, a) == a
  {
    assert FieldLaw(F, a, 0, 0);
    MulComm(F, a, 1);
  }

  lemma Distrib(F: Field, a: byte, b: byte, c: byte)
    requires Laws(F)
    ensures F.mul(a, F.add(b, c)) == F.add(F.mul(a, b), F.mul(a, c))
    ensures F.mul(F.add(b, c), a) == F.add(F.mul(b, a), F.mul(c, a))
  {
    assert FieldLaw(F, a, b, c);
    MulComm(F, a, F.add(b, c));
    MulComm(F, a, b);
    MulComm(F, a, c);
  }

  lemma MulInv(F: Field, a: byte)
    requires Laws(F) && a != 0
    ensures F.mul(a, F.inv(a)) == 1
  {
    assert FieldLaw(F, a, 0, 0);
  }

  lemma MulZero(F: Field, a: byte)
    requires Laws(F)
    ensures F.mul(a, 0) == 0 && F.mul(0, a) == 0
  {
    Distrib(F, a, 0, 0);
    AddZero(F, 0);
    AddZero(F, F.mul(a, 0));
    MulComm(F, a, 0);
  }

  /** Sums are equal exactly when they cancel. */
  lemma Cancel(F: Field, a: byte, b: byte)
    requires Laws(F)
    ensures F.add(a, b) == 0 <==> a == b
  {
    hide Laws;
    AddZero(F, a);
    AddZero(F, b);
    if F.add(a, b) == 0 {
      AddAssoc(F, a, b, b);
      AddComm(F, 0, b);
    }
  }

  lemma NoZeroDivisor(F: Field, a: byte, b: byte)
    requires Laws(F) && F.mul(a, b) == 0
    ensures a == 0 || b == 0
  {
    hide Laws;
    if a != 0 {
      MulInv(F, a);
      MulComm(F, a, F.inv(a));
      MulAssoc(F, F.inv(a), a, b);
      MulOne(F, b);
      MulZero(F, F.inv(a));
    }
  }

  lemma InvNonZero(F: Field, a: byte)
    requires Laws(F) && a != 0
    ensures F.inv(a) != 0
  {
    hide Laws;
    MulInv(F, a);
    MulZero(F, a);
  }

  /** (a + b) + (c + d) == (a + c) + (b + d) */
  lemma AddSwap(F: Field, a: byte, b: byte, c: byte, d: byte)
    requires Laws(F)
    ensures F.add(F.add(a, b), F.add(c, d)) == F.add(F.add(a, c), F.add(b, d))
  {
    hide Laws;
    AddAssoc(F, a, b, F.add(c, d));
    AddAssoc(F, b, c, d);
    AddComm(F, b, c);
    AddAssoc(F, c, b, d);
    AddAssoc(F, a, c, F.add(b, d));
  }

  // ---- Vectors ---------------------------------------------------------

  function Zeros(n: nat): Vec { seq(n, _ => 0) }

  function Unit(n: nat, i: nat): Vec { seq(n, j => if j == i then 1 else 0) }

  function Scale(F: Field, a: byte, v: Vec): (r: Vec)
    ensures |r| == |v|
  {
    seq<byte>(|v|, i requires 0 <= i < |v| => F.mul(a, v[i]))
  }

  function VAdd(F: Field, u: Vec, v: Vec): (r: Vec)
    requires |u| == |v|
    ensures |r| == |u|
  {
    seq<byte>(|u|, i requires 0 <= i < |u| => F.add(u[i], v[i]))
  }

  /** One column of a matrix product: the sum of products. */
  function Dot(F: Field, u: Vec, v: Vec): byte
    requires |u| == |v|
  {
    if u == [] then 0 else F.add(F.mul(u[0], v[0]), Dot(F, u[1..], v[1..]))
  }

  ghost predicate Shape(rows: Matrix, width: nat) {
    forall i :: 0 <= i < |rows| ==> |rows[i]| == width
  }

  /** Linear combination of rows. */
  function LinComb(F: Field, c: Vec, rows: Matrix, width: nat): (r: Vec)
    requires |c| == |rows| && Shape(rows, width)
    ensures |r| == width
  {
    if c == [] then Zeros(width)
    else VAdd(F, Scale(F, c[0], rows[0]), LinComb(F, c[1..], rows[1..], width))
  }

  /** Each row times the column `d`. */
  function Times(F: Field, rows: Matrix, d: Vec): (r: Vec)
    requires Shape(rows, |d|)
    ensures |r| == |rows|
    ensures forall i :: 0 <= i < |rows| ==> r[i] == Dot(F, rows[i], d)
  {
    seq(|rows|, i requires 0 <= i < |rows| => Dot(F, rows[i], d))
  }

  lemma {:induction false} DotZero(F: Field, v: Vec)
    requires Laws(F)
    ensures Dot(F, Zeros(|v|), v) == 0 && Dot(F, v, Zeros(|v|)) == 0
  {
    hide Laws;
    if v != [] {
      assert Zeros(|v|)[1..] == Zeros(|v| - 1);
      DotZero(F, v[1..]);
      MulZero(F, v[0]);
      AddZero(F, 0);
    }
  }

  lemma {:induction false} DotScale(F: Field, a: byte, u: Vec, v: Vec)
    requires Laws(F) && |u| == |v|
    ensures Dot(F, Scale(F, a, u), v) == F.mul(a, Dot(F, u, v))
  {
    hide Laws;
    if u == [] {
      MulZero(F, a);
    } else {
      assert Scale(F, a, u)[1..] == Scale(F, a, u[1..]);
      DotScale(F, a, u[1..], v[1..]);
      MulAssoc(F, a, u[0], v[0]);
      Distrib(F, a, F.mul(u[0], v[0]), Dot(F, u[1..], v[1..]));
    }
  }

  lemma {:induction false} DotAdd(F: Field, u: Vec, w: Vec, v: Vec)
    requires Laws(F) && |u| == |w| == |v|
    ensures Dot(F, VAdd(F, u, w), v) == F.add(Dot(F, u, v), Dot(F, w, v))
  {
    hide Laws;
    if u == [] {
      AddZero(F, 0);
    } else {
      assert VAdd(F, u, w)[1..] == VAdd(F, u[1..], w[1..]);
      DotAdd(F, u[1..], w[1..], v[1..]);
      Distrib(F, v[0], u[0], w[0]);
      AddSwap(F, F.mul(u[0], v[0]), F.mul(w[0], v[0]), Dot(F, u[1..], v[1..]), Dot(F, w[1..], v[1..]));
    }
  }

  /** Multiplying by a combination of rows is combining the products. */
  lemma {:induction false} DotLinComb(F: Field, c: Vec, rows: Matrix, d: Vec)
    requires Laws(F) && |c| == |rows| && Shape(rows, |d|)
    ensures Dot(F, LinComb(F, c, rows, |d|), d) == Dot(F, c, Times(F, rows, d))
  {
    hide Laws;
    if c == [] {
      DotZero(F, d);
    } else {
      var rest := LinComb(F, c[1..], rows[1..], |d|);
      DotLinComb(F, c[1..], rows[1..], d);
      assert Times(F, rows, d)[1..] == Times(F, rows[1..], d);
      DotAdd(F, Scale(F, c[0], rows[0]), rest, d);
      DotScale(F, c[0], rows[0], d);
    }
  }

  lemma {:induction false} DotUnit(F: Field, n: nat, i: nat, d: Vec)
    requires Laws(F) && i < n == |d|
    ensures Dot(F, Unit(n, i), d) == d[i]
  {
    hide Laws;
    if i == 0 {
      assert Unit(n, 0)[1..] == Zeros(n - 1);
      DotZero(F, d[1..]);
      MulOne(F, d[0]);
      AddZero(F, d[0]);
    } else {
      assert Unit(n, i)[1..] == Unit(n - 1, i - 1);
      DotUnit(F, n - 1, i - 1, d[1..]);
      MulZero(F, d[0]);
      AddZero(F, d[i]);
      AddComm(F, 0, d[i]);
    }
  }

  // ---- Inverses --------------------------------------------------------

  ghost predicate InverseOf(F: Field, m: Matrix, b: Matrix) {
    && |m| == |b| && Shape(b, |b|) && Shape(m, |b|)
    && forall i :: 0 <= i < |b| ==> LinComb(F, m[i], b, |b|) == Unit(|b|, i)
  }

  ghost predicate IsZero(v: Vec) { forall i :: 0 <= i < |v| ==> v[i] == 0 }

  /** Only the zero column is mapped to zero. */
  ghost predicate Nonsingular(F: Field, b: Matrix) {
    && Shape(b, |b|)
    && forall v: Vec :: |v| == |b| && IsZero(Times(F, b, v)) ==> IsZero(v)
  }

  /** What gf_invert_matrix promises: an inverse of every nonsingular square matrix. */
  ghost predicate Inverts(F: Field, invert: Matrix -> Option<Matrix>) {
    forall b: Matrix :: (Nonsingular(F, b) ==> invert(b).Some?)
                        && (Shape(b, |b|) && invert(b).Some? ==> InverseOf(F, invert(b).value, b))
  }

  /** An inverse undoes the matrix on every column. */
  lemma UndoesProduct(F: Field, m: Matrix, b: Matrix, d: Vec, i: nat)
    requires Laws(F) && InverseOf(F, m, b) && |d| == |b| && i < |b|
    ensures Dot(F, m[i], Times(F, b, d)) == d[i]
  {
    DotLinComb(F, m[i], b, d);
    DotUnit(F, |b|, i, d);
  }

  // ---- Cauchy matrices -------------------------------------------------

  /** The row of reciprocals 1/(x + b_j). */
  function Recips(F: Field, x: byte, b: Vec): (r: Vec)
    ensures |r| == |b|
  {
    seq<byte>(|b|, j requires 0 <= j < |b| => F.inv(F.add(x, b[j])))
  }

  /** Field-wise product with the row of sums (b_j + y). */
  function Shifted(F: Field, v: Vec, b: Vec, y: byte): (r: Vec)
    requires |v| == |b|
    ensures |r| == |v|
  {
    seq<byte>(|v|, j requires 0 <= j < |v| => F.mul(v[j], F.add(b[j], y)))
  }

  function Divided(F: Field, v: Vec, b: Vec, y: byte): (r: Vec)
    requires |v| == |b|
    ensures |r| == |v|
  {
    seq<byte>(|v|, j requires 0 <= j < |v| => F.mul(v[j], F.inv(F.add(y, b[j]))))
  }

  function Total(F: Field, v: Vec): byte {
    if v == [] then 0 else F.add(v[0], Total(F, v[1..]))
  }

  ghost predicate Apart(F: Field, x: byte, b: Vec) {
    forall j :: 0 <= j < |b| ==> x != b[j]
  }

  /** v * (x + y)/(x + b) == v * (b + y)/(x + b) + v */
  lemma TermOne(F: Field, v: byte, x: byte, y: byte, b: byte)
    requires Laws(F) && x != b
    ensures var r := F.inv(F.add(x, b));
            F.mul(F.mul(v, r), F.add(x, y)) == F.add(F.mul(F.mul(v, F.add(b, y)), r), v)
  {
    hide Laws;
    var r := F.inv(F.add(x, b));
    Cancel(F, x, b);
    // x + y == (x + b) + (b + y)
    AddAssoc(F, x, b, F.add(b, y));
    AddAssoc(F, b, b, y);
    AddZero(F, b);
    AddComm(F, 0, y);
    AddZero(F, y);
    assert F.add(x, y) == F.add(F.add(x, b), F.add(b, y));
    Distrib(F, F.mul(v, r), F.add(x, b), F.add(b, y));
    // (v r)(x + b) == v
    MulAssoc(F, v, r, F.add(x, b));
    MulComm(F, r, F.add(x, b));
    MulInv(F, F.add(x, b));
    MulOne(F, v);
    // (v r)(b + y) == (v (b + y)) r
    MulAssoc(F, v, r, F.add(b, y));
    MulComm(F, r, F.add(b, y));
    MulAssoc(F, v, F.add(b, y), r);
    AddComm(F, v, F.mul(F.mul(v, F.add(b, y)), r));
  }

  lemma {:induction false} SumOne(F: Field, v: Vec, b: Vec, x: byte, y: byte)
    requires Laws(F) && |v| == |b| && Apart(F, x, b)
    ensures F.mul(Dot(F, v, Recips(F, x, b)), F.add(x, y)) ==
            F.add(Dot(F, Shifted(F, v, b, y), Recips(F, x, b)), Total(F, v))
  {
    hide Laws;
    if v == [] {
      MulZero(F, F.add(x, y));
      AddZero(F, 0);
    } else {
      assert Recips(F, x, b)[1..] == Recips(F, x, b[1..]);
      assert Shifted(F, v, b, y)[1..] == Shifted(F, v[1..], b[1..], y);
      SumOne(F, v[1..], b[1..], x, y);
      TermOne(F, v[0], x, y, b[0]);
      var r := F.inv(F.add(x, b[0]));
      Distrib(F, F.add(x, y), F.mul(v[0], r), Dot(F, v[1..], Recips(F, x, b[1..])));
      AddSwap(F, F.mul(F.mul(v[0], F.add(b[0], y)), r), v[0],
              Dot(F, Shifted(F, v[1..], b[1..], y), Recips(F, x, b[1..])), Total(F, v[1..]));
    }
  }

  /** w/(x + b) + w/(y + b) == (x + y) * (w/(y + b))/(x + b) */
  lemma TermTwo(F: Field, w: byte, x: byte, y: byte, b: byte)
    requires Laws(F) && x != b && y != b
    ensures var r, s := F.inv(F.add(x, b)), F.inv(F.add(y, b));
            F.add(F.mul(w, r), F.mul(w, s)) == F.mul(F.add(x, y), F.mul(F.mul(w, s), r))
  {
    hide Laws;
    var r, s := F.inv(F.add(x, b)), F.inv(F.add(y, b));
    var t := F.mul(w, s);
    Cancel(F, y, b);
    // w s: TermOne with v := t gives (t r)(x + y) == (t (b + y)) r + t
    TermOne(F, t, x, y, b);
    // t (b + y) == w
    MulAssoc(F, w, s, F.add(b, y));
    AddComm(F, b, y);
    MulComm(F, s, F.add(y, b));
    MulInv(F, F.add(y, b));
    MulOne(F, w);
    MulComm(F, F.add(x, y), F.mul(t, r));
  }

  lemma {:induction false} SumTwo(F: Field, w: Vec, b: Vec, x: byte, y: byte)
    requires Laws(F) && |w| == |b| && Apart(F, x, b) && Apart(F, y, b)
    ensures F.add(Dot(F, w, Recips(F, x, b)), Dot(F, w, Recips(F, y, b))) ==
            F.mul(F.add(x, y), Dot(F, Divided(F, w, b, y), Recips(F, x, b)))
  {
    hide Laws;
    if w == [] {
      MulZero(F, F.add(x, y));
      AddZero(F, 0);
    } else {
      assert Recips(F, x, b)[1..] == Recips(F, x, b[1..]);
      assert Recips(F, y, b)[1..] == Recips(F, y, b[1..]);
      assert Divided(F, w, b, y)[1..] == Divided(F, w[1..], b[1..], y);
      SumTwo(F, w[1..], b[1..], x, y);
      TermTwo(F, w[0], x, y, b[0]);
      var r, s := F.inv(F.add(x, b[0])), F.inv(F.add(y, b[0]));
      AddSwap(F, F.mul(w[0], r), Dot(F, w[1..], Recips(F, x, b[1..])),
              F.mul(w[0], s), Dot(F, w[1..], Recips(F, y, b[1..])));
      Distrib(F, F.add(x, y), F.mul(F.mul(w[0], s), r), Dot(F, Divided(F, w[1..], b[1..], y), Recips(F, x, b[1..])));
    }
  }

  ghost predicate AllDistinct(s: Vec) {
    forall i, j :: 0 <= i < j < |s| ==> s[i] != s[j]
  }

  ghost predicate AllApart(a: Vec, b: Vec) {
    forall i, j :: 0 <= i < |a| && 0 <= j < |b| ==> a[i] != b[j]
  }

  lemma {:induction false} DotSnoc(F: Field, u: Vec, v: Vec)
    requires Laws(F) && |u| == |v| > 0
    ensures Dot(F, u, v) == F.add(Dot(F, u[..|u| - 1], v[..|v| - 1]), F.mul(u[|u| - 1], v[|v| - 1]))
  {
    hide Laws;
    var n := |u| - 1;
    if n == 0 {
      AddZero(F, F.mul(u[0], v[0]));
      AddComm(F, 0, F.mul(u[0], v[0]));
    } else {
      DotSnoc(F, u[1..], v[1..]);
      assert u[1..][..n - 1] == u[..n][1..] && v[1..][..n - 1] == v[..n][1..];
      AddAssoc(F, F.mul(u[0], v[0]), Dot(F, u[..n][1..], v[..n][1..]), F.mul(u[n], v[n]));
    }
  }

  /** A combination of reciprocal columns that vanishes at as many points as it has columns
      is zero: square Cauchy matrices are nonsingular. */
  lemma {:induction false} CauchyKernel(F: Field, a: Vec, b: Vec, v: Vec)
    requires Laws(F) && |a| == |b| == |v|
    requires AllDistinct(a) && AllDistinct(b) && AllApart(a, b)
    requires forall i :: 0 <= i < |a| ==> Dot(F, v, Recips(F, a[i], b)) == 0
    ensures IsZero(v)
    decreases |a|
  {
    hide Laws;
    if |a| > 0 {
      var m := |a| - 1;
      var w := Shifted(F, v, b, b[m]);
      var u := Divided(F, w, b, a[m]);
      forall i | 0 <= i < m
        ensures Dot(F, u[..m], Recips(F, a[..m][i], b[..m])) == 0
      {
        KernelStep(F, a, b, v, i);
      }
      CauchyKernel(F, a[..m], b[..m], u[..m]);
      forall j | 0 <= j < m ensures v[j] == 0 {
        assert u[..m][j] == 0;
        assert a[m] != b[j] && b[j] != b[m];
        Cancel(F, a[m], b[j]);
        Cancel(F, b[j], b[m]);
        InvNonZero(F, F.add(a[m], b[j]));
        NoZeroDivisor(F, w[j], F.inv(F.add(a[m], b[j])));
        NoZeroDivisor(F, v[j], F.add(b[j], b[m]));
      }
      LastZero(F, a[m], b, v);
    }
  }

  lemma KernelStep(F: Field, a: Vec, b: Vec, v: Vec, i: nat)
    requires Laws(F) && |a| == |b| == |v| && i < |a| - 1
    requires AllDistinct(a) && AllDistinct(b) && AllApart(a, b)
    requires forall i :: 0 <= i < |a| ==> Dot(F, v, Recips(F, a[i], b)) == 0
    ensures var m := |a| - 1;
            var u := Divided(F, Shifted(F, v, b, b[m]), b, a[m]);
            Dot(F, u[..m], Recips(F, a[i], b[..m])) == 0
  {
    hide Laws;
    var m := |a| - 1;
    var x, y := a[i], a[m];
    var w := Shifted(F, v, b, b[m]);
    var u := Divided(F, w, b, y);
    SumOne(F, v, b, x, b[m]);
    SumOne(F, v, b, y, b[m]);
    MulZero(F, F.add(x, b[m]));
    MulZero(F, F.add(y, b[m]));
    Cancel(F, Dot(F, w, Recips(F, x, b)), Total(F, v));
    Cancel(F, Dot(F, w, Recips(F, y, b)), Total(F, v));
    SumTwo(F, w, b, x, y);
    Cancel(F, Dot(F, w, Recips(F, x, b)), Dot(F, w, Recips(F, y, b)));
    Cancel(F, x, y);
    NoZeroDivisor(F, F.add(x, y), Dot(F, u, Recips(F, x, b)));
    // the last term of u is zero
    AddZero(F, b[m]);
    MulZero(F, v[m]);
    MulZero(F, F.inv(F.add(y, b[m])));
    assert u[m] == 0;
    DotSnoc(F, u, Recips(F, x, b));
    assert Recips(F, x, b)[..m] == Recips(F, x, b[..m]);
    MulZero(F, Recips(F, x, b)[m]);
    AddZero(F, Dot(F, u[..m], Recips(F, x, b[..m])));
  }

  lemma LastZero(F: Field, x: byte, b: Vec, v: Vec)
    requires Laws(F) && |b| == |v| > 0 && Apart(F, x, b)
    requires forall j :: 0 <= j < |v| - 1 ==> v[j] == 0
    requires Dot(F, v, Recips(F, x, b)) == 0
    ensures v[|v| - 1] == 0
  {
    hide Laws;
    var m := |v| - 1;
    DotSnoc(F, v, Recips(F, x, b));
    assert v[..m] == Zeros(m);
    DotZero(F, Recips(F, x, b)[..m]);
    AddComm(F, 0, F.mul(v[m], Recips(F, x, b)[m]));
    AddZero(F, F.mul(v[m], Recips(F, x, b)[m]));
    Cancel(F, x, b[m]);
    InvNonZero(F, F.add(x, b[m]));
    NoZeroDivisor(F, v[m], Recips(F, x, b)[m]);
  }
}
