/** The generator matrix of the block code and the matrices that undo it: any k rows of the
    generator determine a column, and the decode matrix recovers every missing row. */
module FecMatrix {
  import opened Bytes
  import opened Gf

  const MAX_N: nat := 255

  /** Parameters that init() and every accepted header satisfy. */
  predicate Params(k: nat, n: nat) { 1 <= k < n <= MAX_N }

  function Ids(from: nat, k: nat): (r: Vec)
    requires from <= k <= 256
    ensures |r| == k - from
  {
    seq<byte>(k - from, i requires 0 <= i < k - from => from + i)
  }

  /** Row `i` of gf_gen_cauchy1_matrix: identity on top, reciprocals 1/(i + j) below. */
  function GenRow(F: Field, k: nat, i: nat): (r: Vec)
    requires k <= 256 && i < 256
    ensures |r| == k
  {
    if i < k then Unit(k, i) else Recips(F, i, Ids(0, k))
  }

  function Rows(F: Field, k: nat, idx: seq<nat>): (r: Matrix)
    requires k <= 256 && forall j :: 0 <= j < |idx| ==> idx[j] < 256
    ensures |r| == |idx| && Shape(r, k)
  {
    seq(|idx|, j requires 0 <= j < |idx| => GenRow(F, k, idx[j]))
  }

  predicate Ascending(r: seq<nat>) {
    forall i, j :: 0 <= i < j < |r| ==> r[i] < r[j]
  }

  // ---- Reduction of the kernel to the missing data columns --------------

  function DataCount(r: seq<nat>, k: nat): (c: nat)
    ensures c <= |r|
    ensures forall j :: 0 <= j < c ==> r[j] < k
    ensures c < |r| ==> r[c] >= k
  {
    if r == [] || r[0] >= k then 0 else 1 + DataCount(r[1..], k)
  }

  /** Data positions from `from` on that are not among the chosen rows. */
  function Missing(r: seq<nat>, from: nat, k: nat): (m: Vec)
    requires from <= k <= 256
    ensures forall j :: 0 <= j < |m| ==> from <= m[j] < k
    decreases k - from
  {
    if from == k then []
    else if r != [] && r[0] == from then Missing(r[1..], from + 1, k)
    else [from] + Missing(r, from + 1, k)
  }

  /** The entries of v (which stands for positions from..k) at the missing positions. */
  function Pick(r: seq<nat>, from: nat, k: nat, v: Vec): (p: Vec)
    requires from <= k <= 256 && |v| == k - from
    ensures |p| == |Missing(r, from, k)|
    decreases k - from
  {
    if from == k then []
    else if r != [] && r[0] == from then Pick(r[1..], from + 1, k, v[1..])
    else [v[0]] + Pick(r, from + 1, k, v[1..])
  }

  ghost predicate From(r: seq<nat>, from: nat) {
    Ascending(r) && forall j :: 0 <= j < |r| ==> r[j] >= from
  }

  lemma FromNext(r: seq<nat>, from: nat)
    requires From(r, from)
    ensures r != [] && r[0] == from ==> From(r[1..], from + 1)
    ensures !(r != [] && r[0] == from) ==> From(r, from + 1)
  {
    if r != [] && r[0] != from {
      forall j | 0 <= j < |r| ensures r[j] >= from + 1 {}
    }
  }

  lemma {:induction false} MissingSize(r: seq<nat>, from: nat, k: nat)
    requires from <= k <= 256 && From(r, from)
    ensures |Missing(r, from, k)| + DataCount(r, k) == k - from
    decreases k - from
  {
    if from < k {
      FromNext(r, from);
      MissingSize(if r != [] && r[0] == from then r[1..] else r, from + 1, k);
    } else if r != [] {
      assert r[0] >= k;
    }
  }

  lemma {:induction false} MissingDistinct(r: seq<nat>, from: nat, k: nat)
    requires from <= k <= 256
    ensures AllDistinct(Missing(r, from, k))
    decreases k - from
  {
    if from < k {
      MissingDistinct(if r != [] && r[0] == from then r[1..] else r, from + 1, k);
    }
  }

  /** A missing position is not a chosen row. */
  lemma {:induction false} MissingNotChosen(r: seq<nat>, from: nat, k: nat, i: nat, j: nat)
    requires from <= k <= 256 && From(r, from)
    requires i < |r| && j < |Missing(r, from, k)|
    ensures r[i] != Missing(r, from, k)[j]
    decreases k - from
  {
    FromNext(r, from);
    if r != [] && r[0] == from {
      if i > 0 { MissingNotChosen(r[1..], from + 1, k, i - 1, j); }
    } else if j > 0 {
      MissingNotChosen(r, from + 1, k, i, j - 1);
    }
  }

  ghost predicate ZeroAt(r: seq<nat>, from: nat, k: nat, v: Vec)
    requires from <= k && |v| == k - from
  {
    forall i :: 0 <= i < |r| && from <= r[i] < k ==> v[r[i] - from] == 0
  }

  lemma ZeroNext(r: seq<nat>, from: nat, k: nat, v: Vec)
    requires from < k && |v| == k - from && From(r, from) && ZeroAt(r, from, k, v)
    ensures ZeroAt(if r != [] && r[0] == from then r[1..] else r, from + 1, k, v[1..])
    ensures r != [] && r[0] == from ==> v[0] == 0
  {
    var s := if r != [] && r[0] == from then r[1..] else r;
    forall i | 0 <= i < |s| && from + 1 <= s[i] < k ensures v[1..][s[i] - (from + 1)] == 0 {
      var i' := if r != [] && r[0] == from then i + 1 else i;
      assert s[i] == r[i'];
    }
  }

  lemma DotRecipsCons(F: Field, x: byte, a: byte, v: Vec, b: byte, ids: Vec)
    requires |v| == |ids|
    ensures Dot(F, [a] + v, Recips(F, x, [b] + ids)) ==
            F.add(F.mul(a, F.inv(F.add(x, b))), Dot(F, v, Recips(F, x, ids)))
  {
    assert ([a] + v)[1..] == v && Recips(F, x, [b] + ids)[1..] == Recips(F, x, ids);
  }

  lemma ReduceSkip(F: Field, x: byte, b: byte, v: Vec, ids: Vec)
    requires Laws(F) && |v| == |ids|
    ensures Dot(F, [0] + v, Recips(F, x, [b] + ids)) == Dot(F, v, Recips(F, x, ids))
  {
    hide Laws;
    var rest := Dot(F, v, Recips(F, x, ids));
    DotRecipsCons(F, x, 0, v, b, ids);
    MulZero(F, F.inv(F.add(x, b)));
    AddComm(F, 0, rest);
    AddZero(F, rest);
  }

  /** Both sides of Reduce, for positions from..k. */
  ghost predicate Reduced(F: Field, x: byte, r: seq<nat>, from: nat, k: nat, v: Vec)
    requires from <= k <= 256 && |v| == k - from
  {
    Dot(F, v, Recips(F, x, Ids(from, k))) == Dot(F, Pick(r, from, k, v), Recips(F, x, Missing(r, from, k)))
  }

  lemma IdsCons(from: nat, k: nat)
    requires from < k <= 256
    ensures Ids(from, k) == [from] + Ids(from + 1, k)
  {
  }

  lemma ReduceTaken(F: Field, x: byte, r: seq<nat>, from: nat, k: nat, v: Vec)
    requires Laws(F) && from < k <= 256 && |v| == k - from && v[0] == 0 && r != [] && r[0] == from
    requires Reduced(F, x, r[1..], from + 1, k, v[1..])
    ensures Reduced(F, x, r, from, k, v)
  {
    hide Laws;
    hide Dot;
    hide Recips;
    IdsCons(from, k);
    hide Ids;
    assert v == [0] + v[1..];
    ReduceSkip(F, x, from, v[1..], Ids(from + 1, k));
  }

  lemma ReduceMissing(F: Field, x: byte, r: seq<nat>, from: nat, k: nat, v: Vec)
    requires Laws(F) && from < k <= 256 && |v| == k - from && !(r != [] && r[0] == from)
    requires Reduced(F, x, r, from + 1, k, v[1..])
    ensures Reduced(F, x, r, from, k, v)
  {
    hide Laws;
    hide Dot;
    hide Recips;
    IdsCons(from, k);
    hide Ids;
    assert v == [v[0]] + v[1..];
    DotRecipsCons(F, x, v[0], v[1..], from, Ids(from + 1, k));
    DotRecipsCons(F, x, v[0], Pick(r, from + 1, k, v[1..]), from, Missing(r, from + 1, k));
  }

  /** On a vector that is zero at the chosen rows, only the missing columns count. */
  lemma {:induction false} Reduce(F: Field, x: byte, r: seq<nat>, from: nat, k: nat, v: Vec)
    requires Laws(F) && from <= k <= 256 && |v| == k - from && From(r, from) && ZeroAt(r, from, k, v)
    ensures Reduced(F, x, r, from, k, v)
    decreases k - from
  {
    if from == k {
    } else {
      FromNext(r, from);
      ZeroNext(r, from, k, v);
      hide *;
      if r != [] && r[0] == from {
        Reduce(F, x, r[1..], from + 1, k, v[1..]);
        ReduceTaken(F, x, r, from, k, v);
      } else {
        Reduce(F, x, r, from + 1, k, v[1..]);
        ReduceMissing(F, x, r, from, k, v);
      }
    }
  }

  /** A vector that is zero at the chosen rows and at the missing ones is zero. */
  lemma {:induction false} PickZero(r: seq<nat>, from: nat, k: nat, v: Vec)
    requires from <= k <= 256 && |v| == k - from && From(r, from) && ZeroAt(r, from, k, v)
    requires IsZero(Pick(r, from, k, v))
    ensures IsZero(v)
    decreases k - from
  {
    if from < k {
      FromNext(r, from);
      ZeroNext(r, from, k, v);
      var p := Pick(r, from, k, v);
      if r != [] && r[0] == from {
        PickZero(r[1..], from + 1, k, v[1..]);
      } else {
        assert p[0] == v[0] && p[1..] == Pick(r, from + 1, k, v[1..]);
        forall j | 0 <= j < |p[1..]| ensures p[1..][j] == 0 { assert p[1..][j] == p[j + 1]; }
        PickZero(r, from + 1, k, v[1..]);
      }
      forall i | 0 <= i < |v| ensures v[i] == 0 {
        if i > 0 { assert v[i] == v[1..][i - 1]; }
      }
    }
  }

  lemma {:induction false} DotComm(F: Field, u: Vec, v: Vec)
    requires Laws(F) && |u| == |v|
    ensures Dot(F, u, v) == Dot(F, v, u)
  {
    hide Laws;
    if u != [] {
      DotComm(F, u[1..], v[1..]);
      MulComm(F, u[0], v[0]);
    }
  }

  /** Every k distinct rows of the generator are nonsingular, for every k < n <= 255. */
  lemma AnyRowsNonsingular(F: Field, k: nat, n: nat, r: seq<nat>)
    requires Laws(F) && Params(k, n)
    requires |r| == k && Ascending(r) && forall j :: 0 <= j < k ==> r[j] < n
    ensures Nonsingular(F, Rows(F, k, r))
  {
    hide Laws;
    var b := Rows(F, k, r);
    forall v: Vec | |v| == k && IsZero(Times(F, b, v))
      ensures IsZero(v)
    {
      KernelZero(F, k, r, v);
    }
  }

  /** Each chosen row times v is zero, so a chosen data row's entry of v is. */
  lemma RowsVanish(F: Field, k: nat, r: seq<nat>, v: Vec)
    requires Laws(F) && 1 <= k <= 255 && |r| == k && Ascending(r) && forall j :: 0 <= j < k ==> r[j] < 256
    requires |v| == k && IsZero(Times(F, Rows(F, k, r), v))
    ensures forall i :: 0 <= i < k ==> Dot(F, GenRow(F, k, r[i]), v) == 0
    ensures forall i :: 0 <= i < |r| && 0 <= r[i] < k ==> v[r[i]] == 0
  {
    hide Laws;
    var b := Rows(F, k, r);
    forall i | 0 <= i < k ensures Dot(F, GenRow(F, k, r[i]), v) == 0 {
      assert Times(F, b, v)[i] == Dot(F, b[i], v);
    }
    forall i | 0 <= i < |r| && 0 <= r[i] < k ensures v[r[i]] == 0 {
      DotUnit(F, k, r[i], v);
    }
  }

  /** The parity rows leave a Cauchy system in the entries whose data rows are missing. */
  lemma ParityVanish(F: Field, k: nat, r: seq<nat>, v: Vec, q: nat, i: nat)
    requires Laws(F) && 1 <= k <= 255 && |r| == k && Ascending(r) && From(r, 0)
    requires forall j :: 0 <= j < k ==> r[j] < 256
    requires |v| == k && forall i :: 0 <= i < k ==> Dot(F, GenRow(F, k, r[i]), v) == 0
    requires forall j :: 0 <= j < |r| && 0 <= r[j] < k ==> v[r[j]] == 0
    requires q + i < k && r[q + i] >= k
    ensures Dot(F, Pick(r, 0, k, v), Recips(F, r[q + i], Missing(r, 0, k))) == 0
  {
    hide Laws;
    DotComm(F, GenRow(F, k, r[q + i]), v);
    Reduce(F, r[q + i], r, 0, k, v);
  }

  lemma KernelZero(F: Field, k: nat, r: seq<nat>, v: Vec)
    requires Laws(F) && 1 <= k <= 255 && |r| == k && Ascending(r) && forall j :: 0 <= j < k ==> r[j] < 256
    requires |v| == k && IsZero(Times(F, Rows(F, k, r), v))
    ensures IsZero(v)
  {
    hide Laws;
    hide Dot;
    hide GenRow;
    hide Missing;
    hide Pick;
    hide Recips;
    hide Times;
    hide Rows;
    RowsVanish(F, k, r, v);
    assert From(r, 0);
    var q := DataCount(r, k);
    var m := Missing(r, 0, k);
    MissingSize(r, 0, k);
    MissingDistinct(r, 0, k);
    var a: Vec := seq<byte>(k - q, i requires 0 <= i < k - q => r[q + i]);
    var p := Pick(r, 0, k, v);
    forall i | 0 <= i < |a| ensures Dot(F, p, Recips(F, a[i], m)) == 0 {
      assert r[q + i] >= r[q] >= k;
      ParityVanish(F, k, r, v, q, i);
    }
    forall i, j | 0 <= i < |a| && 0 <= j < |m| ensures a[i] != m[j] {
      MissingNotChosen(r, 0, k, q + i, j);
    }
    CauchyKernel(F, a, m, p);
    PickZero(r, 0, k, v);
  }

  // ---- Decode matrix ---------------------------------------------------

  /** The surviving rows from `from` on, in order. */
  function Survivors(have: set<nat>, from: nat, n: nat): (r: seq<nat>)
    requires from <= n
    ensures From(r, from) && forall j :: 0 <= j < |r| ==> r[j] < n && r[j] in have
    ensures forall i :: from <= i < n && i in have ==> i in r
    decreases n - from
  {
    if from == n then []
    else if from in have then [from] + Survivors(have, from + 1, n)
    else Survivors(have, from + 1, n)
  }

  lemma {:induction false} SurvivorCount(have: set<nat>, from: nat, n: nat)
    requires from <= n && forall i :: i in have ==> from <= i < n
    ensures |Survivors(have, from, n)| == |have|
    decreases n - from
  {
    if from == n {
      assert have == {};
    } else if from in have {
      SurvivorCount(have - {from}, from + 1, n);
      SurvivorsIgnore(have, from, from + 1, n);
    } else {
      SurvivorCount(have, from + 1, n);
    }
  }

  lemma {:induction false} SurvivorsIgnore(have: set<nat>, x: nat, from: nat, n: nat)
    requires x < from <= n
    ensures Survivors(have - {x}, from, n) == Survivors(have, from, n)
    decreases n - from
  {
    if from < n { SurvivorsIgnore(have, x, from + 1, n); }
  }

  /** Row of the decode matrix for shard `i`: the inverse's own row for data, a combination
      of the inverse's rows for parity. */
  function DecodeRow(F: Field, k: nat, i: nat, inv: Matrix): (r: Vec)
    requires k <= 256 && i < 256 && |inv| == k && Shape(inv, k)
    ensures |r| == k
  {
    if i < k then inv[i] else LinComb(F, GenRow(F, k, i), inv, k)
  }

  /** Applied to the surviving entries of a column, the decode row of any shard gives that
      shard's entry. */
  lemma DecodeRowRecovers(F: Field, k: nat, r: seq<nat>, inv: Matrix, i: nat, d: Vec)
    requires Laws(F) && 1 <= k <= 255 && i < 256
    requires |r| == k && forall j :: 0 <= j < k ==> r[j] < 256
    requires InverseOf(F, inv, Rows(F, k, r)) && |d| == k
    ensures Dot(F, DecodeRow(F, k, i, inv), Times(F, Rows(F, k, r), d)) == Dot(F, GenRow(F, k, i), d)
  {
    hide Laws;
    var b := Rows(F, k, r);
    var s := Times(F, b, d);
    if i < k {
      UndoesProduct(F, inv, b, d, i);
      DotUnit(F, k, i, d);
    } else {
      forall j | 0 <= j < k ensures Times(F, inv, s)[j] == d[j] {
        UndoesProduct(F, inv, b, d, j);
      }
      assert Times(F, inv, s) == d;
      DotLinComb(F, GenRow(F, k, i), inv, s);
    }
  }
}
