/** Rows of a tabulated data file and the piecewise-linear interpolation over them. */
module Tables {
  import opened Wrappers

  /** One sample of the tabulated functions: the abscissa x with T(x) and U(x). */
  datatype Row = Row(x: real, T: real, U: real)

  function Min(a: real, b: real): real { if a <= b then a else b }

  function Max(a: real, b: real): real { if a <= b then b else a }

  /** v lies between a and b, whichever of the two is larger. */
  predicate Between(a: real, v: real, b: real) { Min(a, b) <= v <= Max(a, b) }

  /** No two neighbouring rows share an abscissa, so every bracket has a non-zero width. */
  predicate AdjacentDistinct(table: seq<Row>) {
    forall i :: 0 <= i < |table| - 1 ==> table[i].x != table[i + 1].x
  }

  /** The abscissas strictly increase along the table. */
  predicate Increasing(table: seq<Row>) {
    forall i, j :: 0 <= i < j < |table| ==> table[i].x < table[j].x
  }

  /** The neighbouring rows i and i+1 enclose x, both ends included. */
  predicate Brackets(table: seq<Row>, i: nat, x: real)
    requires i + 1 < |table|
  {
    table[i].x <= x <= table[i + 1].x
  }

  /** No pair of neighbouring rows brackets x. */
  predicate NoBracket(table: seq<Row>, x: real) {
    forall i :: 0 <= i && i + 1 < |table| ==> !Brackets(table, i, x)
  }

  /** Pair k brackets x and no earlier pair does. */
  predicate IsFirstBracket(table: seq<Row>, x: real, k: nat) {
    k + 1 < |table| && Brackets(table, k, x) && forall i :: 0 <= i < k ==> !Brackets(table, i, x)
  }

  /** The straight line through (x0, v0) and (x1, v1), evaluated at x. */
  function Lerp(x0: real, x1: real, v0: real, v1: real, x: real): real
    requires x0 != x1
  {
    v0 + (v1 - v0) * (x - x0) / (x1 - x0)
  }

  /** The first pair at or after `from` that brackets x, if any. */
  function FirstBracket(table: seq<Row>, x: real, from: nat): (k: Option<nat>)
    decreases |table| - from
    ensures k.Some? ==> from <= k.value && k.value + 1 < |table| && Brackets(table, k.value, x)
    ensures forall i :: from <= i && i + 1 < |table| && (k.None? || i < k.value) ==> !Brackets(table, i, x)
  {
    if from + 1 >= |table| then None
    else if Brackets(table, from, x) then Some(from)
    else FirstBracket(table, x, from + 1)
  }

  /** The (T, U) pair the table gives at x: the line through the first bracketing pair, or (0, 0)
      when no pair brackets x (in particular for a table of fewer than two rows). */
  function Interpolation(table: seq<Row>, x: real): (r: (real, real))
    requires AdjacentDistinct(table)
    ensures |table| < 2 ==> r == (0.0, 0.0)
    ensures NoBracket(table, x) ==> r == (0.0, 0.0)
    ensures forall k: nat :: IsFirstBracket(table, x, k) ==>
              r == (Lerp(table[k].x, table[k + 1].x, table[k].T, table[k + 1].T, x),
                    Lerp(table[k].x, table[k + 1].x, table[k].U, table[k + 1].U, x))
  {
    match FirstBracket(table, x, 0)
    case None => (0.0, 0.0)
    case Some(k) =>
      (Lerp(table[k].x, table[k + 1].x, table[k].T, table[k + 1].T, x),
       Lerp(table[k].x, table[k + 1].x, table[k].U, table[k + 1].U, x))
  }

  /** The scan over the table: stops at the first bracketing pair and interpolates there. */
  method Interpolate(table: seq<Row>, x: real) returns (t: real, u: real)
    requires AdjacentDistinct(table)
    ensures (t, u) == Interpolation(table, x)
  {
    var i: nat := 0;
    while i + 1 < |table|
      invariant FirstBracket(table, x, i) == FirstBracket(table, x, 0)
    {
      if table[i].x <= x && x <= table[i + 1].x {
        var x0, x1 := table[i].x, table[i + 1].x;
        var t0, t1 := table[i].T, table[i + 1].T;
        var u0, u1 := table[i].U, table[i + 1].U;
        t := Lerp(x0, x1, t0, t1, x);
        u := Lerp(x0, x1, u0, u1, x);
        assert FirstBracket(table, x, 0) == Some(i);
        return;
      }
      i := i + 1;
    }
    return 0.0, 0.0;
  }

  // Facts of real arithmetic the interpolation proofs below rest on.

  lemma MulDivCancel(a: real, d: real)
    requires d != 0.0
    ensures a * d / d == a
  {
  }

  lemma MulDivAssoc(a: real, n: real, d: real)
    requires d != 0.0
    ensures a * n / d == a * (n / d)
  {
  }

  lemma FractionInUnit(n: real, d: real)
    requires 0.0 <= n <= d && 0.0 < d
    ensures 0.0 <= n / d <= 1.0
  {
  }

  lemma ScaleBetween(c: real, s: real)
    requires 0.0 <= s <= 1.0
    ensures Between(0.0, c * s, c)
  {
  }

  /** A line through two points takes the first value at the first end and the second at the other. */
  lemma LerpAtEnds(x0: real, x1: real, v0: real, v1: real)
    requires x0 != x1
    ensures Lerp(x0, x1, v0, v1, x0) == v0
    ensures Lerp(x0, x1, v0, v1, x1) == v1
  {
    MulDivCancel(v1 - v0, x1 - x0);
  }

  /** Between the two ends, the line stays between the two values. */
  lemma LerpBetween(x0: real, x1: real, v0: real, v1: real, x: real)
    requires x0 <= x <= x1 && x0 != x1
    ensures Between(v0, Lerp(x0, x1, v0, v1, x), v1)
  {
    FractionInUnit(x - x0, x1 - x0);
    MulDivAssoc(v1 - v0, x - x0, x1 - x0);
    ScaleBetween(v1 - v0, (x - x0) / (x1 - x0));
  }

  /** In a table of at least two rows with increasing abscissas, interpolating at a node gives
      exactly that node's values. */
  lemma InterpolationAtNode(table: seq<Row>, k: nat)
    requires Increasing(table) && 2 <= |table| && k < |table|
    ensures AdjacentDistinct(table)
    ensures Interpolation(table, table[k].x) == (table[k].T, table[k].U)
  {
    var x := table[k].x;
    var j := if k == 0 then 0 else k - 1;
    assert Brackets(table, j, x);
    forall i | 0 <= i < j ensures !Brackets(table, i, x) {
      assert table[i + 1].x < table[k].x;
    }
    LerpAtEnds(table[j].x, table[j + 1].x, table[j].T, table[j + 1].T);
    LerpAtEnds(table[j].x, table[j + 1].x, table[j].U, table[j + 1].U);
  }

  /** With increasing abscissas, a point left of the first node or right of the last one lies in no
      bracket, so the lookup gives (0, 0): there is no extrapolation. */
  lemma InterpolationOutOfRange(table: seq<Row>, x: real)
    requires Increasing(table)
    requires |table| < 2 || x < table[0].x || table[|table| - 1].x < x
    ensures AdjacentDistinct(table)
    ensures Interpolation(table, x) == (0.0, 0.0)
  {
    forall i | 0 <= i && i + 1 < |table| ensures !Brackets(table, i, x) {
      assert table[0].x <= table[i].x;
      assert table[i + 1].x <= table[|table| - 1].x;
    }
  }

  /** Inside the bracket it uses, the interpolated T and U lie between the bracket's two values. */
  lemma InterpolationBetween(table: seq<Row>, x: real, k: nat)
    requires AdjacentDistinct(table) && IsFirstBracket(table, x, k)
    ensures Between(table[k].T, Interpolation(table, x).0, table[k + 1].T)
    ensures Between(table[k].U, Interpolation(table, x).1, table[k + 1].U)
  {
    LerpBetween(table[k].x, table[k + 1].x, table[k].T, table[k + 1].T, x);
    LerpBetween(table[k].x, table[k + 1].x, table[k].U, table[k + 1].U, x);
  }
}
