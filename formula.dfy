/** The branching formulas Srz, Srs, Qrz, Qrz1, Rrz_algo2, Rrz_algo3, Rrz, Grs and fun. */
module Formula {
  import opened Wrappers
  import opened Tables
  import opened Selection

  /** The closed form used when a table cannot be read. */
  function Fallback(x: real, y: real, z: real): real {
    1.3498 * x + 2.2362 * y * z - 2.348 * x * y
  }

  /** Every one of the lookups at x, y and z succeeds. */
  predicate Available(load: Provider, x: real, y: real, z: real) {
    Lookup(load, x).Some? && Lookup(load, y).Some? && Lookup(load, z).Some?
  }

  /** Srz: the fallback as soon as one of the three lookups fails; otherwise T(y) + U(y) + U(z)
      when U(y) + U(z) does not exceed x, and T(x) + U(z) + T(y) when it does. */
  function Srz(load: Provider, x: real, y: real, z: real): (r: real)
    ensures !Available(load, x, y, z) ==> r == Fallback(x, y, z)
    ensures Available(load, x, y, z) ==>
      var (tx, uy, uz, ty) := (Lookup(load, x).value.0, Lookup(load, y).value.1,
                               Lookup(load, z).value.1, Lookup(load, y).value.0);
      (uy + uz <= x ==> r == ty + uy + uz) && (uy + uz > x ==> r == tx + uz + ty)
  {
    match (Lookup(load, x), Lookup(load, y), Lookup(load, z))
    case (Some((tx, _)), Some((ty, uy)), Some((_, uz))) =>
      if uy + uz - x <= 0.0 then ty + uy + uz else tx + uz + ty
    case _ => Fallback(x, y, z)
  }

  /** Srz as the source runs it: five lookups, with one success flag per argument; the flags of
      x and y are written by the U lookup and written again by the T lookup. */
  method ComputeSrz(load: Provider, x: real, y: real, z: real) returns (r: real)
    ensures r == Srz(load, x, y, z)
  {
    var ux, ok1 := U(load, x);
    var uy, ok2 := U(load, y);
    var uz, ok3 := U(load, z);
    var tx, ty;
    tx, ok1 := T(load, x);
    ty, ok2 := T(load, y);
    if !(ok1 && ok2 && ok3) {
      return Fallback(x, y, z);
    }
    if uy + uz - x <= 0.0 {
      r := ty + uy + uz;
    } else {
      r := tx + uz + ty;
    }
  }

  /** Srs: zero when both sign tests are positive, Srz otherwise. */
  function Srs(load: Provider, x: real, y: real, z: real): (r: real)
    ensures z + x * y > 0.0 && x + z * y > 0.0 ==> r == 0.0
    ensures z + x * y <= 0.0 || x + z * y <= 0.0 ==> r == Srz(load, x, y, z)
  {
    if z + x * y <= 0.0 then Srz(load, x, y, z)
    else if x + z * y <= 0.0 then Srz(load, x, y, z)
    else 0.0
  }

  /** Srs as a function value, for passing to Qrz. */
  function SrsStrategy(load: Provider): (f: (real, real, real) -> real)
    ensures forall x, y, z :: f(x, y, z) == Srs(load, x, y, z)
  {
    (x, y, z) => Srs(load, x, y, z)
  }

  /** Qrz: applies the strategy to the larger argument, the smaller one and the larger one again;
      a and b play no part. */
  function Qrz(x: real, y: real, a: real, b: real, f: (real, real, real) -> real): (r: real)
    ensures r == f(Max(x, y), Min(x, y), Max(x, y))
  {
    if y >= x then f(y, x, y) else f(x, y, x)
  }

  /** What Qrz with Srs yields for the unordered pair {p, q}. */
  function SrsOnPair(load: Provider, p: real, q: real): real {
    Srs(load, Max(p, q), Min(p, q), Max(p, q))
  }

  /** Qrz1: Qrz with Srs as the strategy. */
  function Qrz1(load: Provider, x: real, y: real, a: real, b: real): (r: real)
    ensures r == SrsOnPair(load, x, y)
  {
    Qrz(x, y, a, b, SrsStrategy(load))
  }

  /** Rrz_algo2: the pair {x, y} when x <= z, else the pair {y, z}. */
  function RrzAlgo2(load: Provider, x: real, y: real, z: real): (r: real)
    ensures x <= z ==> r == SrsOnPair(load, x, y)
    ensures x > z ==> r == SrsOnPair(load, y, z)
  {
    if x <= z then Qrz1(load, x, y, x, y) else Qrz1(load, y, z, x, y)
  }

  /** Rrz_algo3: the pair {x, y} when y <= z, else the pair {y, z}. */
  function RrzAlgo3(load: Provider, x: real, y: real, z: real): (r: real)
    ensures y <= z ==> r == SrsOnPair(load, x, y)
    ensures y > z ==> r == SrsOnPair(load, y, z)
  {
    if y <= z then Qrz(x, y, x, y, SrsStrategy(load)) else Qrz(y, z, x, y, SrsStrategy(load))
  }

  /** Rrz: always Srs on the ordered pair {x, y} or {y, z}; which one is decided by the first
      sign test that is not positive, then by an order test. */
  function Rrz(load: Provider, x: real, y: real, z: real): (r: real)
    ensures r == SrsOnPair(load, x, y) || r == SrsOnPair(load, y, z)
    ensures z + x * y <= 0.0 ==>
      r == if x <= z then SrsOnPair(load, x, y) else SrsOnPair(load, y, z)
    ensures z + x * y > 0.0 && x + z * y <= 0.0 ==>
      r == if y <= z then SrsOnPair(load, x, y) else SrsOnPair(load, y, z)
    ensures z + x * y > 0.0 && x + z * y > 0.0 ==>
      r == if y <= x then SrsOnPair(load, x, y) else SrsOnPair(load, y, z)
  {
    if z + x * y <= 0.0 then RrzAlgo2(load, x, y, z)
    else if x + z * y <= 0.0 then RrzAlgo3(load, x, y, z)
    else if y <= x then Qrz(x, y, x, y, SrsStrategy(load))
    else Qrz(y, z, x, y, SrsStrategy(load))
  }

  /** Grs: a fixed combination of two Rrz values, hence of Srs on the pairs {x, y} or {y, y}
      and {x - y, z} or {z, y}. */
  function Grs(load: Provider, x: real, y: real, z: real): (r: real)
    ensures var (a1, a2) := (SrsOnPair(load, x, y), SrsOnPair(load, y, y));
            var (b1, b2) := (SrsOnPair(load, x - y, z), SrsOnPair(load, z, y));
            r == 0.1389 * a1 + 1.8389 * b1 || r == 0.1389 * a1 + 1.8389 * b2 ||
            r == 0.1389 * a2 + 1.8389 * b1 || r == 0.1389 * a2 + 1.8389 * b2
  {
    0.1389 * Rrz(load, x, y, y) + 1.8389 * Rrz(load, x - y, z, y)
  }

  /** fun: the fallback when the file chosen for x cannot be read (the interpolated values at x
      are not used), and x * Grs(x, y, z) + y * Grs(x, z, y) otherwise. */
  function Fun(load: Provider, x: real, y: real, z: real): (r: real)
    ensures load(if x <= 1.0 then NearFile else PositiveFarFile).None? ==> r == Fallback(x, y, z)
    ensures load(if x <= 1.0 then NearFile else PositiveFarFile).Some? ==>
      r == x * Grs(load, x, y, z) + y * Grs(load, x, z, y)
  {
    if Lookup(load, x).None? then Fallback(x, y, z)
    else x * Grs(load, x, y, z) + y * Grs(load, x, z, y)
  }

  /** Qrz is symmetric in its first two arguments and ignores a and b. */
  lemma QrzSymmetric(x: real, y: real, a: real, b: real, c: real, d: real, f: (real, real, real) -> real)
    ensures Qrz(x, y, a, b, f) == Qrz(y, x, c, d, f)
  {
  }

  /** Qrz1 is Qrz with Srs, whatever a and b are. */
  lemma Qrz1IsQrzWithSrs(load: Provider, x: real, y: real, a: real, b: real, c: real, d: real)
    ensures Qrz1(load, x, y, a, b) == Qrz(x, y, c, d, SrsStrategy(load))
  {
  }

  /** On the arguments Qrz hands it, the two sign tests of Srs are the same test: Qrz with Srs is
      zero exactly when M + M * m is positive (M the larger, m the smaller argument), and Srz of
      (M, m, M) otherwise. */
  lemma SrsOnPairSingleTest(load: Provider, p: real, q: real)
    ensures var (hi, lo) := (Max(p, q), Min(p, q));
      SrsOnPair(load, p, q) == if hi + hi * lo > 0.0 then 0.0 else Srz(load, hi, lo, hi)
  {
  }

  /** With no table file readable, Srz and fun both give the fallback for every argument. */
  lemma NoTablesFallback(load: Provider, x: real, y: real, z: real)
    requires forall id :: load(id).None?
    ensures Srz(load, x, y, z) == Fallback(x, y, z)
    ensures Fun(load, x, y, z) == Fallback(x, y, z)
  {
    assert Lookup(load, x).None?;
  }
}
