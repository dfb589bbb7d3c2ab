/** Worked cases: concrete tables and arguments, each value derived from the model. */
module Scenarios {
  import opened Wrappers
  import opened Tables
  import opened Selection
  import opened Formula

  /** A provider that can read no file. */
  function NoFiles(): Provider {
    (id: FileId) => None
  }

  /** A provider whose only readable file is dat_X_1_1.dat, holding the given table. */
  function NearOnly(table: seq<Row>): (load: Provider)
    requires AdjacentDistinct(table)
    ensures load(NearFile) == Some(table) && load(PositiveFarFile).None?
  {
    (id: FileId) => if id == NearFile then Some(table) else None
  }

  /** A three-row table over [0, 1]. */
  function ThreeRows(): (table: seq<Row>)
    ensures Increasing(table)
  {
    [Row(0.0, 0.0, 10.0), Row(0.5, 1.0, 20.0), Row(1.0, 3.0, 40.0)]
  }

  /** Through get_T_U on the three-row table: exact at the ends and at the middle node, the line's
      value off the nodes, (0, 0) outside the table, and unavailable above 1 where the far file is
      missing. */
  lemma ThreeRowLookups()
    ensures Lookup(NearOnly(ThreeRows()), 0.0) == Some((0.0, 10.0))
    ensures Lookup(NearOnly(ThreeRows()), 0.5) == Some((1.0, 20.0))
    ensures Lookup(NearOnly(ThreeRows()), 1.0) == Some((3.0, 40.0))
    ensures Lookup(NearOnly(ThreeRows()), 0.25) == Some((0.5, 15.0))
    ensures Lookup(NearOnly(ThreeRows()), 0.75) == Some((2.0, 30.0))
    ensures Lookup(NearOnly(ThreeRows()), -0.5) == Some((0.0, 0.0))
    ensures Lookup(NearOnly(ThreeRows()), 2.0) == None
  {
    var table := ThreeRows();
    InterpolationAtNode(table, 0);
    InterpolationAtNode(table, 1);
    InterpolationAtNode(table, 2);
    assert IsFirstBracket(table, 0.25, 0);
    assert IsFirstBracket(table, 0.75, 1);
    InterpolationOutOfRange(table, -0.5);
  }

  /** With no file readable, Srz at (1, 2, 3) is the fallback 10.071. */
  lemma SrzWithoutTables()
    ensures Srz(NoFiles(), 1.0, 2.0, 3.0) == 10.071
  {
    NoTablesFallback(NoFiles(), 1.0, 2.0, 3.0);
  }

  /** At the origin every sign test is zero, so Rrz takes its first branch, Rrz_algo2. */
  lemma RrzAtOrigin(load: Provider)
    ensures Rrz(load, 0.0, 0.0, 0.0) == RrzAlgo2(load, 0.0, 0.0, 0.0) == Srz(load, 0.0, 0.0, 0.0)
  {
  }

  /** A provider whose only readable table, dat_X_1_1.dat, is the rows (x, T, U) = (0, 1, 2),
      (1, 3, 4): fun(0.5, 0, 0) does not fall back, since only the lookup at x decides and it
      succeeds. Both Rrz calls reach Srz at the origin, which reads T = 1 and U = 2 there, so Grs
      is 1.9778 * 4 and fun is 3.9556. The U values are the provider's; the program reads no U
      from the file. */
  lemma FunWithNearTableOnly()
    ensures Fun(NearOnly([Row(0.0, 1.0, 2.0), Row(1.0, 3.0, 4.0)]), 0.5, 0.0, 0.0) == 3.9556
    ensures Fallback(0.5, 0.0, 0.0) == 0.6749
  {
    var table := [Row(0.0, 1.0, 2.0), Row(1.0, 3.0, 4.0)];
    var load := NearOnly(table);
    assert IsFirstBracket(table, 0.0, 0);
    assert Lookup(load, 0.0) == Some((1.0, 2.0));
    assert Srz(load, 0.0, 0.0, 0.0) == 4.0;
    assert Rrz(load, 0.5, 0.0, 0.0) == 4.0;
  }
}
