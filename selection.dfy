/** Choice of the data file by the range of x, and the (T, U) lookup through that file. */
module Selection {
  import opened Wrappers
  import opened Tables

  /** The three data files: dat_X_1_1.dat, dat_X00_1.dat and dat_X1_00.dat. */
  datatype FileId = NearFile | NegativeFarFile | PositiveFarFile

  /** The source of table data, read anew on every lookup: None when a file cannot be opened.
      A table it supplies has no two neighbouring rows with the same abscissa. */
  type Provider = load: FileId -> Option<seq<Row>> | forall id :: load(id).Some? ==> AdjacentDistinct(load(id).value)
    witness (id: FileId) => None

  /** The file a lookup at x reads and the abscissa it looks up there. The test for x < -1 comes
      after the test for x <= 1, so NegativeFarFile is never chosen; the reciprocal is only formed
      for x > 1 and never divides by zero. */
  function SelectTable(x: real): (s: (FileId, real))
    ensures s.0 == NearFile <==> x <= 1.0
    ensures s.0 == NearFile ==> s.1 == x
    ensures s.0 == PositiveFarFile ==> s.1 * x == 1.0 && 0.0 < s.1 < 1.0
    ensures s.0 != NegativeFarFile
  {
    if x <= 1.0 then (NearFile, x)
    else (if x < -1.0 then NegativeFarFile else PositiveFarFile, 1.0 / x)
  }

  /** The (T, U) pair at x, or None when the selected file cannot be read. */
  function Lookup(load: Provider, x: real): (r: Option<(real, real)>)
    ensures x <= 1.0 ==>
      r == if load(NearFile).None? then None else Some(Interpolation(load(NearFile).value, x))
    ensures x > 1.0 ==>
      r == if load(PositiveFarFile).None? then None else Some(Interpolation(load(PositiveFarFile).value, 1.0 / x))
  {
    var (file, arg) := SelectTable(x);
    match load(file)
    case None => None
    case Some(table) => Some(Interpolation(table, arg))
  }

  /** get_T_U: reads the selected file and interpolates in it; ok reports whether the file could
      be read, and the pair is (0, 0) when it could not. */
  method GetTU(load: Provider, x: real) returns (t: real, u: real, ok: bool)
    ensures ok <==> Lookup(load, x).Some?
    ensures (t, u) == if ok then Lookup(load, x).value else (0.0, 0.0)
  {
    var arg := x;
    var file;
    if x <= 1.0 {
      file := NearFile;
    } else {
      // Both remaining branches of the source replace x by its reciprocal; here x > 1.
      arg := 1.0 / x;
      if x < -1.0 {
        file := NegativeFarFile;
      } else {
        file := PositiveFarFile;
      }
    }
    var table := load(file);
    if table.None? {
      return 0.0, 0.0, false;
    }
    ok := true;
    t, u := Interpolate(table.value, arg);
  }

  /** T(x): the first component of the lookup, with its success flag. */
  method T(load: Provider, x: real) returns (t: real, ok: bool)
    ensures ok <==> Lookup(load, x).Some?
    ensures t == if ok then Lookup(load, x).value.0 else 0.0
  {
    var u;
    t, u, ok := GetTU(load, x);
  }

  /** U(x): the second component of the lookup, with its success flag. */
  method U(load: Provider, x: real) returns (u: real, ok: bool)
    ensures ok <==> Lookup(load, x).Some?
    ensures u == if ok then Lookup(load, x).value.1 else 0.0
  {
    var t;
    t, u, ok := GetTU(load, x);
  }
}
