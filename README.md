# fun(x, y, z) over interpolated tables — a Dafny model

The program evaluates `fun(x, y, z)` through a fixed cascade of branching helpers (`Srs`, `Qrz`,
`Srz`, `Qrz1`, `Rrz_algo2`, `Rrz_algo3`, `Rrz`, `Grs`). At the bottom, `Srz` and `fun` consult
two tabulated functions T(x) and U(x), read by piecewise-linear interpolation from one of three
data files chosen by the range of x, and fall back to the closed form
`1.3498x + 2.2362yz - 2.348xy` when the chosen file cannot be read.

The model works over exact reals (`real` for `double`). Reading a file is abstracted as a
provider `FileId -> Option<seq<Row>>` (`Selection.Provider`); `None` stands for a file that
cannot be opened. The provider is a total function, so two lookups at the same x see the same
file contents.

Layout, one module per file:

- `wrappers.dfy` — `Option`.
- `tables.dfy` (`Tables`) — `Row`, the bracket search and the interpolation, as a specification
  function (`Interpolation`) and as the source's scanning loop (`Interpolate`), with the lemmas
  about nodes, out-of-range points and the values inside a bracket.
- `selection.dfy` (`Selection`) — choice of the data file (`SelectTable`), `get_T_U` as a
  specification function (`Lookup`) and as the source's procedure (`GetTU`), and `T`, `U`.
- `formula.dfy` (`Formula`) — `Srz` (a function, and the source's five-lookup procedure
  `ComputeSrz`), `Srs`, `Qrz` with its strategy parameter, `Qrz1`, `Rrz_algo2`, `Rrz_algo3`,
  `Rrz`, `Grs` and `fun`, with lemmas relating them.
- `scenarios.dfy` (`Scenarios`) — concrete tables and arguments worked through the model.

Facts about the branching that the model records:

- `Srz` itself has no sign test; only `Srs` tests `z + x*y <= 0` / `x + z*y <= 0` before calling
  it.
- `1/x` is formed only after `x <= 1` fails, so there is no division by zero (`SelectTable`).
- `fun` looks only at the lookup at x. With a provider whose only readable table,
  `dat_X_1_1.dat`, is the rows (x, T, U) = (0,1,2), (1,3,4), the model's `fun(0.5, 0, 0)` is
  3.9556, not the fallback 0.6749 (`Scenarios.FunWithNearTableOnly`). The program itself takes no
  U from the file (see "## Left out"), so that value is the model's; whatever U is, `fun` does not
  fall back there, because only the lookup at x is tested.
- The branch for `x < -1` (file `dat_X00_1.dat`) can never run because `x <= 1` is tested
  first; the model keeps the branch and proves that it is never taken.

## Model

| member | source | states |
|---|---|---|
| `Tables.FirstBracket` | ConsoleApplication1/ConsoleApplication1.cpp:26-27 | the index found brackets x, and no pair scanned before it (nor any pair at all, when none is found) brackets x |
| `Tables.Interpolation` | ConsoleApplication1/ConsoleApplication1.cpp:24-37 | (0, 0) for a table of fewer than two rows and whenever no pair brackets x; otherwise the line through the first bracketing pair, for T and for U |
| `Tables.Interpolate` | ConsoleApplication1/ConsoleApplication1.cpp:25-37 | the scanning loop with its early return computes exactly the interpolation above |
| `Tables.InterpolationAtNode` | ConsoleApplication1/ConsoleApplication1.cpp:26-33 | with increasing abscissas and at least two rows, the lookup at a node returns that node's T and U exactly |
| `Tables.InterpolationOutOfRange` | ConsoleApplication1/ConsoleApplication1.cpp:26-36 | with increasing abscissas, a point left of the first node or right of the last (or any point of a table under two rows) gives (0, 0): no extrapolation |
| `Tables.InterpolationBetween` | ConsoleApplication1/ConsoleApplication1.cpp:28-33 | inside the first bracketing pair, T and U lie between the pair's two values |
| `Selection.SelectTable` | ConsoleApplication1/ConsoleApplication1.cpp:44-54 | x <= 1 reads dat_X_1_1.dat at x; otherwise dat_X1_00.dat at the reciprocal of x, which lies in (0, 1); dat_X00_1.dat is never chosen |
| `Selection.Lookup` | ConsoleApplication1/ConsoleApplication1.cpp:40-63 | for x <= 1, unavailable exactly when dat_X_1_1.dat cannot be read, else the interpolation at x; for x > 1 the same with dat_X1_00.dat at 1/x |
| `Selection.GetTU` | ConsoleApplication1/ConsoleApplication1.cpp:40-63 | ok is false and the pair is (0, 0) when the chosen file cannot be read; otherwise ok is true and the pair is the lookup's |
| `Selection.T` | ConsoleApplication1/ConsoleApplication1.cpp:66-68 | the first component of get_T_U with its flag |
| `Selection.U` | ConsoleApplication1/ConsoleApplication1.cpp:70-72 | the second component of get_T_U with its flag |
| `Formula.Srz` | ConsoleApplication1/ConsoleApplication1.cpp:90-104 | the fallback polynomial when any of the lookups at x, y, z fails; otherwise T(y)+U(y)+U(z) when U(y)+U(z) <= x, else T(x)+U(z)+T(y) |
| `Formula.ComputeSrz` | ConsoleApplication1/ConsoleApplication1.cpp:90-104 | the five lookups with three shared flags compute exactly Srz |
| `Formula.Srs` | ConsoleApplication1/ConsoleApplication1.cpp:77-81 | 0 when both z + x*y and x + z*y are positive, Srz(x, y, z) otherwise |
| `Formula.SrsStrategy` | ConsoleApplication1/ConsoleApplication1.cpp:108 | the function value passed to Qrz agrees with Srs at every argument |
| `Formula.Qrz` | ConsoleApplication1/ConsoleApplication1.cpp:84-87 | the strategy applied to (larger, smaller, larger) of x and y |
| `Formula.QrzSymmetric` | ConsoleApplication1/ConsoleApplication1.cpp:84-87 | swapping x and y, and changing a and b, does not change Qrz |
| `Formula.Qrz1` | ConsoleApplication1/ConsoleApplication1.cpp:107-109 | Srs at (larger, smaller, larger) of x and y |
| `Formula.Qrz1IsQrzWithSrs` | ConsoleApplication1/ConsoleApplication1.cpp:107-109 | Qrz1 is Qrz with Srs as the strategy, whatever a and b |
| `Formula.SrsOnPairSingleTest` | ConsoleApplication1/ConsoleApplication1.cpp:77-87 | on Qrz's arguments the two sign tests of Srs coincide: zero exactly when M + M*m > 0, otherwise Srz(M, m, M) |
| `Formula.RrzAlgo2` | ConsoleApplication1/ConsoleApplication1.cpp:111-115 | Srs on the ordered pair {x, y} when x <= z, on {y, z} otherwise |
| `Formula.RrzAlgo3` | ConsoleApplication1/ConsoleApplication1.cpp:117-121 | Srs on the ordered pair {x, y} when y <= z, on {y, z} otherwise |
| `Formula.Rrz` | ConsoleApplication1/ConsoleApplication1.cpp:124-133 | always Srs on {x, y} or {y, z}; first-match precedence: z + x*y <= 0 uses algo2's choice, else x + z*y <= 0 uses algo3's, else {x, y} when y <= x and {y, z} otherwise |
| `Formula.Grs` | ConsoleApplication1/ConsoleApplication1.cpp:136-138 | 0.1389 times Srs on {x, y} or {y, y} plus 1.8389 times Srs on {x - y, z} or {z, y} |
| `Formula.Fun` | ConsoleApplication1/ConsoleApplication1.cpp:141-151 | the fallback polynomial when the file chosen for x cannot be read, otherwise x*Grs(x, y, z) + y*Grs(x, z, y) |
| `Formula.NoTablesFallback` | ConsoleApplication1/ConsoleApplication1.cpp:90-147 | with no readable file, Srz and fun both equal the fallback polynomial for all arguments |
| `Scenarios.ThreeRowLookups` | ConsoleApplication1/ConsoleApplication1.cpp:25-62 | on a three-row table: exact at both ends (0 and 1) and the middle node, the line's value between nodes, (0, 0) below the table, unavailable above 1 |
| `Scenarios.SrzWithoutTables` | ConsoleApplication1/ConsoleApplication1.cpp:96-97 | with no readable file, Srz(1, 2, 3) is 10.071 |
| `Scenarios.RrzAtOrigin` | ConsoleApplication1/ConsoleApplication1.cpp:124-126 | at (0, 0, 0) the first test wins: Rrz is Rrz_algo2 and reaches Srz(0, 0, 0) |
| `Scenarios.FunWithNearTableOnly` | ConsoleApplication1/ConsoleApplication1.cpp:141-150 | with a provider whose only table, dat_X_1_1.dat, is the rows (x, T, U) = (0,1,2),(1,3,4), the model's fun(0.5, 0, 0) is 3.9556, not the fallback 0.6749 |

## Left out

- `readTable` (file opening and stream parsing) is replaced by the provider. The source's loop reads only x and T of each row; U is whatever the reused row variable held. The model takes the U values as the provider supplies them and claims nothing about where they come from.
- `main` (console input and output) is not part of this model.
- Floating point: the model computes over exact reals, so rounding, NaN and infinities are not modelled; every equality proved is an equality of reals.
- A table whose neighbouring rows share an abscissa is excluded by the `Provider` type. The source leaves only some lookups in such a table undefined: those at an x equal to the shared abscissa that no earlier pair brackets, where it divides 0 by 0 (a NaN, with no real counterpart). Its other lookups are well defined (on (0,1), (0,2), (1,3) it gives T = 2.5 at x = 0.5), but the model gives up the whole table.
- Re-reading the file on every lookup: the provider is a function, so repeated lookups at one x give the same answer, as the source needs when it reuses one flag for `U(x)` and `T(x)`.
- Grs: its contract names the Srs values it combines but not which of the two candidate pairs each Rrz call takes; Rrz's own contract states that choice.
