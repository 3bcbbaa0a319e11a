/**
 * The grid half of the `Windy` particle engine: choosing the u and v
 * components among GRIB records, reshaping their flat sample arrays into
 * latitude rows (`buildGrid`), and looking a longitude/latitude up in the
 * rows by bilinear interpolation (`interpolate`, `floorMod`,
 * `bilinearInterpolateVector`).
 */
module WindyGrid {
  import opened Wrappers

  /** One grid point: eastward and northward wind in m/s. */
  datatype Sample = Sample(u: real, v: real)

  /**
   * The GRIB header fields the engine reads: the origin (`lo1`, `la1`),
   * the spacing (`dx`, `dy`) and the point counts (`nx`, `ny`).
   */
  datatype Header = Header(lo1: real, la1: real, dx: real, dy: real, nx: nat, ny: nat)

  /** A GRIB record: its parameter category and number, header and samples. */
  datatype Record = Record(category: int, number: int, header: Header, data: seq<real>)

  /** Parameter numbers 2 and 3 of categories 1 and 2: eastward and northward wind. */
  const UNumber := 2
  const VNumber := 3

  predicate IsComponent(r: Record, number: int)
  {
    (r.category == 1 || r.category == 2) && r.number == number
  }

  /**
   * The index of the last record carrying parameter `number`: the
   * `forEach` in `createBuilder` keeps overwriting its choice, so the last
   * one wins.
   */
  function LastComponent(records: seq<Record>, number: int): (k: Option<nat>)
    ensures k.None? <==> forall m :: 0 <= m < |records| ==> !IsComponent(records[m], number)
    ensures k.Some? ==> k.value < |records| && IsComponent(records[k.value], number)
    ensures k.Some? ==> forall m :: k.value < m < |records| ==> !IsComponent(records[m], number)
  {
    if |records| == 0 then None
    else if IsComponent(records[|records| - 1], number) then Some(|records| - 1)
    else LastComponent(records[..|records| - 1], number)
  }

  /**
   * The pair of records `createWindBuilder` reads; a missing component is a
   * property read on `null`, hence a `TypeError`.
   */
  function Components(records: seq<Record>): Result<(Record, Record)>
  {
    match (LastComponent(records, UNumber), LastComponent(records, VNumber))
    case (Some(ku), Some(kv)) => Ok((records[ku], records[kv]))
    case _ => Throw(TypeError)
  }

  /** The `forEach` of `createBuilder`, followed by the reads of `createWindBuilder`. */
  method CreateBuilder(records: seq<Record>) returns (r: Result<(Record, Record)>)
    ensures r.Throw? <==> ((forall m :: 0 <= m < |records| ==> !IsComponent(records[m], UNumber))
                        || (forall m :: 0 <= m < |records| ==> !IsComponent(records[m], VNumber)))
    ensures r.Throw? ==> r.exception == TypeError
    ensures r == Components(records)
  {
    var uComp: Option<nat> := None;
    var vComp: Option<nat> := None;
    var k := 0;
    while k < |records|
      invariant 0 <= k <= |records|
      invariant uComp == LastComponent(records[..k], UNumber)
      invariant vComp == LastComponent(records[..k], VNumber)
    {
      assert records[..k + 1][..k] == records[..k];
      if IsComponent(records[k], UNumber) {
        uComp := Some(k);
      } else if IsComponent(records[k], VNumber) {
        vComp := Some(k);
      }
      k := k + 1;
    }
    assert records[..k] == records;
    if uComp.None? || vComp.None? {
      return Throw(TypeError);
    }
    r := Ok((records[uComp.value], records[vComp.value]));
  }

  /** `Math.floor(nx * dx) >= 360`: the rows wrap all the way round the globe. */
  predicate IsContinuous(h: Header)
  {
    (h.nx as real * h.dx).Floor >= 360
  }

  lemma ContinuousHasColumns(h: Header)
    requires IsContinuous(h)
    ensures h.nx > 0
  {
    if h.nx == 0 {
      assert false;
    }
  }

  /** Row `j` in the sense of `buildGrid`: samples `j*nx .. j*nx+nx-1`, then the first again if the grid wraps. */
  ghost predicate IsRow(row: seq<Sample>, u: seq<real>, v: seq<real>, nx: nat, j: nat, wrap: bool)
  {
    && |row| == nx + (if wrap then 1 else 0)
    && (forall i :: 0 <= i < nx ==>
          j * nx + i < |u| && j * nx + i < |v| && row[i] == Sample(u[j * nx + i], v[j * nx + i]))
    && (wrap ==> nx > 0 && row[nx] == row[0])
  }

  ghost predicate IsGrid(rows: seq<seq<Sample>>, u: seq<real>, v: seq<real>, nx: nat, ny: nat, wrap: bool)
  {
    |rows| == ny && forall j :: 0 <= j < ny ==> IsRow(rows[j], u, v, nx, j, wrap)
  }

  lemma RowStartInRange(j: nat, nx: nat, ny: nat)
    requires j < ny
    ensures j * nx + nx <= nx * ny
  {
    assert (ny - (j + 1)) * nx >= 0;
    assert (ny - (j + 1)) * nx == ny * nx - j * nx - nx;
  }

  /** What `interpolate` closes over once `buildGrid` has run. */
  datatype GridState = GridState(header: Header, rows: seq<seq<Sample>>)

  /** `a - n * Math.floor(a / n)`: the remainder of floored division. */
  function FloorMod(a: real, n: real): (r: real)
    requires n != 0.0
    ensures n > 0.0 ==> 0.0 <= r < n
    ensures ((a - r) / n).Floor as real == (a - r) / n
  {
    var q := (a / n).Floor;
    FloorModFacts(a, n, q);
    a - n * q as real
  }

  lemma FloorModFacts(a: real, n: real, q: int)
    requires n != 0.0 && q == (a / n).Floor
    ensures var r := a - n * q as real;
            (n > 0.0 ==> 0.0 <= r < n) && ((a - r) / n).Floor as real == (a - r) / n
  {
    RemainderQuotient(a, n, q);
    if n > 0.0 {
      RemainderBounds(a, n, q);
    }
  }

  lemma RemainderQuotient(a: real, n: real, q: int)
    requires n != 0.0
    ensures ((a - (a - n * q as real)) / n).Floor as real == (a - (a - n * q as real)) / n
  {
    var m := n * q as real;
    assert a - (a - m) == m;
    MulDivCancel(q as real, n);
    assert m / n == q as real;
    assert (q as real).Floor == q;
  }

  lemma RemainderBounds(a: real, n: real, q: int)
    requires n > 0.0 && q as real <= a / n < q as real + 1.0
    ensures 0.0 <= a - n * q as real < n
  {
    var t := a / n;
    var d := t - q as real;
    assert 0.0 <= d < 1.0;
    assert n * t == a;
    assert a - n * q as real == n * d;
    ProductNonNegative(n, d);
    ProductPositive(n, 1.0 - d);
    assert n * (1.0 - d) == n - n * d;
  }

  lemma ProductPositive(a: real, b: real)
    requires 0.0 < a && 0.0 < b
    ensures 0.0 < a * b
  {
  }

  lemma MulDivCancel(x: real, n: real)
    requires n != 0.0
    ensures (n * x) / n == x
  {
  }

  /** Shifting by whole periods does not change the remainder. */
  lemma FloorModPeriodic(a: real, n: real, k: int)
    requires n > 0.0
    ensures FloorMod(a + k as real * n, n) == FloorMod(a, n)
  {
    var q := (a / n).Floor;
    assert (a + k as real * n) / n == a / n + k as real;
    assert ((a + k as real * n) / n).Floor == q + k;
  }

  /** A value already in `[0, n)` is its own remainder. */
  lemma FloorModInRange(a: real, n: real)
    requires 0.0 <= a < n
    ensures FloorMod(a, n) == a
  {
    assert 0.0 <= a / n < 1.0;
  }

  /** The four bilinear weights `(1-x)(1-y)`, `x(1-y)`, `(1-x)y`, `xy`. */
  function Weights(x: real, y: real): (w: (real, real, real, real))
    ensures w.0 + w.1 + w.2 + w.3 == 1.0
    ensures 0.0 <= x <= 1.0 && 0.0 <= y <= 1.0 ==> 0.0 <= w.0 && 0.0 <= w.1 && 0.0 <= w.2 && 0.0 <= w.3
  {
    var rx := 1.0 - x;
    var ry := 1.0 - y;
    if 0.0 <= x <= 1.0 && 0.0 <= y <= 1.0 then
      ProductNonNegative(rx, ry);
      ProductNonNegative(x, ry);
      ProductNonNegative(rx, y);
      ProductNonNegative(x, y);
      (rx * ry, x * ry, rx * y, x * y)
    else
      (rx * ry, x * ry, rx * y, x * y)
  }

  lemma ProductNonNegative(a: real, b: real)
    requires 0.0 <= a && 0.0 <= b
    ensures 0.0 <= a * b
  {
  }

  /** `bilinearInterpolateVector` without the magnitude. */
  function Bilinear(x: real, y: real, g00: Sample, g10: Sample, g01: Sample, g11: Sample): Sample
  {
    var w := Weights(x, y);
    Sample(g00.u * w.0 + g10.u * w.1 + g01.u * w.2 + g11.u * w.3,
           g00.v * w.0 + g10.v * w.1 + g01.v * w.2 + g11.v * w.3)
  }

  /** At the four corners of the cell the blend is the corner sample itself. */
  lemma BilinearCorners(g00: Sample, g10: Sample, g01: Sample, g11: Sample)
    ensures Bilinear(0.0, 0.0, g00, g10, g01, g11) == g00
    ensures Bilinear(1.0, 0.0, g00, g10, g01, g11) == g10
    ensures Bilinear(0.0, 1.0, g00, g10, g01, g11) == g01
    ensures Bilinear(1.0, 1.0, g00, g10, g01, g11) == g11
  {
  }

  /** A uniform cell blends to its common value anywhere. */
  lemma BilinearUniform(x: real, y: real, g: Sample)
    ensures Bilinear(x, y, g, g, g, g) == g
  {
    var w := Weights(x, y);
    assert g.u * w.0 + g.u * w.1 + g.u * w.2 + g.u * w.3 == g.u * (w.0 + w.1 + w.2 + w.3);
    assert g.v * w.0 + g.v * w.1 + g.v * w.2 + g.v * w.3 == g.v * (w.0 + w.1 + w.2 + w.3);
  }

  /** `grid[j][i]`, or nothing when either index falls outside the arrays. */
  function Cell(rows: seq<seq<Sample>>, j: int, i: int): Option<Sample>
  {
    if 0 <= j < |rows| && 0 <= i < |rows[j]| then Some(rows[j][i]) else None
  }

  /** The fractional longitude index `floorMod(λ - λ0, 360) / Δλ`. */
  function LonIndex(h: Header, lon: real): real
    requires h.dx != 0.0
  {
    FloorMod(lon - h.lo1, 360.0) / h.dx
  }

  /** The fractional latitude index `(φ0 - φ) / Δφ`. */
  function LatIndex(h: Header, lat: real): real
    requires h.dy != 0.0
  {
    (h.la1 - lat) / h.dy
  }

  /**
   * `interpolate` on a built grid. A zero spacing makes the index infinite
   * or NaN in the source, so no row or column is found and the result is
   * `null`.
   */
  function InterpolateAt(g: GridState, lon: real, lat: real): Option<Sample>
  {
    if g.header.dx == 0.0 || g.header.dy == 0.0 then None
    else Lookup(g.rows, LonIndex(g.header, lon), LatIndex(g.header, lat))
  }

  /** The four-corner lookup at fractional column `i` and row `j`. */
  function Lookup(rows: seq<seq<Sample>>, i: real, j: real): Option<Sample>
  {
    var fi := i.Floor;
    var fj := j.Floor;
    match (Cell(rows, fj, fi), Cell(rows, fj, fi + 1), Cell(rows, fj + 1, fi), Cell(rows, fj + 1, fi + 1))
    case (Some(g00), Some(g10), Some(g01), Some(g11)) =>
      Some(Bilinear(i - fi as real, j - fj as real, g00, g10, g01, g11))
    case _ => None
  }

  lemma LonIndexPeriodic(h: Header, lon: real, k: int)
    requires h.dx != 0.0
    ensures LonIndex(h, lon + 360.0 * k as real) == LonIndex(h, lon)
  {
    assert lon + 360.0 * k as real - h.lo1 == (lon - h.lo1) + k as real * 360.0;
    FloorModPeriodic(lon - h.lo1, 360.0, k);
  }

  /** Longitudes a whole number of turns apart interpolate alike. */
  lemma InterpolatePeriodic(g: GridState, lon: real, lat: real, k: int)
    ensures InterpolateAt(g, lon + 360.0 * k as real, lat) == InterpolateAt(g, lon, lat)
  {
    if g.header.dx != 0.0 && g.header.dy != 0.0 {
      LonIndexPeriodic(g.header, lon, k);
    }
  }

  /**
   * On a wrapping grid every longitude finds its two columns: the last
   * column `nx` is the duplicated first one. Only the latitude can miss.
   */
  lemma ContinuousGridCoversLongitudes(g: GridState, u: seq<real>, v: seq<real>, lon: real, lat: real)
    requires IsGrid(g.rows, u, v, g.header.nx, g.header.ny, true)
    requires IsContinuous(g.header) && g.header.dx > 0.0 && g.header.dy != 0.0
    requires 0 <= LatIndex(g.header, lat).Floor && LatIndex(g.header, lat).Floor + 1 < g.header.ny
    ensures InterpolateAt(g, lon, lat).Some?
  {
    var h := g.header;
    var m := FloorMod(lon - h.lo1, 360.0);
    var i := LonIndex(h, lon);
    assert 360.0 <= h.nx as real * h.dx;
    assert 0.0 <= i by {
      assert 0.0 <= m;
    }
    assert i < h.nx as real by {
      assert m < 360.0;
      assert m < h.nx as real * h.dx;
      assert m / h.dx < (h.nx as real * h.dx) / h.dx;
    }
    var fi := i.Floor;
    assert 0 <= fi < h.nx;
    var fj := LatIndex(h, lat).Floor;
    assert IsRow(g.rows[fj], u, v, h.nx, fj, true);
    assert IsRow(g.rows[fj + 1], u, v, h.nx, fj + 1, true);
  }

  /**
   * `interpolate` finds a value exactly when the four corners around the
   * point are present, and then blends those four.
   */
  lemma LookupFindsFourCorners(rows: seq<seq<Sample>>, i: real, j: real)
    ensures var fi, fj := i.Floor, j.Floor;
            && (Lookup(rows, i, j).Some? <==>
                 Cell(rows, fj, fi).Some? && Cell(rows, fj, fi + 1).Some?
                 && Cell(rows, fj + 1, fi).Some? && Cell(rows, fj + 1, fi + 1).Some?)
            && (Lookup(rows, i, j).Some? ==>
                 Lookup(rows, i, j).value ==
                 Bilinear(i - fi as real, j - fj as real, rows[fj][fi], rows[fj][fi + 1],
                          rows[fj + 1][fi], rows[fj + 1][fi + 1]))
  {
  }

  lemma LatIndexOfRow(h: Header, j: int)
    requires h.dy != 0.0
    ensures LatIndex(h, h.la1 - j as real * h.dy) == j as real
  {
    assert h.la1 - (h.la1 - j as real * h.dy) == j as real * h.dy;
  }

  /**
   * The last row never interpolates: its lower neighbour `cj` is past the
   * end, so a latitude on or beyond the southern row of the grid gives
   * `null` (`LatIndexOfRow` places the row itself there).
   */
  lemma SouthOfLastRowIsNull(g: GridState, lon: real, lat: real)
    requires |g.rows| == g.header.ny && g.header.dy != 0.0
    requires LatIndex(g.header, lat).Floor >= g.header.ny - 1
    ensures InterpolateAt(g, lon, lat) == None
  {
    var h := g.header;
    if h.dx != 0.0 {
      InterpolateByIndices(g, lon, lat, LonIndex(h, lon), LatIndex(h, lat));
      LookupBeyondLastRow(g.rows, LonIndex(h, lon), LatIndex(h, lat));
    }
  }

  lemma InterpolateByIndices(g: GridState, lon: real, lat: real, i: real, j: real)
    requires g.header.dx != 0.0 && g.header.dy != 0.0
    requires LonIndex(g.header, lon) == i && LatIndex(g.header, lat) == j
    ensures InterpolateAt(g, lon, lat) == Lookup(g.rows, i, j)
  {
  }

  lemma LookupBeyondLastRow(rows: seq<seq<Sample>>, i: real, j: real)
    requires j.Floor >= |rows| - 1
    ensures Lookup(rows, i, j) == None
  {
    assert Cell(rows, j.Floor + 1, i.Floor) == None;
  }

  lemma LookupAtNode(rows: seq<seq<Sample>>, i: nat, j: nat)
    requires j + 1 < |rows| && i + 1 < |rows[j]| && i + 1 < |rows[j + 1]|
    ensures Lookup(rows, i as real, j as real) == Some(rows[j][i])
  {
    assert (i as real).Floor == i && (j as real).Floor == j;
    BilinearCorners(rows[j][i], rows[j][i + 1], rows[j + 1][i], rows[j + 1][i + 1]);
  }

  lemma LonIndexOfColumn(h: Header, i: nat)
    requires h.dx > 0.0 && i as real * h.dx < 360.0
    ensures LonIndex(h, h.lo1 + i as real * h.dx) == i as real
  {
    assert h.lo1 + i as real * h.dx - h.lo1 == i as real * h.dx;
    FloorModInRange(i as real * h.dx, 360.0);
  }

  /**
   * At a grid point (column `i`, row `j`; `LonIndexOfColumn` and
   * `LatIndexOfRow` locate `λ0 + i·Δλ` and `φ0 - j·Δφ` there) whose cell is
   * complete, interpolation returns that point's own sample.
   */
  lemma InterpolateAtGridPoint(g: GridState, i: nat, j: nat, lon: real, lat: real)
    requires g.header.dx != 0.0 && g.header.dy != 0.0
    requires LonIndex(g.header, lon) == i as real && LatIndex(g.header, lat) == j as real
    requires j + 1 < |g.rows| && i + 1 < |g.rows[j]| && i + 1 < |g.rows[j + 1]|
    ensures InterpolateAt(g, lon, lat) == Some(g.rows[j][i])
  {
    InterpolateByIndices(g, lon, lat, i as real, j as real);
    LookupAtNode(g.rows, i, j);
  }

  /** The engine's grid state; `state` is `None` until a grid has been built. */
  class Windy {
    var state: Option<GridState>

    constructor ()
      ensures state == None
    {
      state := None;
    }

    /**
     * `buildGrid`: choose the components, then fill `ny` rows of `nx`
     * samples, appending the first sample again when the grid wraps. A
     * missing component throws before anything is assigned.
     */
    method BuildGrid(records: seq<Record>) returns (r: Result<()>)
      requires Components(records).Ok? ==>
                 var (uc, vc) := Components(records).value;
                 uc.header.nx * uc.header.ny <= |uc.data| && uc.header.nx * uc.header.ny <= |vc.data|
      modifies this
      ensures Components(records).Throw? ==> r == Throw(TypeError) && state == old(state)
      ensures Components(records).Ok? ==>
                var (uc, vc) := Components(records).value;
                && r == Ok(())
                && state.Some?
                && state.value.header == uc.header
                && IsGrid(state.value.rows, uc.data, vc.data, uc.header.nx, uc.header.ny, IsContinuous(uc.header))
    {
      var builder := CreateBuilder(records);
      if builder.Throw? {
        return Throw(TypeError);
      }
      var (uComp, vComp) := builder.value;
      var header := uComp.header;
      var nx, ny := header.nx, header.ny;
      var wrap := IsContinuous(header);
      if wrap {
        ContinuousHasColumns(header);
      }
      var grid: seq<seq<Sample>> := [];
      var p := 0;
      var j := 0;
      while j < ny
        invariant 0 <= j <= ny
        invariant p == j * nx
        invariant |grid| == j
        invariant forall k :: 0 <= k < j ==> IsRow(grid[k], uComp.data, vComp.data, nx, k, wrap)
      {
        RowStartInRange(j, nx, ny);
        var row: seq<Sample> := [];
        var i := 0;
        while i < nx
          invariant 0 <= i <= nx
          invariant p == j * nx + i
          invariant |row| == i
          invariant forall m :: 0 <= m < i ==>
                      j * nx + m < |uComp.data| && j * nx + m < |vComp.data|
                      && row[m] == Sample(uComp.data[j * nx + m], vComp.data[j * nx + m])
        {
          row := row + [Sample(uComp.data[p], vComp.data[p])];
          i := i + 1;
          p := p + 1;
        }
        if wrap {
          row := row + [row[0]];
        }
        assert IsRow(row, uComp.data, vComp.data, nx, j, wrap);
        grid := grid + [row];
        j := j + 1;
      }
      state := Some(GridState(header, grid));
      r := Ok(());
    }

    /** `interpolate`: `null` before any grid has been built. */
    function Interpolate(lon: real, lat: real): (r: Option<Sample>)
      reads this
      ensures state.None? ==> r.None?
    {
      match state
      case None => None
      case Some(g) => InterpolateAt(g, lon, lat)
    }
  }
}
