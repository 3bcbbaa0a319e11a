/**
 * The two grid layers of the weather-layers plugin, `GridValueLayer` and
 * `WindGridLayer`. Each keeps the `data` object it was given, reshapes its
 * flat `data.data` array into rows with a wrap column (`_buildGrid`), and on
 * every redraw walks the cells inside the viewport with a stride that keeps
 * the labels apart (`_draw`), skipping the cells that are loosely equal
 * (`==`) to the layer's missing value. The value layer writes each cell as
 * text; the wind layer reads each cell as a `"speed_direction"` string and
 * draws the icon of the speed's wind force level.
 *
 * `_setData`, `_buildGrid` and `clear` are the same code in both layers, so
 * one class, `GridLayer`, holds the state of either; `DrawValues` is the
 * value layer's `_draw` and `DrawWinds` the wind layer's. The map
 * projection is abstract: `_draw` receives the viewport edges and the
 * on-screen distance between two neighbouring grid columns.
 */
module GridLayers {
  import opened Wrappers
  import opened Text
  import opened JsValues
  import opened JsMath
  import opened WindUtil

  // ---------------------------------------------------------------------
  // The data and its reshaped grid

  /** The `data` object of `setData`: sizes, origin, spacing, the flat values and an optional missing value. */
  datatype GridData = GridData(latsize: nat, lonsize: nat, startlon: real, startlat: real,
                               nlon: real, nlat: real, data: seq<JsValue>, missingValue: JsValue)

  /** `_getItem(p)`: `data.data[p]`, `undefined` past the end. */
  function ItemAt(data: seq<JsValue>, p: nat): JsValue
  {
    if p < |data| then data[p] else Undefined
  }

  /** Row `j` of the grid: `lonsize` items read row-major, then a copy of the row's first entry. */
  function GridRow(d: GridData, j: nat): seq<JsValue>
  {
    seq(d.lonsize, i requires 0 <= i < d.lonsize => ItemAt(d.data, j * d.lonsize + i))
      + [if d.lonsize > 0 then ItemAt(d.data, j * d.lonsize) else Undefined]
  }

  /** The grid `_buildGrid` builds: `latsize` rows. */
  function Reshape(d: GridData): seq<seq<JsValue>>
  {
    seq(d.latsize, j requires 0 <= j < d.latsize => GridRow(d, j))
  }

  /**
   * Every row wraps: it has `lonsize + 1` entries, the first `lonsize` are
   * the row-major items and the last repeats the first (`undefined` for an
   * empty row, where `row[0]` reads past the end).
   */
  lemma ReshapeShape(d: GridData)
    ensures |Reshape(d)| == d.latsize
    ensures forall j :: 0 <= j < d.latsize ==> |Reshape(d)[j]| == d.lonsize + 1
    ensures forall j, i :: 0 <= j < d.latsize && 0 <= i < d.lonsize ==>
              Reshape(d)[j][i] == ItemAt(d.data, j * d.lonsize + i)
    ensures forall j :: 0 <= j < d.latsize ==>
              Reshape(d)[j][d.lonsize] == (if d.lonsize > 0 then Reshape(d)[j][0] else Undefined)
  {
  }

  /** The rows laid end to end. */
  function Flatten(rows: seq<seq<JsValue>>): seq<JsValue>
  {
    if |rows| == 0 then [] else Flatten(rows[..|rows| - 1]) + rows[|rows| - 1]
  }

  /** The first `n` rows without their wrap column. */
  function Unwrapped(d: GridData, n: nat): seq<seq<JsValue>>
    requires n <= d.latsize
  {
    seq(n, j requires 0 <= j < n => Reshape(d)[j][..d.lonsize])
  }

  /** The first `n` items of the data, read with `_getItem`. */
  function Items(data: seq<JsValue>, from: nat, n: nat): seq<JsValue>
  {
    seq(n, k requires 0 <= k < n => ItemAt(data, from + k))
  }

  lemma ItemsSplit(data: seq<JsValue>, a: nat, b: nat)
    ensures Items(data, 0, a + b) == Items(data, 0, a) + Items(data, a, b)
  {
  }

  lemma UnwrappedRow(d: GridData, n: nat, j: nat)
    requires j < n <= d.latsize
    ensures Unwrapped(d, n)[j] == Items(d.data, j * d.lonsize, d.lonsize)
  {
    assert Reshape(d)[j] == GridRow(d, j);
  }

  /** Dropping the wrap columns and joining the rows gives back the flat items, row-major. */
  lemma {:induction false} FlattenUnwrapped(d: GridData, n: nat)
    requires n <= d.latsize
    ensures Flatten(Unwrapped(d, n)) == Items(d.data, 0, n * d.lonsize)
  {
    if n > 0 {
      var rs := Unwrapped(d, n);
      assert rs[..n - 1] == Unwrapped(d, n - 1);
      FlattenUnwrapped(d, n - 1);
      UnwrappedRow(d, n, n - 1);
      assert n * d.lonsize == (n - 1) * d.lonsize + d.lonsize;
      ItemsSplit(d.data, (n - 1) * d.lonsize, d.lonsize);
    }
  }

  /** When the data has all `latsize * lonsize` items, the unwrapped grid is exactly that data. */
  lemma GridHoldsTheData(d: GridData)
    requires |d.data| >= d.latsize * d.lonsize
    ensures Flatten(Unwrapped(d, d.latsize)) == d.data[..d.latsize * d.lonsize]
  {
    var m := d.latsize * d.lonsize;
    FlattenUnwrapped(d, d.latsize);
    forall k | 0 <= k < m
      ensures Items(d.data, 0, m)[k] == d.data[..m][k]
    {
      assert ItemAt(d.data, k) == d.data[k];
    }
  }

  // ---------------------------------------------------------------------
  // The viewport window and the stride of `_draw`

  /** The viewport edges, in degrees. */
  datatype View = View(west: real, south: real, east: real, north: real)

  /**
   * The first index of the window along one axis: `floor((lo - origin) /
   * step)` when it lies strictly between 0 and `size`, and 0 otherwise (a
   * zero step divides to an infinity or `NaN`, which fails the test).
   */
  function StartIndex(lo: real, origin: real, step: real, size: nat): (s: nat)
    ensures s == 0 || s < size
  {
    if step != 0.0 && 0 < ((lo - origin) / step).Floor < size then ((lo - origin) / step).Floor else 0
  }

  /** The end (exclusive) of the window: `ceil((hi - origin) / step)` when strictly inside, `size` otherwise. */
  function EndIndex(hi: real, origin: real, step: real, size: nat): (e: nat)
    ensures e <= size
  {
    if step != 0.0 && 0 < Ceil((hi - origin) / step) < size then Ceil((hi - origin) / step) else size
  }

  lemma DivAtMost(a: real, step: real, c: real)
    requires step > 0.0 && a <= c * step
    ensures a / step <= c
  {
    assert a / step * step == a;
  }

  lemma DivBelow(a: real, step: real, c: real)
    requires step > 0.0 && c * step < a
    ensures c < a / step
  {
    assert a / step * step == a;
  }

  /**
   * With a positive step, the window holds every grid index whose
   * coordinate lies in the view, the view's far edge excluded.
   */
  lemma WindowCoversView(lo: real, hi: real, origin: real, step: real, size: nat, c: nat)
    requires step > 0.0 && c < size
    requires lo <= origin + c as real * step < hi
    ensures StartIndex(lo, origin, step, size) <= c < EndIndex(hi, origin, step, size)
  {
    DivAtMost(lo - origin, step, c as real);
    DivBelow(hi - origin, step, c as real);
  }

  /**
   * `xi`: 1 when the on-screen column distance `d` exceeds `(lonsize - 1)
   * * nlon`, else `ceil((lonsize - 1) * nlon / d)`. For `d == 0` that
   * quotient is an infinity or `NaN`, so `i += xi` leaves the range after
   * the first index: `None`.
   */
  function Stride(d: real, lonsize: nat, nlon: real): (xi: Option<nat>)
    requires d >= 0.0
    ensures xi.Some? ==> xi.value >= 1
    ensures xi.None? <==> d == 0.0 && d <= (lonsize - 1) as real * nlon
  {
    var span := (lonsize - 1) as real * nlon;
    if d > span then Some(1)
    else if d == 0.0 then None
    else
      assert span / d >= 1.0 by { DivAtMost(d, d, 1.0); assert 1.0 * d <= span; RatioAtLeastOne(span, d); }
      Some(Ceil(span / d))
  }

  lemma RatioAtLeastOne(a: real, d: real)
    requires d > 0.0 && d <= a
    ensures a / d >= 1.0
  {
    assert a / d * d == a;
  }

  /**
   * The stride is the least step that spaces the drawn columns at least
   * `(lonsize - 1) * nlon` apart on screen.
   */
  lemma StrideSpacing(d: real, lonsize: nat, nlon: real)
    requires d > 0.0
    ensures var span := (lonsize - 1) as real * nlon;
            var xi := Stride(d, lonsize, nlon);
            && xi.Some?
            && xi.value as real * d >= span
            && (xi.value == 1 || (xi.value - 1) as real * d < span)
  {
    var span := (lonsize - 1) as real * nlon;
    if d <= span {
      var c := Ceil(span / d);
      assert (c - 1) as real < span / d <= c as real;
      MulBelow(span, d, (c - 1) as real);
      MulAtLeast(span, d, c as real);
    }
  }

  lemma MulAtLeast(a: real, d: real, c: real)
    requires d > 0.0 && a / d <= c
    ensures a <= c * d
  {
    assert a / d * d == a;
  }

  lemma MulBelow(a: real, d: real, c: real)
    requires d > 0.0 && c < a / d
    ensures c * d < a
  {
    assert a / d * d == a;
  }

  /** The indices `for (i = start; i < end; i += stride)` visits. */
  function Visits(start: int, end: int, stride: Option<nat>): seq<int>
    requires stride.Some? ==> stride.value >= 1
    decreases end - start
  {
    if start >= end then []
    else if stride.None? then [start]
    else [start] + Visits(start + stride.value, end, stride)
  }

  lemma ModShift(a: int, s: nat)
    requires s >= 1
    ensures (a - s) % s == a % s
  {
    var q, r := a / s, a % s;
    assert a - s == (q - 1) * s + r;
    DivModUnique(a - s, s, q - 1, r);
  }

  lemma ModZeroPositive(a: int, s: nat)
    requires s >= 1 && a > 0 && a % s == 0
    ensures a >= s
  {
    var q := a / s;
    assert a == q * s;
    assert q >= 1;
  }

  /** The loop visits exactly the indices of the range that are a whole number of strides past the start. */
  lemma {:induction false} VisitsExactly(start: int, end: int, s: nat, x: int)
    requires s >= 1
    ensures x in Visits(start, end, Some(s)) <==> start <= x < end && (x - start) % s == 0
    decreases end - start
  {
    if start < end {
      var rest := Visits(start + s, end, Some(s));
      assert Visits(start, end, Some(s)) == [start] + rest;
      VisitsExactly(start + s, end, s, x);
      ModShift(x - start, s);
      assert x - (start + s) == (x - start) - s;
      if x > start && (x - start) % s == 0 {
        ModZeroPositive(x - start, s);
      }
    }
  }

  /** Every visited index lies in `[start, end)`, and an infinite stride visits only the start. */
  lemma {:induction false} VisitsInRange(start: int, end: int, stride: Option<nat>)
    requires stride.Some? ==> stride.value >= 1
    ensures forall x :: x in Visits(start, end, stride) ==> start <= x < end
    ensures stride.None? ==> Visits(start, end, stride) == (if start < end then [start] else [])
    decreases end - start
  {
    if start < end && stride.Some? {
      VisitsInRange(start + stride.value, end, stride);
    }
  }

  /** The rows `_draw` walks. */
  function VisibleRows(dd: GridData, view: View, d: real): seq<int>
    requires d >= 0.0
  {
    Visits(StartIndex(view.south, dd.startlat, dd.nlat, dd.latsize),
           EndIndex(view.north, dd.startlat, dd.nlat, dd.latsize), Stride(d, dd.lonsize, dd.nlon))
  }

  /** The columns `_draw` walks in every row. */
  function VisibleColumns(dd: GridData, view: View, d: real): seq<int>
    requires d >= 0.0
  {
    Visits(StartIndex(view.west, dd.startlon, dd.nlon, dd.lonsize),
           EndIndex(view.east, dd.startlon, dd.nlon, dd.lonsize), Stride(d, dd.lonsize, dd.nlon))
  }

  /** `_draw` stays inside the grid and never reaches the wrap column. */
  lemma VisibleCellsInGrid(dd: GridData, view: View, d: real)
    requires d >= 0.0
    ensures forall i :: i in VisibleRows(dd, view, d) ==> 0 <= i < dd.latsize
    ensures forall j :: j in VisibleColumns(dd, view, d) ==> 0 <= j < dd.lonsize
  {
    var xi := Stride(d, dd.lonsize, dd.nlon);
    VisitsInRange(StartIndex(view.south, dd.startlat, dd.nlat, dd.latsize),
                  EndIndex(view.north, dd.startlat, dd.nlat, dd.latsize), xi);
    VisitsInRange(StartIndex(view.west, dd.startlon, dd.nlon, dd.lonsize),
                  EndIndex(view.east, dd.startlon, dd.nlon, dd.lonsize), xi);
  }

  // ---------------------------------------------------------------------
  // What `_draw` draws

  /** `grid[i][j]`, `undefined` outside the grid. */
  function Cell(g: seq<seq<JsValue>>, i: int, j: int): JsValue
  {
    if 0 <= i < |g| && 0 <= j < |g[i]| then g[i][j] else Undefined
  }

  /** A `_drawText(value, p)` call of the value layer, at grid row `i` and column `j`. */
  datatype Mark = Mark(i: int, j: int, value: JsValue)

  /** The label of one cell: none when it is loosely equal to the missing value. */
  function Label(v: JsValue, i: int, j: int, missing: JsValue): seq<Mark>
  {
    if LooseEq(v, missing) then [] else [Mark(i, j, v)]
  }

  function RowMarks(g: seq<seq<JsValue>>, i: int, cols: seq<int>, missing: JsValue): seq<Mark>
  {
    if |cols| == 0 then []
    else Label(Cell(g, i, cols[0]), i, cols[0], missing) + RowMarks(g, i, cols[1..], missing)
  }

  /** The labels of the value layer, row by row. */
  function ValueMarks(g: seq<seq<JsValue>>, rows: seq<int>, cols: seq<int>, missing: JsValue): seq<Mark>
  {
    if |rows| == 0 then [] else RowMarks(g, rows[0], cols, missing) + ValueMarks(g, rows[1..], cols, missing)
  }

  lemma {:induction false} RowMarksExactly(g: seq<seq<JsValue>>, i: int, cols: seq<int>, missing: JsValue, m: Mark)
    ensures m in RowMarks(g, i, cols, missing) <==>
            m.i == i && m.j in cols && m.value == Cell(g, i, m.j) && !LooseEq(m.value, missing)
  {
    if |cols| > 0 {
      RowMarksExactly(g, i, cols[1..], missing, m);
      assert cols == [cols[0]] + cols[1..];
    }
  }

  /** A label is drawn exactly for each visited cell that is not loosely equal to the missing value. */
  lemma {:induction false} ValueMarksExactly(g: seq<seq<JsValue>>, rows: seq<int>, cols: seq<int>, missing: JsValue, m: Mark)
    ensures m in ValueMarks(g, rows, cols, missing) <==>
            m.i in rows && m.j in cols && m.value == Cell(g, m.i, m.j) && !LooseEq(m.value, missing)
  {
    if |rows| > 0 {
      RowMarksExactly(g, rows[0], cols, missing, m);
      ValueMarksExactly(g, rows[1..], cols, missing, m);
      assert rows == [rows[0]] + rows[1..];
    }
  }

  /** The speed of a `"speed_direction"` cell: `+value.split('_')[0]`. */
  function SpeedOf(s: string): Option<real>
  {
    ToNumber(Split(s, '_')[0])
  }

  /** `getwindlevelms` of the speed; `NaN` fails every comparison and ends at level 12. */
  function LevelOf(speed: Option<real>): (level: int)
    ensures 1 <= level <= 12
  {
    if speed.None? then 12 else WindLevelMs(speed.value)
  }

  /** A `_drawImage(value, p)` call of the wind layer, with the force level whose icon it draws. */
  datatype WindMark = WindMark(i: int, j: int, level: int)

  /** The wind marks of one row; a cell that is not a string has no `split` and throws. */
  function RowWindMarks(g: seq<seq<JsValue>>, i: int, cols: seq<int>, missing: JsValue): Result<seq<WindMark>>
  {
    if |cols| == 0 then Ok([])
    else
      var v := Cell(g, i, cols[0]);
      if !v.Str? then Throw(TypeError)
      else
        var speed := SpeedOf(v.s);
        var head := if LooseEq(NumberValue(speed), missing) then [] else [WindMark(i, cols[0], LevelOf(speed))];
        var rest := RowWindMarks(g, i, cols[1..], missing);
        if rest.Throw? then rest else Ok(head + rest.value)
  }

  /** The icons of the wind layer, row by row, or the `TypeError` of the first non-string cell. */
  function WindMarks(g: seq<seq<JsValue>>, rows: seq<int>, cols: seq<int>, missing: JsValue): Result<seq<WindMark>>
  {
    if |rows| == 0 then Ok([])
    else
      var head := RowWindMarks(g, rows[0], cols, missing);
      if head.Throw? then head
      else
        var rest := WindMarks(g, rows[1..], cols, missing);
        if rest.Throw? then rest else Ok(head.value + rest.value)
  }

  lemma {:induction false} RowWindMarksThrows(g: seq<seq<JsValue>>, i: int, cols: seq<int>, missing: JsValue)
    ensures RowWindMarks(g, i, cols, missing).Throw? <==> exists j :: j in cols && !Cell(g, i, j).Str?
    ensures RowWindMarks(g, i, cols, missing).Throw? ==> RowWindMarks(g, i, cols, missing) == Throw(TypeError)
  {
    if |cols| > 0 {
      RowWindMarksThrows(g, i, cols[1..], missing);
      assert cols == [cols[0]] + cols[1..];
    }
  }

  /** The wind layer throws exactly when some visited cell is not a string, and then a `TypeError`. */
  lemma {:induction false} WindMarksThrows(g: seq<seq<JsValue>>, rows: seq<int>, cols: seq<int>, missing: JsValue)
    ensures WindMarks(g, rows, cols, missing).Throw? <==>
            exists i, j :: i in rows && j in cols && !Cell(g, i, j).Str?
    ensures WindMarks(g, rows, cols, missing).Throw? ==> WindMarks(g, rows, cols, missing) == Throw(TypeError)
  {
    if |rows| > 0 {
      RowWindMarksThrows(g, rows[0], cols, missing);
      WindMarksThrows(g, rows[1..], cols, missing);
      assert rows == [rows[0]] + rows[1..];
    }
  }

  lemma {:induction false} RowWindMarksExactly(g: seq<seq<JsValue>>, i: int, cols: seq<int>, missing: JsValue, m: WindMark)
    requires RowWindMarks(g, i, cols, missing).Ok?
    ensures m in RowWindMarks(g, i, cols, missing).value <==>
            && m.i == i && m.j in cols
            && var v := Cell(g, i, m.j);
               v.Str? && !LooseEq(NumberValue(SpeedOf(v.s)), missing) && m.level == LevelOf(SpeedOf(v.s))
  {
    if |cols| > 0 {
      RowWindMarksExactly(g, i, cols[1..], missing, m);
      assert cols == [cols[0]] + cols[1..];
    }
  }

  /**
   * When nothing throws, an icon is drawn exactly for each visited cell
   * whose speed is not loosely equal to the missing value, at the force
   * level of that speed.
   */
  lemma {:induction false} WindMarksExactly(g: seq<seq<JsValue>>, rows: seq<int>, cols: seq<int>, missing: JsValue, m: WindMark)
    requires WindMarks(g, rows, cols, missing).Ok?
    ensures m in WindMarks(g, rows, cols, missing).value <==>
            && m.i in rows && m.j in cols
            && var v := Cell(g, m.i, m.j);
               v.Str? && !LooseEq(NumberValue(SpeedOf(v.s)), missing) && m.level == LevelOf(SpeedOf(v.s))
  {
    if |rows| > 0 {
      RowWindMarksExactly(g, rows[0], cols, missing, m);
      WindMarksExactly(g, rows[1..], cols, missing, m);
      assert rows == [rows[0]] + rows[1..];
    }
  }

  /** With the missing value still `undefined`, every visited wind cell is drawn. */
  lemma {:induction false} UndefinedMissingDrawsEveryWindCell(g: seq<seq<JsValue>>, rows: seq<int>, cols: seq<int>)
    requires WindMarks(g, rows, cols, Undefined).Ok?
    ensures |WindMarks(g, rows, cols, Undefined).value| == |rows| * |cols|
  {
    if |rows| > 0 {
      RowWindCount(g, rows[0], cols);
      UndefinedMissingDrawsEveryWindCell(g, rows[1..], cols);
      assert |rows| * |cols| == |cols| + (|rows| - 1) * |cols|;
    }
  }

  lemma {:induction false} RowWindCount(g: seq<seq<JsValue>>, i: int, cols: seq<int>)
    requires RowWindMarks(g, i, cols, Undefined).Ok?
    ensures |RowWindMarks(g, i, cols, Undefined).value| == |cols|
  {
    if |cols| > 0 {
      NumberNeverUndefined(SpeedOf(Cell(g, i, cols[0]).s));
      RowWindCount(g, i, cols[1..]);
    }
  }

  // ---------------------------------------------------------------------
  // The layer state

  /** The state `GridValueLayer` and `WindGridLayer` share: `data`, `missingValue` and `grid`. */
  class GridLayer {
    var data: Option<GridData>
    var missingValue: JsValue
    var grid: Option<seq<seq<JsValue>>>

    /** While there is data, the grid is its reshape. */
    ghost predicate Valid()
      reads this
    {
      data.Some? ==> grid == Some(Reshape(data.value))
    }

    /** A new layer: no data, no grid, and `this.missingValue` unset, i.e. `undefined`. */
    constructor ()
      ensures data == None && missingValue == Undefined && grid == None
      ensures Valid()
    {
      data := None;
      missingValue := Undefined;
      grid := None;
    }

    /**
     * `setData`: `_setData`, which stores the argument and then takes its
     * missing value only when that is truthy (so an earlier one stays),
     * then `_buildGrid`. For `null`, reading `data.missingValue` throws
     * after `this.data` was already set to `null`.
     */
    method SetData(d: Option<GridData>) returns (r: Result<()>)
      modifies this
      ensures d.None? ==> r == Throw(TypeError) && data == None && grid == old(grid) && missingValue == old(missingValue)
      ensures d.Some? ==> r == Ok(()) && data == d && grid == Some(Reshape(d.value))
      ensures d.Some? ==> missingValue == if Truthy(d.value.missingValue) then d.value.missingValue else old(missingValue)
      ensures Valid()
    {
      data := d;
      if d.None? {
        return Throw(TypeError);
      }
      if Truthy(d.value.missingValue) {
        missingValue := d.value.missingValue;
      }
      r := BuildGrid();
    }

    /**
     * `_buildGrid` (and `reDraw`): the grid is emptied first, so without
     * data `this.data.latsize` throws and leaves it empty.
     */
    method BuildGrid() returns (r: Result<()>)
      modifies this
      ensures data == old(data) && missingValue == old(missingValue)
      ensures old(data).None? ==> r == Throw(TypeError) && grid == Some([])
      ensures old(data).Some? ==> r == Ok(()) && grid == Some(Reshape(data.value))
      ensures Valid()
    {
      grid := Some([]);
      if data.None? {
        return Throw(TypeError);
      }
      var d := data.value;
      var g: seq<seq<JsValue>> := [];
      var p := 0;
      var j := 0;
      while j < d.latsize
        invariant 0 <= j <= d.latsize && p == j * d.lonsize
        invariant |g| == j && forall k :: 0 <= k < j ==> g[k] == GridRow(d, k)
      {
        var row: seq<JsValue> := [];
        var i := 0;
        while i < d.lonsize
          invariant 0 <= i <= d.lonsize && p == j * d.lonsize + i
          invariant row == seq(i, k requires 0 <= k < i => ItemAt(d.data, j * d.lonsize + k))
        {
          row := row + [ItemAt(d.data, p)];
          i := i + 1;
          p := p + 1;
        }
        row := row + [if |row| > 0 then row[0] else Undefined];
        assert row == GridRow(d, j);
        g := g + [row];
        j := j + 1;
        assert p == j * d.lonsize;
      }
      assert g == Reshape(d);
      grid := Some(g);
      r := Ok(());
    }

    /** `clear`: drop the data; the grid stays but is no longer drawn. */
    method Clear()
      modifies this
      ensures data == None && grid == old(grid) && missingValue == old(missingValue)
      ensures Valid()
    {
      data := None;
    }

    /**
     * `GridValueLayer._draw`: nothing without data; otherwise a label for
     * every visited cell that is not loosely equal to the missing value.
     * `d` is the on-screen distance between two neighbouring grid columns
     * divided by `distanceScale`.
     */
    method DrawValues(view: View, d: real) returns (marks: seq<Mark>)
      requires Valid() && d >= 0.0
      ensures data.None? ==> marks == []
      ensures data.Some? ==>
                marks == ValueMarks(grid.value, VisibleRows(data.value, view, d),
                                    VisibleColumns(data.value, view, d), missingValue)
    {
      if data.None? {
        return [];
      }
      var dd := data.value;
      var g := grid.value;
      var missing := missingValue;
      ReshapeShape(dd);
      var si := StartIndex(view.south, dd.startlat, dd.nlat, dd.latsize);
      var ei := EndIndex(view.north, dd.startlat, dd.nlat, dd.latsize);
      var sj := StartIndex(view.west, dd.startlon, dd.nlon, dd.lonsize);
      var ej := EndIndex(view.east, dd.startlon, dd.nlon, dd.lonsize);
      var xi := Stride(d, dd.lonsize, dd.nlon);
      ghost var cols := Visits(sj, ej, xi);
      marks := [];
      var i := si;
      while i < ei
        invariant si <= i
        invariant marks + ValueMarks(g, Visits(i, ei, xi), cols, missing) == ValueMarks(g, Visits(si, ei, xi), cols, missing)
        decreases ei - i
      {
        var rowMarks := DrawValueRow(g, i, sj, ej, xi, missing);
        ValueMarksAdvance(g, i, ei, xi, cols, missing, marks);
        marks := marks + rowMarks;
        i := NextIndex(i, ei, xi);
      }
    }

    /**
     * `WindGridLayer._draw`: nothing without data; otherwise an icon for
     * every visited cell whose speed is not loosely equal to the missing
     * value, or a `TypeError` at the first visited cell that is not a
     * string.
     */
    method DrawWinds(view: View, d: real) returns (r: Result<seq<WindMark>>)
      requires Valid() && d >= 0.0
      ensures data.None? ==> r == Ok([])
      ensures data.Some? ==>
                r == WindMarks(grid.value, VisibleRows(data.value, view, d),
                               VisibleColumns(data.value, view, d), missingValue)
    {
      if data.None? {
        return Ok([]);
      }
      var dd := data.value;
      var g := grid.value;
      var missing := missingValue;
      ReshapeShape(dd);
      var si := StartIndex(view.south, dd.startlat, dd.nlat, dd.latsize);
      var ei := EndIndex(view.north, dd.startlat, dd.nlat, dd.latsize);
      var sj := StartIndex(view.west, dd.startlon, dd.nlon, dd.lonsize);
      var ej := EndIndex(view.east, dd.startlon, dd.nlon, dd.lonsize);
      var xi := Stride(d, dd.lonsize, dd.nlon);
      ghost var cols := Visits(sj, ej, xi);
      var marks: seq<WindMark> := [];
      var i := si;
      AfterEmpty(WindMarks(g, Visits(i, ei, xi), cols, missing));
      while i < ei
        invariant si <= i
        invariant After(marks, WindMarks(g, Visits(i, ei, xi), cols, missing)) == WindMarks(g, Visits(si, ei, xi), cols, missing)
        decreases ei - i
      {
        var row := DrawWindRow(g, i, sj, ej, xi, missing);
        WindMarksStep(g, i, ei, xi, cols, missing);
        if row.Throw? {
          return row;
        }
        AfterAppend(marks, row.value, WindMarks(g, Visits(NextIndex(i, ei, xi), ei, xi), cols, missing));
        marks := marks + row.value;
        i := NextIndex(i, ei, xi);
      }
      assert marks + [] == marks;
      r := Ok(marks);
    }
  }

  /** Where `i += xi` takes the loop: one stride on, or out of the range for an infinite stride. */
  function NextIndex(i: int, end: int, stride: Option<nat>): int
  {
    if stride.Some? then i + stride.value else end
  }

  lemma VisitsStep(start: int, end: int, stride: Option<nat>)
    requires stride.Some? ==> stride.value >= 1
    requires start < end
    ensures Visits(start, end, stride) == [start] + Visits(NextIndex(start, end, stride), end, stride)
  {
  }

  lemma ValueMarksStep(g: seq<seq<JsValue>>, i: int, end: int, xi: Option<nat>, cols: seq<int>, missing: JsValue)
    requires xi.Some? ==> xi.value >= 1
    requires i < end
    ensures ValueMarks(g, Visits(i, end, xi), cols, missing)
            == RowMarks(g, i, cols, missing) + ValueMarks(g, Visits(NextIndex(i, end, xi), end, xi), cols, missing)
  {
    VisitsStep(i, end, xi);
    assert ([i] + Visits(NextIndex(i, end, xi), end, xi))[1..] == Visits(NextIndex(i, end, xi), end, xi);
  }

  lemma ValueMarksAdvance(g: seq<seq<JsValue>>, i: int, end: int, xi: Option<nat>, cols: seq<int>, missing: JsValue, done: seq<Mark>)
    requires xi.Some? ==> xi.value >= 1
    requires i < end
    ensures done + ValueMarks(g, Visits(i, end, xi), cols, missing)
            == (done + RowMarks(g, i, cols, missing)) + ValueMarks(g, Visits(NextIndex(i, end, xi), end, xi), cols, missing)
  {
    ValueMarksStep(g, i, end, xi, cols, missing);
  }

  lemma RowMarksStep(g: seq<seq<JsValue>>, i: int, j: int, end: int, xi: Option<nat>, missing: JsValue)
    requires xi.Some? ==> xi.value >= 1
    requires j < end
    ensures RowMarks(g, i, Visits(j, end, xi), missing)
            == Label(Cell(g, i, j), i, j, missing) + RowMarks(g, i, Visits(NextIndex(j, end, xi), end, xi), missing)
  {
    VisitsStep(j, end, xi);
    assert ([j] + Visits(NextIndex(j, end, xi), end, xi))[1..] == Visits(NextIndex(j, end, xi), end, xi);
  }

  lemma RowMarksAdvance(g: seq<seq<JsValue>>, i: int, j: int, end: int, xi: Option<nat>, missing: JsValue, done: seq<Mark>)
    requires xi.Some? ==> xi.value >= 1
    requires j < end
    ensures done + RowMarks(g, i, Visits(j, end, xi), missing)
            == (done + Label(Cell(g, i, j), i, j, missing)) + RowMarks(g, i, Visits(NextIndex(j, end, xi), end, xi), missing)
  {
    RowMarksStep(g, i, j, end, xi, missing);
  }

  /** The inner loop of `GridValueLayer._draw`, over the visited columns of row `i`. */
  method DrawValueRow(g: seq<seq<JsValue>>, i: int, sj: nat, ej: int, xi: Option<nat>, missing: JsValue)
    returns (rowMarks: seq<Mark>)
    requires 0 <= i < |g| && ej <= |g[i]|
    requires xi.Some? ==> xi.value >= 1
    ensures rowMarks == RowMarks(g, i, Visits(sj, ej, xi), missing)
  {
    var row := g[i];
    rowMarks := [];
    var j := sj;
    while j < ej
      invariant sj <= j
      invariant rowMarks + RowMarks(g, i, Visits(j, ej, xi), missing) == RowMarks(g, i, Visits(sj, ej, xi), missing)
      decreases ej - j
    {
      var value := row[j];
      assert value == Cell(g, i, j);
      RowMarksAdvance(g, i, j, ej, xi, missing, rowMarks);
      ghost var before := rowMarks;
      if !LooseEq(value, missing) {
        rowMarks := rowMarks + [Mark(i, j, value)];
      }
      assert rowMarks == before + Label(value, i, j, missing);
      j := NextIndex(j, ej, xi);
    }
  }

  /** The marks drawn so far followed by those of the rest of the walk. */
  function After(done: seq<WindMark>, rest: Result<seq<WindMark>>): Result<seq<WindMark>>
  {
    if rest.Throw? then rest else Ok(done + rest.value)
  }

  lemma AfterEmpty(rest: Result<seq<WindMark>>)
    ensures After([], rest) == rest
  {
    if rest.Ok? {
      assert [] + rest.value == rest.value;
    }
  }

  lemma AfterAppend(a: seq<WindMark>, b: seq<WindMark>, rest: Result<seq<WindMark>>)
    ensures After(a, After(b, rest)) == After(a + b, rest)
  {
    if rest.Ok? {
      assert a + (b + rest.value) == (a + b) + rest.value;
    }
  }

  lemma WindMarksStep(g: seq<seq<JsValue>>, i: int, end: int, xi: Option<nat>, cols: seq<int>, missing: JsValue)
    requires xi.Some? ==> xi.value >= 1
    requires i < end
    ensures var row := RowWindMarks(g, i, cols, missing);
            var rest := WindMarks(g, Visits(NextIndex(i, end, xi), end, xi), cols, missing);
            WindMarks(g, Visits(i, end, xi), cols, missing) == if row.Throw? then row else After(row.value, rest)
  {
    VisitsStep(i, end, xi);
    assert ([i] + Visits(NextIndex(i, end, xi), end, xi))[1..] == Visits(NextIndex(i, end, xi), end, xi);
  }

  lemma RowWindMarksStep(g: seq<seq<JsValue>>, i: int, j: int, end: int, xi: Option<nat>, missing: JsValue)
    requires xi.Some? ==> xi.value >= 1
    requires j < end
    ensures var v := Cell(g, i, j);
            var rest := RowWindMarks(g, i, Visits(NextIndex(j, end, xi), end, xi), missing);
            RowWindMarks(g, i, Visits(j, end, xi), missing)
            == if !v.Str? then Throw(TypeError)
               else After(if LooseEq(NumberValue(SpeedOf(v.s)), missing) then [] else [WindMark(i, j, LevelOf(SpeedOf(v.s)))], rest)
  {
    VisitsStep(j, end, xi);
    assert ([j] + Visits(NextIndex(j, end, xi), end, xi))[1..] == Visits(NextIndex(j, end, xi), end, xi);
  }

  /** The inner loop of `WindGridLayer._draw`, over the visited columns of row `i`. */
  method DrawWindRow(g: seq<seq<JsValue>>, i: int, sj: nat, ej: int, xi: Option<nat>, missing: JsValue)
    returns (r: Result<seq<WindMark>>)
    requires 0 <= i < |g| && ej <= |g[i]|
    requires xi.Some? ==> xi.value >= 1
    ensures r == RowWindMarks(g, i, Visits(sj, ej, xi), missing)
  {
    var row := g[i];
    var rowMarks: seq<WindMark> := [];
    var j := sj;
    AfterEmpty(RowWindMarks(g, i, Visits(j, ej, xi), missing));
    while j < ej
      invariant sj <= j
      invariant After(rowMarks, RowWindMarks(g, i, Visits(j, ej, xi), missing)) == RowWindMarks(g, i, Visits(sj, ej, xi), missing)
      decreases ej - j
    {
      var value := row[j];
      assert value == Cell(g, i, j);
      RowWindMarksStep(g, i, j, ej, xi, missing);
      if !value.Str? {
        return Throw(TypeError);
      }
      var speed := SpeedOf(value.s);
      var icon: seq<WindMark> := [];
      if !LooseEq(NumberValue(speed), missing) {
        icon := [WindMark(i, j, LevelOf(speed))];
      }
      AfterAppend(rowMarks, icon, RowWindMarks(g, i, Visits(NextIndex(j, ej, xi), ej, xi), missing));
      rowMarks := rowMarks + icon;
      j := NextIndex(j, ej, xi);
    }
    assert rowMarks + [] == rowMarks;
    r := Ok(rowMarks);
  }
}
