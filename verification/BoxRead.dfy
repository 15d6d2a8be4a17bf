/** The two time-series scripts of outputs/e2e: task_script.py reads whole variables,
    task_script_chunked.py reads only the bounding box of all locations and rebuilds
    full-shape arrays around it.  Both give the same records. */
module BoxRead {
  import opened Common

  const BOX_HALF_SIZE: nat := 5

  // Two-dimensional arrays and NumPy slicing.

  datatype Grid<T> = Grid(rows: nat, cols: nat, cells: seq<seq<T>>) {
    ghost predicate Rect() {
      && |cells| == rows
      && forall i :: 0 <= i < rows ==> |cells[i]| == cols
    }
  }

  /** A slice bound past the end of an axis of n entries stops at the end. */
  function Clip(k: nat, n: nat): nat {
    if k < n then k else n
  }

  /** How many entries the slice [lo:hi] of an axis of n entries has. */
  function Span(lo: nat, hi: nat, n: nat): nat {
    if Clip(lo, n) < Clip(hi, n) then Clip(hi, n) - Clip(lo, n) else 0
  }

  datatype Box = Box(r0: nat, r1: nat, c0: nat, c1: nat)

  function Window<T>(g: Grid<T>, b: Box): (w: Grid<T>)
    requires g.Rect()
    ensures w.Rect() && w.rows == Span(b.r0, b.r1, g.rows) && w.cols == Span(b.c0, b.c1, g.cols)
    ensures forall i, j :: 0 <= i < w.rows && 0 <= j < w.cols ==> w.cells[i][j] == g.cells[b.r0 + i][b.c0 + j]
  {
    var rows, cols := Span(b.r0, b.r1, g.rows), Span(b.c0, b.c1, g.cols);
    Grid(rows, cols, seq(rows, i requires 0 <= i < rows =>
      seq(cols, j requires 0 <= j < cols => g.cells[b.r0 + i][b.c0 + j])))
  }

  // The statistic both scripts share: extract_box_mean.

  /** A reading of a plain array; NaN makes any mean over it NaN.  Masked arrays, whose
      means skip what is masked, are not modelled. */
  datatype Value = NaN | Num(x: real)

  /** A quality flag read from an 8-bit variable of either signedness. */
  type Flag = x: int | -128 <= x <= 255

  function Total(vs: seq<Value>): Value {
    if vs == [] then Num(0.0)
    else
      var before, last := Total(vs[..|vs| - 1]), vs[|vs| - 1];
      if before.NaN? || last.NaN? then NaN else Num(before.x + last.x)
  }

  function Mean(vs: seq<Value>): Value
    requires vs != []
  {
    match Total(vs)
    case NaN => NaN
    case Num(x) => Num(x / |vs| as real)
  }

  function Readings(vs: seq<Value>): (xs: seq<real>)
    ensures |xs| == |vs| && forall k :: 0 <= k < |vs| ==> xs[k] == if vs[k].Num? then vs[k].x else 0.0
  {
    seq(|vs|, k requires 0 <= k < |vs| => if vs[k].Num? then vs[k].x else 0.0)
  }

  lemma {:induction false} TotalMeaning(vs: seq<Value>)
    ensures Total(vs) == if NaN in vs then NaN else Num(Sum(Readings(vs)))
    decreases |vs|
  {
    if vs != [] {
      var n := |vs| - 1;
      TotalMeaning(vs[..n]);
      assert vs == vs[..n] + [vs[n]] && Readings(vs)[..n] == Readings(vs[..n]);
    }
  }

  /** A mean is NaN exactly when a reading is; otherwise it weighs every reading alike. */
  lemma MeanMeaning(vs: seq<Value>)
    requires vs != []
    ensures Mean(vs).NaN? <==> NaN in vs
    ensures Mean(vs).Num? ==> Mean(vs).x * |vs| as real == Sum(Readings(vs))
  {
    TotalMeaning(vs);
  }

  function GoodInRow(values: seq<Value>, flags: seq<Flag>): seq<Value>
    requires |values| == |flags|
  {
    if values == [] then []
    else (if flags[0] == 0 then [values[0]] else []) + GoodInRow(values[1..], flags[1..])
  }

  /** The good pixels of rows i onward, row by row. */
  function GoodFrom(cmi: Grid<Value>, dqf: Grid<Flag>, i: nat): seq<Value>
    requires cmi.Rect() && dqf.Rect() && cmi.rows == dqf.rows && cmi.cols == dqf.cols && i <= cmi.rows
    decreases cmi.rows - i
  {
    if i == cmi.rows then []
    else GoodInRow(cmi.cells[i], dqf.cells[i]) + GoodFrom(cmi, dqf, i + 1)
  }

  function Before(k: nat): nat {
    if k < BOX_HALF_SIZE then 0 else k - BOX_HALF_SIZE
  }

  /** The box around a location, clipped by the shape of the data array. */
  function LocationBox(rows: nat, cols: nat, row: nat, col: nat): Box {
    Box(Before(row), Clip(row + BOX_HALF_SIZE, rows), Before(col), Clip(col + BOX_HALF_SIZE, cols))
  }

  /** The good pixels around a location; None where the flag box has another shape
      than the data box, so that the mask cannot index it. */
  function GoodPixels(cmi: Grid<Value>, dqf: Grid<Flag>, row: nat, col: nat): Option<seq<Value>>
    requires cmi.Rect() && dqf.Rect()
  {
    var b := LocationBox(cmi.rows, cmi.cols, row, col);
    var c, d := Window(cmi, b), Window(dqf, b);
    if c.rows == d.rows && c.cols == d.cols then Some(GoodFrom(c, d, 0)) else None
  }

  function ExtractBoxMean(cmi: Grid<Value>, dqf: Grid<Flag>, row: nat, col: nat): Option<Value>
    requires cmi.Rect() && dqf.Rect()
  {
    match GoodPixels(cmi, dqf, row, col)
    case None => None
    case Some(good) => Some(if good == [] then NaN else Mean(good))
  }

  // Files, locations and records.

  datatype Location = Location(name: string, row: nat, col: nat)

  datatype Record = Record(location: string, band: int, time: int, bt: Value)

  /** A found file: what its name says (band and time), and its two variables if it
      can be opened and has them. */
  datatype File = File(parsed: Option<(int, int)>, data: Option<(Grid<Value>, Grid<Flag>)>) {
    ghost predicate Rect() {
      data.Some? ==> data.value.0.Rect() && data.value.1.Rect()
    }

    predicate Relevant() {
      parsed.Some? && parsed.value.0 in [8, 9, 10]
    }
  }

  /** The records one opened file yields: one per location, up to the first location
      whose extraction fails. */
  function RecordsOf(cmi: Grid<Value>, dqf: Grid<Flag>, places: seq<Location>, band: int, time: int): seq<Record>
    requires cmi.Rect() && dqf.Rect()
  {
    if places == [] then []
    else match ExtractBoxMean(cmi, dqf, places[0].row, places[0].col)
      case None => []
      case Some(v) => [Record(places[0].name, band, time, v)] + RecordsOf(cmi, dqf, places[1..], band, time)
  }

  /** The k-th record is the k-th location's, with the mean around it. */
  lemma {:induction false} RecordAt(cmi: Grid<Value>, dqf: Grid<Flag>, places: seq<Location>, band: int,
                                    time: int, k: nat)
    requires cmi.Rect() && dqf.Rect() && k < |RecordsOf(cmi, dqf, places, band, time)|
    ensures k < |places|
    ensures var r := RecordsOf(cmi, dqf, places, band, time)[k];
      && r.location == places[k].name && r.band == band && r.time == time
      && ExtractBoxMean(cmi, dqf, places[k].row, places[k].col) == Some(r.bt)
    decreases |places|
  {
    hide ExtractBoxMean;
    if k > 0 {
      RecordAt(cmi, dqf, places[1..], band, time, k - 1);
    }
  }

  function FullFile(f: File, places: seq<Location>): seq<Record>
    requires f.Rect()
  {
    if !f.Relevant() || f.data.None? then []
    else RecordsOf(f.data.value.0, f.data.value.1, places, f.parsed.value.0, f.parsed.value.1)
  }

  // The bounding box of all locations, and the arrays rebuilt around it.

  function Rows(places: seq<Location>): (ks: seq<nat>)
    ensures |ks| == |places| && forall k :: 0 <= k < |ks| ==> ks[k] == places[k].row
  {
    seq(|places|, k requires 0 <= k < |places| => places[k].row)
  }

  function Cols(places: seq<Location>): (ks: seq<nat>)
    ensures |ks| == |places| && forall k :: 0 <= k < |ks| ==> ks[k] == places[k].col
  {
    seq(|places|, k requires 0 <= k < |places| => places[k].col)
  }

  function Least(ks: seq<nat>): (m: nat)
    requires ks != []
    ensures m in ks && forall k :: k in ks ==> m <= k
  {
    var last := ks[|ks| - 1];
    if |ks| == 1 then last
    else
      var m := Least(ks[..|ks| - 1]);
      assert ks == ks[..|ks| - 1] + [last];
      if last < m then last else m
  }

  function Greatest(ks: seq<nat>): (m: nat)
    requires ks != []
    ensures m in ks && forall k :: k in ks ==> k <= m
  {
    var last := ks[|ks| - 1];
    if |ks| == 1 then last
    else
      var m := Greatest(ks[..|ks| - 1]);
      assert ks == ks[..|ks| - 1] + [last];
      if m < last then last else m
  }

  function BoundingBox(places: seq<Location>): Box
    requires places != []
  {
    Box(Before(Least(Rows(places))), Greatest(Rows(places)) + BOX_HALF_SIZE + 1,
        Before(Least(Cols(places))), Greatest(Cols(places)) + BOX_HALF_SIZE + 1)
  }

  /** src is as large as the slice of a rows by cols array that the box selects. */
  predicate FillsBox<T>(rows: nat, cols: nat, b: Box, src: Grid<T>) {
    src.rows == Span(b.r0, b.r1, rows) && src.cols == Span(b.c0, b.c1, cols)
  }

  predicate Inside(b: Box, i: nat, j: nat) {
    b.r0 <= i < b.r1 && b.c0 <= j < b.c1
  }

  /** What an entry becomes when src is assigned to the box. */
  function Patched<T>(b: Box, src: Grid<T>, outside: T, i: nat, j: nat): T
    requires src.Rect() && (Inside(b, i, j) ==> i - b.r0 < src.rows && j - b.c0 < src.cols)
  {
    if Inside(b, i, j) then src.cells[i - b.r0][j - b.c0] else outside
  }

  /** An array of the given shape, filled, then overwritten by src inside the box. */
  function Rebuilt<T>(rows: nat, cols: nat, fill: T, b: Box, src: Grid<T>): (g: Grid<T>)
    requires src.Rect() && FillsBox(rows, cols, b, src)
    ensures g.Rect() && g.rows == rows && g.cols == cols
    ensures forall i, j :: 0 <= i < rows && 0 <= j < cols ==> g.cells[i][j] == Patched(b, src, fill, i, j)
  {
    Grid(rows, cols, seq(rows, i requires 0 <= i < rows =>
      seq(cols, j requires 0 <= j < cols => Patched(b, src, fill, i, j))))
  }

  /** Storing a flag in a signed byte wraps it around: only zero stays zero. */
  function ToInt8(x: Flag): (y: Flag)
    ensures y <= 127 && (y == 0 <==> x == 0) && (x - y) % 256 == 0
  {
    if x > 127 then x - 256 else x
  }

  function Int8Grid(g: Grid<Flag>): (r: Grid<Flag>)
    requires g.Rect()
    ensures r.Rect() && r.rows == g.rows && r.cols == g.cols
    ensures forall i, j :: 0 <= i < g.rows && 0 <= j < g.cols ==> r.cells[i][j] == ToInt8(g.cells[i][j])
  {
    Grid(g.rows, g.cols, seq(g.rows, i requires 0 <= i < g.rows =>
      seq(g.cols, j requires 0 <= j < g.cols => ToInt8(g.cells[i][j]))))
  }

  function ChunkedFile(f: File, places: seq<Location>): seq<Record>
    requires f.Rect()
  {
    if !f.Relevant() || f.data.None? || places == [] then []
    else
      var (cmi, dqf) := f.data.value;
      var b := BoundingBox(places);
      RecordsOf(ChunkedCmi(cmi, b), ChunkedDqf(dqf, b), places, f.parsed.value.0, f.parsed.value.1)
  }

  function ChunkedCmi(cmi: Grid<Value>, b: Box): (g: Grid<Value>)
    requires cmi.Rect()
    ensures g.Rect() && g.rows == cmi.rows && g.cols == cmi.cols
  {
    Rebuilt(cmi.rows, cmi.cols, NaN, b, Window(cmi, b))
  }

  function ChunkedDqf(dqf: Grid<Flag>, b: Box): (g: Grid<Flag>)
    requires dqf.Rect()
    ensures g.Rect() && g.rows == dqf.rows && g.cols == dqf.cols
  {
    Rebuilt(dqf.rows, dqf.cols, ToInt8(255), b, Int8Grid(Window(dqf, b)))
  }

  // The two reads agree.

  lemma InBoundingBox(places: seq<Location>, t: nat)
    requires t < |places|
    ensures var b := BoundingBox(places);
      && b.r0 <= Before(places[t].row) && places[t].row + BOX_HALF_SIZE < b.r1
      && b.c0 <= Before(places[t].col) && places[t].col + BOX_HALF_SIZE < b.c1
  {
    assert Rows(places)[t] in Rows(places) && Cols(places)[t] in Cols(places);
  }

  lemma {:induction false} GoodInRowSame(v: seq<Value>, d: seq<Flag>, w: seq<Value>, e: seq<Flag>)
    requires |v| == |d| == |w| == |e|
    requires forall j :: 0 <= j < |v| ==> v[j] == w[j] && (d[j] == 0 <==> e[j] == 0)
    ensures GoodInRow(v, d) == GoodInRow(w, e)
    decreases |v|
  {
    if v != [] {
      assert v[0] == w[0];
      GoodInRowSame(v[1..], d[1..], w[1..], e[1..]);
    }
  }

  lemma {:induction false} GoodFromSame(c: Grid<Value>, d: Grid<Flag>, c': Grid<Value>, d': Grid<Flag>, i: nat)
    requires c.Rect() && d.Rect() && c'.Rect() && d'.Rect()
    requires c.rows == d.rows == c'.rows == d'.rows && c.cols == d.cols == c'.cols == d'.cols && i <= c.rows
    requires forall i, j :: 0 <= i < c.rows && 0 <= j < c.cols ==> c.cells[i][j] == c'.cells[i][j]
    requires forall i, j :: 0 <= i < c.rows && 0 <= j < c.cols ==> (d.cells[i][j] == 0 <==> d'.cells[i][j] == 0)
    ensures GoodFrom(c, d, i) == GoodFrom(c', d', i)
    decreases c.rows - i
  {
    if i < c.rows {
      GoodInRowSame(c.cells[i], d.cells[i], c'.cells[i], d'.cells[i]);
      GoodFromSame(c, d, c', d', i + 1);
    }
  }

  /** Inside the bounding box the rebuilt data array holds the original data. */
  lemma DataCell(cmi: Grid<Value>, b: Box, i: nat, j: nat)
    requires cmi.Rect() && i < cmi.rows && j < cmi.cols && Inside(b, i, j)
    ensures ChunkedCmi(cmi, b).cells[i][j] == cmi.cells[i][j]
  {
    hide Window, Rebuilt;
  }

  /** ... and the rebuilt flags are zero exactly where the original flags are. */
  lemma FlagCell(dqf: Grid<Flag>, b: Box, i: nat, j: nat)
    requires dqf.Rect() && i < dqf.rows && j < dqf.cols && Inside(b, i, j)
    ensures ChunkedDqf(dqf, b).cells[i][j] == 0 <==> dqf.cells[i][j] == 0
  {
    hide Window, Rebuilt, Int8Grid;
  }

  lemma WindowIndex(lo: nat, hi: nat, n: nat, i: nat)
    requires i < Span(lo, hi, n)
    ensures lo + i < hi && lo + i < n
  {
  }

  /** Box lb lies within box b. */
  ghost predicate Within(lb: Box, b: Box) {
    b.r0 <= lb.r0 && lb.r1 <= b.r1 && b.c0 <= lb.c0 && lb.c1 <= b.c1
  }

  lemma DataSurvives(cmi: Grid<Value>, b: Box, lb: Box, i: nat, j: nat)
    requires cmi.Rect() && Within(lb, b)
    requires i < Window(cmi, lb).rows && j < Window(cmi, lb).cols
    ensures Window(ChunkedCmi(cmi, b), lb).cells[i][j] == Window(cmi, lb).cells[i][j]
  {
    hide ChunkedCmi, Window, Span;
    WindowIndex(lb.r0, lb.r1, cmi.rows, i);
    WindowIndex(lb.c0, lb.c1, cmi.cols, j);
    DataCell(cmi, b, lb.r0 + i, lb.c0 + j);
  }

  lemma FlagsSurvive(dqf: Grid<Flag>, b: Box, lb: Box, i: nat, j: nat)
    requires dqf.Rect() && Within(lb, b)
    requires i < Window(dqf, lb).rows && j < Window(dqf, lb).cols
    ensures Window(ChunkedDqf(dqf, b), lb).cells[i][j] == 0 <==> Window(dqf, lb).cells[i][j] == 0
  {
    hide ChunkedDqf, Window, Span;
    WindowIndex(lb.r0, lb.r1, dqf.rows, i);
    WindowIndex(lb.c0, lb.c1, dqf.cols, j);
    FlagCell(dqf, b, lb.r0 + i, lb.c0 + j);
  }

  /** Around every location of the bounding box, the chunked read sees the same good
      pixels in the same order, and fails exactly where the full read fails. */
  lemma SameGoodPixels(cmi: Grid<Value>, dqf: Grid<Flag>, b: Box, row: nat, col: nat)
    requires cmi.Rect() && dqf.Rect()
    requires b.r0 <= Before(row) && row + BOX_HALF_SIZE < b.r1
    requires b.c0 <= Before(col) && col + BOX_HALF_SIZE < b.c1
    ensures GoodPixels(ChunkedCmi(cmi, b), ChunkedDqf(dqf, b), row, col) == GoodPixels(cmi, dqf, row, col)
  {
    hide ChunkedCmi, ChunkedDqf, Before, GoodFrom;
    var lb := LocationBox(cmi.rows, cmi.cols, row, col);
    assert Within(lb, b);
    var cmi', dqf' := ChunkedCmi(cmi, b), ChunkedDqf(dqf, b);
    var c, d, c', d' := Window(cmi, lb), Window(dqf, lb), Window(cmi', lb), Window(dqf', lb);
    if c.rows == d.rows && c.cols == d.cols {
      forall i, j | 0 <= i < c.rows && 0 <= j < c.cols ensures c.cells[i][j] == c'.cells[i][j] {
        DataSurvives(cmi, b, lb, i, j);
      }
      forall i, j | 0 <= i < c.rows && 0 <= j < c.cols ensures d.cells[i][j] == 0 <==> d'.cells[i][j] == 0 {
        FlagsSurvive(dqf, b, lb, i, j);
      }
      GoodFromSame(c, d, c', d', 0);
    }
  }

  lemma {:induction false} RecordsSame(cmi: Grid<Value>, dqf: Grid<Flag>, cmi': Grid<Value>, dqf': Grid<Flag>,
                                       places: seq<Location>, band: int, time: int)
    requires cmi.Rect() && dqf.Rect() && cmi'.Rect() && dqf'.Rect()
    requires forall t :: 0 <= t < |places| ==>
      GoodPixels(cmi, dqf, places[t].row, places[t].col) == GoodPixels(cmi', dqf', places[t].row, places[t].col)
    ensures RecordsOf(cmi, dqf, places, band, time) == RecordsOf(cmi', dqf', places, band, time)
    decreases |places|
  {
    hide GoodPixels;
    if places != [] {
      assert GoodPixels(cmi, dqf, places[0].row, places[0].col) == GoodPixels(cmi', dqf', places[0].row, places[0].col);
      RecordsSame(cmi, dqf, cmi', dqf', places[1..], band, time);
    }
  }

  /** A file yields a record for every location exactly when no extraction fails. */
  lemma {:induction false} RecordsComplete(cmi: Grid<Value>, dqf: Grid<Flag>, places: seq<Location>, band: int,
                                           time: int)
    requires cmi.Rect() && dqf.Rect()
    ensures |RecordsOf(cmi, dqf, places, band, time)| <= |places|
    ensures |RecordsOf(cmi, dqf, places, band, time)| == |places| <==>
      forall t :: 0 <= t < |places| ==> GoodPixels(cmi, dqf, places[t].row, places[t].col).Some?
    decreases |places|
  {
    hide GoodPixels;
    if places != [] {
      RecordsComplete(cmi, dqf, places[1..], band, time);
      if forall t :: 0 <= t < |places| ==> GoodPixels(cmi, dqf, places[t].row, places[t].col).Some? {
        assert GoodPixels(cmi, dqf, places[0].row, places[0].col).Some?;
      }
      assert forall t :: 0 < t < |places| ==> places[t] == places[1..][t - 1];
    }
  }

  /** The fast read refines the simple one: whatever the shapes of the two variables,
      wherever the locations lie, a file gives the same records either way. */
  lemma ChunkedMatchesFull(f: File, places: seq<Location>)
    requires f.Rect()
    ensures ChunkedFile(f, places) == FullFile(f, places)
  {
    hide ChunkedCmi, ChunkedDqf, GoodPixels, BoundingBox, Before;
    if f.Relevant() && f.data.Some? && places != [] {
      var (cmi, dqf) := f.data.value;
      var b := BoundingBox(places);
      var cmi', dqf' := ChunkedCmi(cmi, b), ChunkedDqf(dqf, b);
      forall t | 0 <= t < |places|
        ensures GoodPixels(cmi, dqf, places[t].row, places[t].col)
             == GoodPixels(cmi', dqf', places[t].row, places[t].col)
      {
        InBoundingBox(places, t);
        SameGoodPixels(cmi, dqf, b, places[t].row, places[t].col);
      }
      RecordsSame(cmi, dqf, cmi', dqf', places, f.parsed.value.0, f.parsed.value.1);
    }
  }

  /** Entry i, j of two arrays of one shape: a good reading v. */
  ghost predicate GoodAt(cmi: Grid<Value>, dqf: Grid<Flag>, i: int, j: int, v: Value)
    requires cmi.Rect() && dqf.Rect() && cmi.rows == dqf.rows && cmi.cols == dqf.cols
  {
    0 <= i < cmi.rows && 0 <= j < cmi.cols && cmi.cells[i][j] == v && dqf.cells[i][j] == 0
  }

  ghost predicate Near(k: nat, i: int) {
    k - 5 <= i < k + 5
  }

  /** The good pixels are the data readings with flag zero at most five rows and columns
      before the location and fewer than five after it. */
  lemma GoodPixelsMeaning(cmi: Grid<Value>, dqf: Grid<Flag>, row: nat, col: nat, v: Value)
    requires cmi.Rect() && dqf.Rect() && cmi.rows == dqf.rows && cmi.cols == dqf.cols
    ensures GoodPixels(cmi, dqf, row, col).Some?
    ensures v in GoodPixels(cmi, dqf, row, col).value <==>
      exists i, j :: Near(row, i) && Near(col, j) && GoodAt(cmi, dqf, i, j, v)
  {
    var lb := LocationBox(cmi.rows, cmi.cols, row, col);
    var c, d := Window(cmi, lb), Window(dqf, lb);
    GoodFromMembers(c, d, 0, v);
    hide *;
    if v in GoodFrom(c, d, 0) {
      var i, j :| 0 <= i && GoodAt(c, d, i, j, v);
      BoxToGrid(cmi, dqf, row, col, i, j, v);
    }
    if i, j :| Near(row, i) && Near(col, j) && GoodAt(cmi, dqf, i, j, v) {
      GridToBox(cmi, dqf, row, col, i, j, v);
    }
  }

  lemma BoxToGrid(cmi: Grid<Value>, dqf: Grid<Flag>, row: nat, col: nat, i: int, j: int, v: Value)
    requires cmi.Rect() && dqf.Rect() && cmi.rows == dqf.rows && cmi.cols == dqf.cols
    requires var lb := LocationBox(cmi.rows, cmi.cols, row, col);
      GoodAt(Window(cmi, lb), Window(dqf, lb), i, j, v)
    ensures Near(row, Before(row) + i) && Near(col, Before(col) + j)
    ensures GoodAt(cmi, dqf, Before(row) + i, Before(col) + j, v)
  {
    hide Window, Span, Before;
    BoxIndex(row, cmi.rows, i);
    BoxIndex(col, cmi.cols, j);
  }

  lemma GridToBox(cmi: Grid<Value>, dqf: Grid<Flag>, row: nat, col: nat, i: int, j: int, v: Value)
    requires cmi.Rect() && dqf.Rect() && cmi.rows == dqf.rows && cmi.cols == dqf.cols
    requires Near(row, i) && Near(col, j) && GoodAt(cmi, dqf, i, j, v)
    ensures var lb := LocationBox(cmi.rows, cmi.cols, row, col);
      0 <= i - lb.r0 && GoodAt(Window(cmi, lb), Window(dqf, lb), i - lb.r0, j - lb.c0, v)
  {
    hide Window, Span, Before;
    IndexInBox(row, cmi.rows, i);
    IndexInBox(col, cmi.cols, j);
  }

  lemma BoxIndex(k: nat, n: nat, i: nat)
    requires i < Span(Before(k), Clip(k + BOX_HALF_SIZE, n), n)
    ensures Before(k) + i < n && k - 5 <= Before(k) + i < k + 5
  {
  }

  lemma IndexInBox(k: nat, n: nat, i: nat)
    requires i < n && k - 5 <= i < k + 5
    ensures 0 <= i - Before(k) < Span(Before(k), Clip(k + BOX_HALF_SIZE, n), n)
  {
  }

  lemma {:induction false} GoodInRowMembers(values: seq<Value>, flags: seq<Flag>, v: Value)
    requires |values| == |flags|
    ensures v in GoodInRow(values, flags) <==> exists j :: 0 <= j < |values| && values[j] == v && flags[j] == 0
    decreases |values|
  {
    if values != [] {
      GoodInRowMembers(values[1..], flags[1..], v);
      if j :| 0 < j < |values| && values[j] == v && flags[j] == 0 {
        assert values[1..][j - 1] == v && flags[1..][j - 1] == 0;
      }
    }
  }

  lemma {:induction false} GoodFromMembers(c: Grid<Value>, d: Grid<Flag>, i: nat, v: Value)
    requires c.Rect() && d.Rect() && c.rows == d.rows && c.cols == d.cols && i <= c.rows
    ensures v in GoodFrom(c, d, i) <==> exists k, j :: i <= k && GoodAt(c, d, k, j, v)
    decreases c.rows - i
  {
    if i < c.rows {
      GoodInRowMembers(c.cells[i], d.cells[i], v);
      GoodFromMembers(c, d, i + 1, v);
      if j :| 0 <= j < c.cols && c.cells[i][j] == v && d.cells[i][j] == 0 {
        assert GoodAt(c, d, i, j, v);
      }
    }
  }

  // What a record says, from the two arrays alone.

  /** A cell with a good reading: at most five rows and columns before the location and fewer
      than five after it, inside both arrays, with flag zero. */
  ghost predicate GoodCell(cmi: Grid<Value>, dqf: Grid<Flag>, row: nat, col: nat, i: int, j: int)
    requires cmi.Rect() && dqf.Rect()
  {
    && row - 5 <= i < row + 5 && col - 5 <= j < col + 5
    && 0 <= i < cmi.rows && 0 <= j < cmi.cols && i < dqf.rows && j < dqf.cols
    && dqf.cells[i][j] == 0
  }

  /** cells lists every good cell around a location, once. */
  ghost predicate GoodCells(cells: seq<(int, int)>, cmi: Grid<Value>, dqf: Grid<Flag>, row: nat, col: nat)
    requires cmi.Rect() && dqf.Rect()
  {
    NoRepeats(cells) && forall i, j :: (i, j) in cells <==> GoodCell(cmi, dqf, row, col, i, j)
  }

  ghost predicate InArray(cells: seq<(int, int)>, rows: nat, cols: nat) {
    forall k :: 0 <= k < |cells| ==> 0 <= cells[k].0 < rows && 0 <= cells[k].1 < cols
  }

  function ValuesAt(cmi: Grid<Value>, cells: seq<(int, int)>): (r: seq<Value>)
    requires cmi.Rect() && InArray(cells, cmi.rows, cmi.cols)
    ensures |r| == |cells| && forall k :: 0 <= k < |cells| ==> r[k] == cmi.cells[cells[k].0][cells[k].1]
  {
    seq(|cells|, k requires 0 <= k < |cells| => cmi.cells[cells[k].0][cells[k].1])
  }

  /** v is the mean of the cells' readings: NaN when there is no cell or one holds NaN, and
      otherwise the number that, times their number, is their sum. */
  ghost predicate MeanOf(v: Value, cells: seq<(int, int)>, cmi: Grid<Value>)
    requires cmi.Rect() && InArray(cells, cmi.rows, cmi.cols)
  {
    var vs := ValuesAt(cmi, cells);
    if cells == [] || NaN in vs then v == NaN
    else v.Num? && v.x * |cells| as real == Sum(Readings(vs))
  }

  /** The flags reach as far as the data do, around a location. */
  ghost predicate FlagsReach(cmi: Grid<Value>, dqf: Grid<Flag>, row: nat, col: nat) {
    && (forall i :: 0 <= i < cmi.rows && Near(row, i) ==> i < dqf.rows)
    && (forall j :: 0 <= j < cmi.cols && Near(col, j) ==> j < dqf.cols)
  }

  lemma {:induction false} GoodInRowPlaces(values: seq<Value>, flags: seq<Flag>, n: nat) returns (at: seq<nat>)
    requires |values| == |flags| && n <= |values|
    ensures |at| == |GoodInRow(values[n..], flags[n..])| && NoRepeats(at)
    ensures forall k :: 0 <= k < |at| ==> at[k] < |values| && GoodInRow(values[n..], flags[n..])[k] == values[at[k]]
    ensures forall j: nat :: j in at <==> n <= j < |values| && flags[j] == 0
    decreases |values| - n
  {
    at := [];
    if n < |values| {
      at := GoodInRowPlaces(values, flags, n + 1);
      assert values[n..][1..] == values[n + 1..] && flags[n..][1..] == flags[n + 1..];
      hide NoRepeats;
      if flags[n] == 0 {
        NoRepeatsPut(n, at);
        at := [n] + at;
      }
    }
  }

  lemma NoRepeatsPut<T(!new)>(x: T, xs: seq<T>)
    requires NoRepeats(xs) && x !in xs
    ensures NoRepeats([x] + xs)
  {
  }

  /** cells lists once the good cells of the rows from i on, and vs their readings. */
  ghost predicate Lists(cells: seq<(int, int)>, vs: seq<Value>, c: Grid<Value>, d: Grid<Flag>, i: nat)
    requires c.Rect() && d.Rect() && c.rows == d.rows && c.cols == d.cols
  {
    && NoRepeats(cells) && |vs| == |cells| && InArray(cells, c.rows, c.cols) && vs == ValuesAt(c, cells)
    && forall a, b :: (a, b) in cells <==> i <= a < c.rows && 0 <= b < c.cols && d.cells[a][b] == 0
  }

  function InRow(at: seq<nat>, i: nat): (r: seq<(int, int)>)
    ensures |r| == |at| && forall k :: 0 <= k < |at| ==> r[k] == (i as int, at[k] as int)
  {
    seq(|at|, k requires 0 <= k < |at| => (i as int, at[k] as int))
  }

  lemma {:induction false} GoodFromPlaces(c: Grid<Value>, d: Grid<Flag>, i: nat) returns (cells: seq<(int, int)>)
    requires c.Rect() && d.Rect() && c.rows == d.rows && c.cols == d.cols && i <= c.rows
    ensures Lists(cells, GoodFrom(c, d, i), c, d, i)
    decreases c.rows - i
  {
    cells := [];
    if i < c.rows {
      var at := GoodInRowPlaces(c.cells[i], d.cells[i], 0);
      assert c.cells[i][0..] == c.cells[i] && d.cells[i][0..] == d.cells[i];
      var rest := GoodFromPlaces(c, d, i + 1);
      cells := InRow(at, i) + rest;
      RowThenRest(c, d, i, at, GoodInRow(c.cells[i], d.cells[i]), rest, GoodFrom(c, d, i + 1));
    }
  }

  lemma RowThenRest(c: Grid<Value>, d: Grid<Flag>, i: nat, at: seq<nat>, vs: seq<Value>, rest: seq<(int, int)>,
                    ws: seq<Value>)
    requires c.Rect() && d.Rect() && c.rows == d.rows && c.cols == d.cols && i < c.rows
    requires |at| == |vs| && NoRepeats(at)
    requires forall k :: 0 <= k < |at| ==> at[k] < c.cols && vs[k] == c.cells[i][at[k]]
    requires forall j: nat :: j in at <==> j < c.cols && d.cells[i][j] == 0
    requires Lists(rest, ws, c, d, i + 1)
    ensures Lists(InRow(at, i) + rest, vs + ws, c, d, i)
  {
    var row := InRow(at, i);
    var cells := row + rest;
    forall a, b ensures (a, b) in row <==> a == i && 0 <= b && b in at {
      if a == i && 0 <= b && b in at {
        var k :| 0 <= k < |at| && at[k] == b;
        assert row[k] == (a, b);
      }
    }
    forall x, y | 0 <= x < y < |cells| ensures cells[x] != cells[y] {
      if x < |row| <= y {
        assert cells[y] in rest && cells[y] == (cells[y].0, cells[y].1);
      }
    }
    assert vs + ws == ValuesAt(c, cells);
  }

  /** Box cells, as cells of the whole array. */
  function Placed(cells: seq<(int, int)>, r0: nat, c0: nat): (r: seq<(int, int)>)
    ensures |r| == |cells| && forall k :: 0 <= k < |cells| ==> r[k] == (r0 + cells[k].0, c0 + cells[k].1)
  {
    seq(|cells|, k requires 0 <= k < |cells| => (r0 + cells[k].0, c0 + cells[k].1))
  }

  lemma PlacedMember(cells: seq<(int, int)>, r0: nat, c0: nat, i: int, j: int)
    ensures (i, j) in Placed(cells, r0, c0) <==> (i - r0, j - c0) in cells
  {
    var all := Placed(cells, r0, c0);
    if (i - r0, j - c0) in cells {
      var k :| 0 <= k < |cells| && cells[k] == (i - r0, j - c0);
      assert all[k] == (i, j);
    }
    if (i, j) in all {
      var k :| 0 <= k < |all| && all[k] == (i, j);
      assert cells[k] == (cells[k].0, cells[k].1);
      assert cells[k] == (i - r0, j - c0);
    }
  }

  lemma PlacedOnce(cells: seq<(int, int)>, r0: nat, c0: nat)
    requires NoRepeats(cells)
    ensures NoRepeats(Placed(cells, r0, c0))
  {
    var all := Placed(cells, r0, c0);
    forall x, y | 0 <= x < y < |all| ensures all[x] != all[y] {
      assert cells[x] != cells[y];
    }
  }

  lemma PlacedCells(cmi: Grid<Value>, dqf: Grid<Flag>, row: nat, col: nat, cells: seq<(int, int)>, vs: seq<Value>)
    requires cmi.Rect() && dqf.Rect()
    requires var lb := LocationBox(cmi.rows, cmi.cols, row, col);
      var c, d := Window(cmi, lb), Window(dqf, lb);
      c.rows == d.rows && c.cols == d.cols && Lists(cells, vs, c, d, 0)
    ensures var all := Placed(cells, Before(row), Before(col));
      GoodCells(all, cmi, dqf, row, col) && InArray(all, cmi.rows, cmi.cols) && vs == ValuesAt(cmi, all)
  {
    var lb := LocationBox(cmi.rows, cmi.cols, row, col);
    var all := Placed(cells, lb.r0, lb.c0);
    WindowCells(cmi, lb);
    PlacedOnce(cells, lb.r0, lb.c0);
    hide Window, Span, Before, NoRepeats, GoodCell;
    PlacedValues(cmi, row, col, cells, vs);
    forall i, j ensures (i, j) in all <==> GoodCell(cmi, dqf, row, col, i, j) {
      GoodCellIff(cmi, dqf, row, col, i, j);
      PlacedMember(cells, lb.r0, lb.c0, i, j);
    }
  }

  lemma PlacedValues(cmi: Grid<Value>, row: nat, col: nat, cells: seq<(int, int)>, vs: seq<Value>)
    requires cmi.Rect()
    requires var c := Window(cmi, LocationBox(cmi.rows, cmi.cols, row, col));
      InArray(cells, c.rows, c.cols) && vs == ValuesAt(c, cells)
    ensures var all := Placed(cells, Before(row), Before(col));
      InArray(all, cmi.rows, cmi.cols) && vs == ValuesAt(cmi, all)
  {
    var lb := LocationBox(cmi.rows, cmi.cols, row, col);
    var all := Placed(cells, Before(row), Before(col));
    WindowCells(cmi, lb);
    hide Window, Span, Before;
    forall k | 0 <= k < |cells|
      ensures 0 <= all[k].0 < cmi.rows && 0 <= all[k].1 < cmi.cols
      ensures vs[k] == cmi.cells[all[k].0][all[k].1]
    {
      BoxIndex(row, cmi.rows, cells[k].0);
      BoxIndex(col, cmi.cols, cells[k].1);
    }
  }

  lemma WindowCells<T>(g: Grid<T>, b: Box)
    requires g.Rect()
    ensures var w := Window(g, b);
      && w.Rect() && w.rows == Span(b.r0, b.r1, g.rows) && w.cols == Span(b.c0, b.c1, g.cols)
      && forall i, j :: 0 <= i < w.rows && 0 <= j < w.cols ==>
           b.r0 + i < g.rows && b.c0 + j < g.cols && w.cells[i][j] == g.cells[b.r0 + i][b.c0 + j]
  {
  }

  /** The good cells of the box are those of the whole array near the location. */
  lemma GoodCellIff(cmi: Grid<Value>, dqf: Grid<Flag>, row: nat, col: nat, i: int, j: int)
    requires cmi.Rect() && dqf.Rect()
    requires var lb := LocationBox(cmi.rows, cmi.cols, row, col);
      Window(cmi, lb).rows == Window(dqf, lb).rows && Window(cmi, lb).cols == Window(dqf, lb).cols
    ensures var lb := LocationBox(cmi.rows, cmi.cols, row, col);
      var d := Window(dqf, lb);
      GoodCell(cmi, dqf, row, col, i, j) <==>
        lb.r0 <= i < lb.r0 + d.rows && lb.c0 <= j < lb.c0 + d.cols && d.cells[i - lb.r0][j - lb.c0] == 0
  {
    var lb := LocationBox(cmi.rows, cmi.cols, row, col);
    WindowCells(cmi, lb);
    WindowCells(dqf, lb);
    hide Window;
    NearIff(row, cmi.rows, dqf.rows, i);
    NearIff(col, cmi.cols, dqf.cols, j);
  }

  lemma NearIff(k: nat, n: nat, m: nat, i: int)
    requires var hi := Clip(k + BOX_HALF_SIZE, n); Span(Before(k), hi, n) == Span(Before(k), hi, m)
    ensures k - 5 <= i < k + 5 && 0 <= i < n && i < m <==>
      0 <= i - Before(k) < Span(Before(k), Clip(k + BOX_HALF_SIZE, n), m)
  {
  }

  lemma SpansAgreeIff(k: nat, n: nat, m: nat)
    ensures Span(Before(k), Clip(k + BOX_HALF_SIZE, n), n) == Span(Before(k), Clip(k + BOX_HALF_SIZE, n), m) <==>
      forall i :: 0 <= i < n && Near(k, i) ==> i < m
  {
    var hi := Clip(k + BOX_HALF_SIZE, n);
    if m < hi && Before(k) < hi {
      assert Near(k, hi - 1) && !(hi - 1 < m);
    }
  }

  /** extract_box_mean, from the arrays alone: it gives a value exactly when the flags reach
      as far as the data around the location, and that value is the mean of the good cells. */
  lemma BoxMeanMeaning(cmi: Grid<Value>, dqf: Grid<Flag>, row: nat, col: nat) returns (cells: seq<(int, int)>)
    requires cmi.Rect() && dqf.Rect()
    ensures ExtractBoxMean(cmi, dqf, row, col).Some? <==> FlagsReach(cmi, dqf, row, col)
    ensures FlagsReach(cmi, dqf, row, col) ==>
      && GoodCells(cells, cmi, dqf, row, col) && InArray(cells, cmi.rows, cmi.cols)
      && MeanOf(ExtractBoxMean(cmi, dqf, row, col).value, cells, cmi)
  {
    var lb := LocationBox(cmi.rows, cmi.cols, row, col);
    var c, d := Window(cmi, lb), Window(dqf, lb);
    SpansAgreeIff(row, cmi.rows, dqf.rows);
    SpansAgreeIff(col, cmi.cols, dqf.cols);
    cells := [];
    if c.rows == d.rows && c.cols == d.cols {
      var inBox := GoodFromPlaces(c, d, 0);
      var good := GoodFrom(c, d, 0);
      cells := Placed(inBox, Before(row), Before(col));
      PlacedCells(cmi, dqf, row, col, inBox, good);
      MeanOfGood(good, cells, cmi);
    }
    hide *;
  }

  lemma MeanOfGood(good: seq<Value>, cells: seq<(int, int)>, cmi: Grid<Value>)
    requires cmi.Rect() && InArray(cells, cmi.rows, cmi.cols) && good == ValuesAt(cmi, cells)
    ensures MeanOf(if good == [] then NaN else Mean(good), cells, cmi)
  {
    if good != [] {
      MeanMeaning(good);
    }
    hide Mean, Sum;
  }

  /** What the records of a file are: none for a file of another band or without data, and
      else one per location in order, with its mean, up to the first location whose flags do
      not reach as far as its data. */
  lemma FileRecords(f: File, places: seq<Location>)
    requires f.Rect()
    ensures f.parsed.None? || !(8 <= f.parsed.value.0 <= 10) || f.data.None? ==> FullFile(f, places) == []
    ensures f.parsed.Some? && 8 <= f.parsed.value.0 <= 10 && f.data.Some? ==>
      var rs := FullFile(f, places);
      && |rs| <= |places|
      && (forall k :: 0 <= k < |rs| ==> RecordOf(rs[k], f, places[k]))
      && (|rs| < |places| ==>
            !FlagsReach(f.data.value.0, f.data.value.1, places[|rs|].row, places[|rs|].col))
  {
    if f.Relevant() && f.data.Some? {
      var (cmi, dqf) := f.data.value;
      StopsAtFailure(cmi, dqf, places, f.parsed.value.0, f.parsed.value.1);
      var rs := FullFile(f, places);
      forall k | 0 <= k < |rs| ensures k < |places| && RecordOf(rs[k], f, places[k]) {
        RecordAt(cmi, dqf, places, f.parsed.value.0, f.parsed.value.1, k);
        var cells := BoxMeanMeaning(cmi, dqf, places[k].row, places[k].col);
        hide ExtractBoxMean, RecordsOf;
        assert MeanAround(cmi, dqf, places[k].row, places[k].col, rs[k].bt, cells);
      }
    }
  }

  /** r is the record of a location in a file. */
  ghost predicate RecordOf(r: Record, f: File, place: Location)
    requires f.Rect() && f.data.Some?
  {
    var (cmi, dqf) := f.data.value;
    && f.parsed == Some((r.band, r.time)) && r.location == place.name
    && FlagsReach(cmi, dqf, place.row, place.col)
    && exists cells :: MeanAround(cmi, dqf, place.row, place.col, r.bt, cells)
  }

  ghost predicate MeanAround(cmi: Grid<Value>, dqf: Grid<Flag>, row: nat, col: nat, v: Value, cells: seq<(int, int)>)
    requires cmi.Rect() && dqf.Rect()
  {
    GoodCells(cells, cmi, dqf, row, col) && InArray(cells, cmi.rows, cmi.cols) && MeanOf(v, cells, cmi)
  }

  lemma {:induction false} StopsAtFailure(cmi: Grid<Value>, dqf: Grid<Flag>, places: seq<Location>, band: int,
                                          time: int)
    requires cmi.Rect() && dqf.Rect()
    ensures var n := |RecordsOf(cmi, dqf, places, band, time)|;
      n <= |places| && (n < |places| ==> !FlagsReach(cmi, dqf, places[n].row, places[n].col))
    decreases |places|
  {
    if places != [] {
      var _ := BoxMeanMeaning(cmi, dqf, places[0].row, places[0].col);
      StopsAtFailure(cmi, dqf, places[1..], band, time);
      hide ExtractBoxMean, FlagsReach;
    }
  }

  // process_all_files of both scripts.

  function FullRecords(files: seq<File>, places: seq<Location>): seq<Record>
    requires forall f :: f in files ==> f.Rect()
  {
    if files == [] then []
    else FullRecords(files[..|files| - 1], places) + FullFile(files[|files| - 1], places)
  }

  function ChunkedRecords(files: seq<File>, places: seq<Location>): seq<Record>
    requires forall f :: f in files ==> f.Rect()
  {
    if files == [] then []
    else ChunkedRecords(files[..|files| - 1], places) + ChunkedFile(files[|files| - 1], places)
  }

  /** The table of more files is that of the first ones, then that of the others. */
  lemma {:induction false} TableInOrder(a: seq<File>, b: seq<File>, places: seq<Location>)
    requires forall f :: f in a + b ==> f.Rect()
    ensures (forall f :: f in a ==> f in a + b) && (forall f :: f in b ==> f in a + b)
    ensures FullRecords(a + b, places) == FullRecords(a, places) + FullRecords(b, places)
    ensures |b| == 1 ==> FullRecords(b, places) == FullFile(b[0], places)
    decreases |b|
  {
    hide FullFile;
    if b == [] {
      assert a + b == a;
    } else {
      var n := |b| - 1;
      assert (a + b)[..|a + b| - 1] == a + b[..n];
      TableInOrder(a, b[..n], places);
    }
  }

  /** The two scripts build the same table, on every list of files and of locations. */
  lemma {:induction false} SameTable(files: seq<File>, places: seq<Location>)
    requires forall f :: f in files ==> f.Rect()
    ensures ChunkedRecords(files, places) == FullRecords(files, places)
    decreases |files|
  {
    hide ChunkedFile, FullFile;
    if files != [] {
      SameTable(files[..|files| - 1], places);
      ChunkedMatchesFull(files[|files| - 1], places);
    }
  }

  /** The loop over locations that both scripts run on an opened file; an exception ends
      it and keeps the records appended so far. */
  method AppendRecords(results: seq<Record>, cmi: Grid<Value>, dqf: Grid<Flag>, places: seq<Location>, band: int,
                       time: int) returns (r: seq<Record>)
    requires cmi.Rect() && dqf.Rect()
    ensures r == results + RecordsOf(cmi, dqf, places, band, time)
  {
    hide ExtractBoxMean;
    r := results;
    for k := 0 to |places|
      invariant results + RecordsOf(cmi, dqf, places, band, time)
             == r + RecordsOf(cmi, dqf, places[k..], band, time)
    {
      var p := places[k];
      assert places[k..][0] == p && places[k..][1..] == places[k + 1..];
      match ExtractBoxMean(cmi, dqf, p.row, p.col)
      case None => return;
      case Some(mean) =>
        ghost var rest := RecordsOf(cmi, dqf, places[k + 1..], band, time);
        assert r + ([Record(p.name, band, time, mean)] + rest) == r + [Record(p.name, band, time, mean)] + rest;
        r := r + [Record(p.name, band, time, mean)];
    }
  }

  method ProcessFull(files: seq<File>, places: seq<Location>) returns (results: seq<Record>)
    requires forall f :: f in files ==> f.Rect()
    ensures results == FullRecords(files, places)
  {
    results := [];
    for i := 0 to |files|
      invariant results == FullRecords(files[..i], places)
    {
      hide RecordsOf;
      var f := files[i];
      assert files[..i + 1][..i] == files[..i];
      assert f in files;
      if !f.Relevant() {
        continue;
      }
      match f.data
      case None =>
      case Some(vars) =>
        results := AppendRecords(results, vars.0, vars.1, places, f.parsed.value.0, f.parsed.value.1);
    }
    assert files[..|files|] == files;
  }

  /** The value an array holds. */
  function Contents<T>(a: array2<T>): (g: Grid<T>)
    reads a
    ensures g.Rect() && g.rows == a.Length0 && g.cols == a.Length1
    ensures forall i, j :: 0 <= i < g.rows && 0 <= j < g.cols ==> g.cells[i][j] == a[i, j]
  {
    Grid(a.Length0, a.Length1, seq(a.Length0, i requires 0 <= i < a.Length0 reads a =>
      seq(a.Length1, j requires 0 <= j < a.Length1 reads a => a[i, j])))
  }

  /** NumPy's assignment of a window to a slice of a larger array, in place. */
  method AssignSlice<T>(a: array2<T>, b: Box, src: Grid<T>)
    requires src.Rect() && FillsBox(a.Length0, a.Length1, b, src)
    modifies a
    ensures forall i, j :: 0 <= i < a.Length0 && 0 <= j < a.Length1 ==> a[i, j] == Patched(b, src, old(a[i, j]), i, j)
  {
    hide Patched;
    for i := 0 to a.Length0
      invariant forall k, j :: 0 <= k < i && 0 <= j < a.Length1 ==> a[k, j] == Patched(b, src, old(a[k, j]), k, j)
      invariant forall k, j :: i <= k < a.Length0 && 0 <= j < a.Length1 ==> a[k, j] == old(a[k, j])
    {
      for j := 0 to a.Length1
        invariant forall k, l :: 0 <= k < i && 0 <= l < a.Length1 ==> a[k, l] == Patched(b, src, old(a[k, l]), k, l)
        invariant forall l :: 0 <= l < j ==> a[i, l] == Patched(b, src, old(a[i, l]), i, l)
        invariant forall l :: j <= l < a.Length1 ==> a[i, l] == old(a[i, l])
        invariant forall k, l :: i < k < a.Length0 && 0 <= l < a.Length1 ==> a[k, l] == old(a[k, l])
      {
        a[i, j] := Patched(b, src, a[i, j], i, j);
      }
    }
  }

  /** numpy.full, then the slice assignment. */
  method Rebuild<T>(rows: nat, cols: nat, fill: T, b: Box, src: Grid<T>) returns (a: array2<T>)
    requires src.Rect() && FillsBox(rows, cols, b, src)
    ensures fresh(a) && Contents(a) == Rebuilt(rows, cols, fill, b, src)
  {
    a := new T[rows, cols]((i, j) => fill);
    AssignSlice(a, b, src);
    SameGrid(Contents(a), Rebuilt(rows, cols, fill, b, src));
  }

  lemma SameGrid<T>(g: Grid<T>, h: Grid<T>)
    requires g.Rect() && h.Rect() && g.rows == h.rows && g.cols == h.cols
    requires forall i, j :: 0 <= i < g.rows && 0 <= j < g.cols ==> g.cells[i][j] == h.cells[i][j]
    ensures g == h
  {
    assert forall i :: 0 <= i < g.rows ==> g.cells[i] == h.cells[i];
  }

  method ProcessChunked(files: seq<File>, places: seq<Location>) returns (results: seq<Record>)
    requires forall f :: f in files ==> f.Rect()
    ensures results == ChunkedRecords(files, places)
  {
    results := [];
    for i := 0 to |files|
      invariant results == ChunkedRecords(files[..i], places)
    {
      hide RecordsOf, Rebuilt, Window, BoundingBox, Int8Grid;
      var f := files[i];
      assert files[..i + 1][..i] == files[..i];
      assert f in files;
      if !f.Relevant() || places == [] {
        continue;
      }
      match f.data
      case None =>
      case Some(vars) =>
        var (cmiVar, dqfVar) := vars;
        var b := BoundingBox(places);
        var cmiFull, dqfFull := Window(cmiVar, b), Window(dqfVar, b);
        var cmi := Rebuild(cmiVar.rows, cmiVar.cols, NaN, b, cmiFull);
        var dqf := Rebuild(dqfVar.rows, dqfVar.cols, ToInt8(255), b, Int8Grid(dqfFull));
        results := AppendRecords(results, Contents(cmi), Contents(dqf), places, f.parsed.value.0, f.parsed.value.1);
    }
    assert files[..|files|] == files;
  }
}
