/** The tile grid of a plan page (src/intake/tiler.py): a page is cut into
    `rows` x `cols` overlapping clips, each named "p{page}_r{row}_c{col}". */
module Tiler {
  import opened Wrappers
  import opened Strings
  import opened Numeric

  /** A clip rectangle `(x0, y0, x1, y1)` in page coordinates. */
  datatype Rect = Rect(x0: real, y0: real, x1: real, y1: real)

  datatype Clip = Clip(row: nat, col: nat, rect: Rect)

  /** Cell `i` of `n` equal cells along an edge of length `extent`, widened
      by `overlap` of a cell on each interior side and clamped to
      [0, extent]. The x and y extents of a clip are computed alike. */
  function Interval(extent: real, n: nat, overlap: real, i: nat): (real, real)
    requires n > 0
  {
    Cell(extent / n as real, extent, n, overlap, i)
  }

  /** Cell `i` for cells of width `base`. */
  function Cell(base: real, extent: real, n: nat, overlap: real, i: nat): (real, real) {
    var over := base * overlap;
    var lo := i as real * base - (if i > 0 then over else 0.0);
    var hi := (i + 1) as real * base + (if i < n - 1 then over else 0.0);
    (MaxReal(0.0, lo), MinReal(extent, hi))
  }

  /** The clip of grid cell (row, col). */
  function ClipRect(width: real, height: real, rows: nat, cols: nat, overlap: real, row: nat, col: nat): Rect
    requires rows > 0 && cols > 0
  {
    var x := Interval(width, cols, overlap, col);
    var y := Interval(height, rows, overlap, row);
    Rect(x.0, y.0, x.1, y.1)
  }

  /** The clips of one grid row, left to right. */
  function RowClips(width: real, height: real, rows: nat, cols: nat, overlap: real, row: nat): (r: seq<Clip>)
    requires rows > 0 && cols > 0
    ensures |r| == cols
    ensures forall c :: 0 <= c < cols ==> r[c] == Clip(row, c, ClipRect(width, height, rows, cols, overlap, row, c))
  {
    seq(cols, c requires 0 <= c < cols => Clip(row, c, ClipRect(width, height, rows, cols, overlap, row, c)))
  }

  /** The clips of the first `n` rows, in row-major order. */
  function Grid(width: real, height: real, rows: nat, cols: nat, overlap: real, n: nat): seq<Clip>
    requires rows > 0 && cols > 0
  {
    if n == 0 then [] else Grid(width, height, rows, cols, overlap, n - 1) + RowClips(width, height, rows, cols, overlap, n - 1)
  }

  /** `_compute_tile_clips` (the caller checks that both grid sizes are
      positive). */
  method ComputeTileClips(width: real, height: real, rows: nat, cols: nat, overlap: real) returns (clips: seq<Clip>)
    requires rows > 0 && cols > 0
    ensures clips == Grid(width, height, rows, cols, overlap, rows)
  {
    clips := [];
    var row := 0;
    while row < rows
      invariant 0 <= row <= rows
      invariant clips == Grid(width, height, rows, cols, overlap, row)
    {
      var col := 0;
      ghost var done := clips;
      while col < cols
        invariant 0 <= col <= cols
        invariant clips == done + RowClips(width, height, rows, cols, overlap, row)[..col]
      {
        assert RowClips(width, height, rows, cols, overlap, row)[..col + 1]
            == RowClips(width, height, rows, cols, overlap, row)[..col] + [Clip(row, col, ClipRect(width, height, rows, cols, overlap, row, col))];
        clips := clips + [Clip(row, col, ClipRect(width, height, rows, cols, overlap, row, col))];
        col := col + 1;
      }
      assert RowClips(width, height, rows, cols, overlap, row)[..cols] == RowClips(width, height, rows, cols, overlap, row);
      row := row + 1;
    }
  }

  lemma MulMonotone(a: nat, b: nat, c: nat)
    requires a <= b
    ensures a * c <= b * c
  {
  }

  lemma {:induction false} GridLength(width: real, height: real, rows: nat, cols: nat, overlap: real, n: nat)
    requires rows > 0 && cols > 0
    ensures |Grid(width, height, rows, cols, overlap, n)| == n * cols
  {
    if n > 0 {
      GridLength(width, height, rows, cols, overlap, n - 1);
      assert n * cols == (n - 1) * cols + cols;
    }
  }

  /** Row-major order: the grid of `n` rows holds n * cols clips, and the
      clip of cell (r, c) sits at position r * cols + c. */
  lemma {:induction false} GridAt(width: real, height: real, rows: nat, cols: nat, overlap: real, n: nat, r: nat, c: nat)
    requires rows > 0 && cols > 0 && r < n && c < cols
    ensures |Grid(width, height, rows, cols, overlap, n)| == n * cols && r * cols + c < n * cols
    ensures Grid(width, height, rows, cols, overlap, n)[r * cols + c] == Clip(r, c, ClipRect(width, height, rows, cols, overlap, r, c))
  {
    var g := Grid(width, height, rows, cols, overlap, n - 1);
    var last := RowClips(width, height, rows, cols, overlap, n - 1);
    GridLength(width, height, rows, cols, overlap, n);
    GridLength(width, height, rows, cols, overlap, n - 1);
    assert (r + 1) * cols == r * cols + cols;
    MulMonotone(r + 1, n, cols);
    if r < n - 1 {
      GridAt(width, height, rows, cols, overlap, n - 1, r, c);
      assert (g + last)[r * cols + c] == g[r * cols + c];
    } else {
      assert r * cols == |g|;
      assert (g + last)[r * cols + c] == last[c];
    }
  }

  /** The whole page grid in row-major order. */
  lemma GridLayout(width: real, height: real, rows: nat, cols: nat, overlap: real)
    requires rows > 0 && cols > 0
    ensures |Grid(width, height, rows, cols, overlap, rows)| == rows * cols
    ensures forall r, c :: 0 <= r < rows && 0 <= c < cols ==>
              Grid(width, height, rows, cols, overlap, rows)[r * cols + c] == Clip(r, c, ClipRect(width, height, rows, cols, overlap, r, c))
  {
    GridLength(width, height, rows, cols, overlap, rows);
    var g := Grid(width, height, rows, cols, overlap, rows);
    forall r, c | 0 <= r < rows && 0 <= c < cols
      ensures r * cols + c < |g| && g[r * cols + c] == Clip(r, c, ClipRect(width, height, rows, cols, overlap, r, c))
    {
      GridAt(width, height, rows, cols, overlap, rows, r, c);
    }
  }

  lemma MulMonotoneReal(a: real, c: real, b: real)
    requires a <= c && b >= 0.0
    ensures a * b <= c * b
  {
  }

  lemma MulBelow(a: real, t: real)
    requires a >= 0.0 && 0.0 <= t < 1.0
    ensures 0.0 <= a * t <= a
  {
  }

  /** The unclamped edges of cell `i` of `n` cells of width `b`: an interior
      edge moved out by `b * overlap` stays within [0, n * b]. */
  lemma CellEdges(b: real, overlap: real, i: nat, n: nat)
    requires b >= 0.0 && 0.0 <= overlap < 1.0 && i < n
    ensures 0.0 <= b * overlap <= b
    ensures 0.0 <= i as real * b && (i + 1) as real * b <= n as real * b
    ensures i > 0 ==> i as real * b - b * overlap >= 0.0
    ensures i < n - 1 ==> (i + 1) as real * b + b * overlap <= n as real * b
  {
    MulBelow(b, overlap);
    MulMonotoneReal(0.0, i as real, b);
    MulMonotoneReal((i + 1) as real, n as real, b);
    if i > 0 {
      MulMonotoneReal(1.0, i as real, b);
    }
    if i < n - 1 {
      MulMonotoneReal((i + 2) as real, n as real, b);
      assert (i + 2) as real * b == (i + 1) as real * b + b;
    }
  }

  /** Each interval lies within [0, extent] and is not inverted; with an
      overlap below one cell, the clamps act only at the border: cell 0
      starts at 0, the last cell ends at `extent`, and every interior edge is
      the cell edge moved out by `overlap` of a cell. */
  lemma IntervalBounds(extent: real, n: nat, overlap: real, i: nat)
    requires n > 0 && i < n && extent >= 0.0 && 0.0 <= overlap < 1.0
    ensures var iv := Interval(extent, n, overlap, i);
            var base := extent / n as real;
            0.0 <= iv.0 <= iv.1 <= extent
            && iv.0 == (if i == 0 then 0.0 else i as real * base - base * overlap)
            && iv.1 == (if i == n - 1 then extent else (i + 1) as real * base + base * overlap)
  {
    var base := extent / n as real;
    Divided(extent, n);
    assert Interval(extent, n, overlap, i) == Cell(base, extent, n, overlap, i);
    CellBounds(base, extent, n, overlap, i);
  }

  /** The same for any cell width `base` that divides `extent` into `n`. */
  lemma CellBounds(base: real, extent: real, n: nat, overlap: real, i: nat)
    requires base >= 0.0 && n as real * base == extent && 0.0 <= overlap < 1.0 && i < n
    ensures var iv := Cell(base, extent, n, overlap, i);
            0.0 <= iv.0 <= iv.1 <= extent
            && iv.0 == (if i == 0 then 0.0 else i as real * base - base * overlap)
            && iv.1 == (if i == n - 1 then extent else (i + 1) as real * base + base * overlap)
  {
    CellEdges(base, overlap, i, n);
    if i == n - 1 {
      assert (i + 1) as real == n as real;
    }
  }

  lemma Divided(extent: real, n: nat)
    requires n > 0 && extent >= 0.0
    ensures extent / n as real >= 0.0 && n as real * (extent / n as real) == extent
  {
  }

  /** Neighbouring cells overlap, so the cells cover [0, extent] without
      gaps. */
  lemma IntervalsMeet(extent: real, n: nat, overlap: real, i: nat)
    requires i + 1 < n && extent >= 0.0 && 0.0 <= overlap < 1.0
    ensures Interval(extent, n, overlap, i + 1).0 <= Interval(extent, n, overlap, i).1
  {
    IntervalBounds(extent, n, overlap, i);
    IntervalBounds(extent, n, overlap, i + 1);
    Divided(extent, n);
    CellEdges(extent / n as real, overlap, i, n);
  }

  /** Every clip lies within the page: its x extent within [0, width] and its
      y extent within [0, height], with the edges of `IntervalBounds`. */
  lemma ClipWithinPage(width: real, height: real, rows: nat, cols: nat, overlap: real, row: nat, col: nat)
    requires rows > 0 && cols > 0 && row < rows && col < cols
    requires width >= 0.0 && height >= 0.0 && 0.0 <= overlap < 1.0
    ensures var r := ClipRect(width, height, rows, cols, overlap, row, col);
            0.0 <= r.x0 <= r.x1 <= width && 0.0 <= r.y0 <= r.y1 <= height
            && (col == 0 ==> r.x0 == 0.0) && (col == cols - 1 ==> r.x1 == width)
            && (row == 0 ==> r.y0 == 0.0) && (row == rows - 1 ==> r.y1 == height)
  {
    IntervalBounds(width, cols, overlap, col);
    IntervalBounds(height, rows, overlap, row);
  }

  /** The tile id of grid cell (row, col) on a 1-based page. */
  function TileId(page: nat, row: nat, col: nat): string {
    "p" + NatToString(page) + "_r" + NatToString(row) + "_c" + NatToString(col)
  }

  /** What `tile_page` records for one tile (image and text-layer files are
      not part of this model). */
  datatype TileInfo = TileInfo(tileId: string, pageNumber: nat, row: nat, col: nat, clip: Rect)

  function TileInfoOf(pageNumber: nat, c: Clip): TileInfo {
    TileInfo(TileId(pageNumber, c.row, c.col), pageNumber, c.row, c.col, c.rect)
  }

  /** `tile_page` without the rendering: the argument checks, then one tile
      per clip of the page with index `pageIndex`. */
  method TilePage(pageIndex: nat, width: real, height: real, rows: int, cols: int, overlap: real)
    returns (r: Result<seq<TileInfo>>)
    ensures r.Err? <==> rows <= 0 || cols <= 0 || !(0.0 <= overlap < 1.0)
    ensures r.Ok? ==>
              var clips := Grid(width, height, rows, cols, overlap, rows);
              |r.value| == |clips|
              && forall k :: 0 <= k < |clips| ==> r.value[k] == TileInfoOf(pageIndex + 1, clips[k])
  {
    if rows <= 0 || cols <= 0 {
      return Err("grid_rows and grid_cols must be positive.");
    }
    if !(0.0 <= overlap < 1.0) {
      return Err("overlap_pct must be in [0.0, 1.0).");
    }
    var pageNumber := pageIndex + 1;
    var clips := ComputeTileClips(width, height, rows, cols, overlap);
    var infos: seq<TileInfo> := [];
    var i := 0;
    while i < |clips|
      invariant 0 <= i <= |clips|
      invariant |infos| == i && forall k :: 0 <= k < i ==> infos[k] == TileInfoOf(pageNumber, clips[k])
    {
      var clip := clips[i];
      var tileId := TileId(pageNumber, clip.row, clip.col);
      infos := infos + [TileInfo(tileId, pageNumber, clip.row, clip.col, clip.rect)];
      i := i + 1;
    }
    return Ok(infos);
  }
}
