/**
 The grid layout of terminal panes: which rectangle each pane gets, and that the rectangles tile
 the region.
 */
module PaneGrid {
  datatype Rect = Rect(x: int, y: int, width: int, height: int)

  predicate Contains(r: Rect, px: int, py: int) {
    r.x <= px < r.x + r.width && r.y <= py < r.y + r.height
  }

  predicate Within(r: Rect, region: Rect) {
    && r.width >= 0 && r.height >= 0
    && region.x <= r.x && r.x + r.width <= region.x + region.width
    && region.y <= r.y && r.y + r.height <= region.y + region.height
  }

  /** `Math.ceil(Math.sqrt(n))`: the least number whose square reaches `n`. */
  function CeilSqrt(n: nat): (c: nat)
    requires n >= 1
    ensures c >= 1 && c * c >= n && (c - 1) * (c - 1) < n
  {
    SqrtFrom(n, 1)
  }

  function SqrtFrom(n: nat, c: nat): (r: nat)
    requires n >= 1 && c >= 1 && (c - 1) * (c - 1) < n
    ensures r >= c && r * r >= n && (r - 1) * (r - 1) < n
    decreases n - (c - 1) * (c - 1)
  {
    if c * c >= n then c
    else
      assert c * c > (c - 1) * (c - 1);
      SqrtFrom(n, c + 1)
  }

  function Columns(count: nat): (cols: nat)
    requires count >= 1
    ensures cols >= 1
  {
    CeilSqrt(count)
  }

  /** `Math.ceil(count / cols)`. */
  function Rows(count: nat): (rows: nat)
    requires count >= 1
    ensures rows >= 1
  {
    (count + Columns(count) - 1) / Columns(count)
  }

  // ---------------------------------------------------------------- products and quotients

  lemma ProductMonotone(a: nat, b: nat, c: nat)
    requires a <= b
    ensures a * c <= b * c
  {
  }

  /** The quotient is the one number whose multiple is at most `n` and within `d` of it. */
  lemma QuotientIff(n: nat, d: nat, q: nat)
    requires d > 0
    ensures q == n / d <==> q * d <= n < q * d + d
  {
    var exact := n / d;
    assert exact * d <= n < exact * d + d;
    if q < exact {
      ProductMonotone(q + 1, exact, d);
    } else if q > exact {
      ProductMonotone(exact + 1, q, d);
    }
  }

  lemma QuotientBelow(n: nat, d: nat, q: nat)
    requires d > 0 && n < q * d
    ensures n / d < q
  {
    QuotientIff(n, d, n / d);
    if n / d >= q {
      ProductMonotone(q, n / d, d);
    }
  }

  lemma DigitsUnique(base: nat, a: nat, b: nat, c: nat, d: nat)
    requires b < base && d < base
    ensures a * base + b == c * base + d <==> a == c && b == d
  {
    if a < c {
      ProductMonotone(a + 1, c, base);
    } else if c < a {
      ProductMonotone(c + 1, a, base);
    }
  }

  /** Rounding the quotient up gives the least number of rows that holds them all. */
  lemma RowsHold(count: nat, cols: nat, rows: nat)
    requires cols >= 1 && rows == (count + cols - 1) / cols && count >= 1
    ensures rows >= 1 && (rows - 1) * cols < count <= rows * cols
  {
    QuotientIff(count + cols - 1, cols, rows);
    assert (rows - 1) * cols == rows * cols - cols;
  }

  lemma NearlySquare(count: nat, cols: nat, rows: nat)
    requires cols >= 1 && rows >= 1 && (rows - 1) * cols < count <= rows * cols
    requires (cols - 1) * (cols - 1) < count <= cols * cols
    ensures rows == cols || rows == cols - 1
  {
    assert cols >= 2 ==> (cols - 1) * (cols - 1) == (cols - 2) * cols + 1;
    if rows > cols {
      ProductMonotone(cols, rows - 1, cols);
    } else if rows < cols - 1 {
      ProductMonotone(rows, cols - 2, cols);
    }
  }

  /** The last row is the only one that may be short, and the grid is square or one row short of it. */
  lemma GridShape(count: nat)
    requires count >= 1
    ensures var cols, rows := Columns(count), Rows(count);
            && (rows - 1) * cols < count <= rows * cols
            && (rows == cols || rows == cols - 1)
  {
    var cols, rows := Columns(count), Rows(count);
    RowsHold(count, cols, rows);
    NearlySquare(count, cols, rows);
  }

  lemma RowInRange(count: nat, i: nat)
    requires count >= 1 && i < count
    ensures i / Columns(count) < Rows(count)
  {
    hide Columns, Rows;
    GridShape(count);
    QuotientBelow(i, Columns(count), Rows(count));
  }

  // ---------------------------------------------------------------- one dimension

  // Division rounds down, also for the negative sides of a terminal that is too small.

  /** Where band `c` of `n` bands starts in a line of length `w`, and how long it is; the last takes the rest. */
  function Start(w: int, n: nat, c: nat): int
    requires n > 0
  {
    c * (w / n)
  }

  function Length(w: int, n: nat, c: nat): int
    requires n > 0
  {
    if c == n - 1 then w - c * (w / n) else w / n
  }

  predicate InBand(w: int, n: nat, c: nat, p: int)
    requires n > 0
  {
    Start(w, n, c) <= p < Start(w, n, c) + Length(w, n, c)
  }

  /** The band a position falls into. */
  function Band(w: nat, n: nat, p: nat): (c: nat)
    requires n > 0
    ensures c < n
  {
    if w / n == 0 || p / (w / n) >= n then n - 1 else p / (w / n)
  }

  lemma BandsFit(w: nat, n: nat, c: nat)
    requires c < n
    ensures Length(w, n, c) >= 0 && Start(w, n, c) + Length(w, n, c) <= w
  {
    var cell := w / n;
    QuotientIff(w, n, cell);
    assert cell * n == n * cell;
    ProductMonotone(c + 1, n, cell);
  }

  /** A position lies in exactly one band, the one that `Band` names. */
  lemma InOneBand(w: nat, n: nat, p: nat, c: nat)
    requires c < n && p < w
    ensures InBand(w, n, c, p) <==> c == Band(w, n, p)
  {
    var cell := w / n;
    if cell == 0 {
      assert c * cell == 0;
    } else {
      InOneCell(w, n, p, c, cell);
    }
  }

  lemma InOneCell(w: nat, n: nat, p: nat, c: nat, cell: nat)
    requires c < n && p < w && cell == w / n && cell > 0
    ensures InBand(w, n, c, p) <==> c == Band(w, n, p)
  {
    var q := p / cell;
    QuotientIff(p, cell, q);
    QuotientIff(p, cell, c);
    if q >= n - 1 {
      ProductMonotone(n - 1, q, cell);
    } else {
      ProductMonotone(q + 1, n - 1, cell);
    }
  }

  // ---------------------------------------------------------------- the grid of four or more

  /** Cell `i` of a grid, counting row by row. */
  function CellRect(region: Rect, cols: nat, rows: nat, i: nat): Rect
    requires cols >= 1 && rows >= 1
  {
    var col, row := i % cols, i / cols;
    Rect(region.x + Start(region.width, cols, col), region.y + Start(region.height, rows, row),
         Length(region.width, cols, col), Length(region.height, rows, row))
  }

  /** The cell a point of the region falls into. */
  function CellAt(region: Rect, cols: nat, rows: nat, px: int, py: int): nat
    requires cols >= 1 && rows >= 1 && Contains(region, px, py)
  {
    Band(region.height, rows, py - region.y) * cols + Band(region.width, cols, px - region.x)
  }

  lemma CellWithin(region: Rect, cols: nat, rows: nat, i: nat)
    requires cols >= 1 && rows >= 1 && region.width >= 0 && region.height >= 0 && i / cols < rows
    ensures Within(CellRect(region, cols, rows, i), region)
  {
    hide Start, Length;
    BandsFit(region.width, cols, i % cols);
    BandsFit(region.height, rows, i / cols);
    StartInside(region.width, cols, i % cols);
    StartInside(region.height, rows, i / cols);
  }

  lemma StartInside(w: nat, n: nat, c: nat)
    requires n > 0
    ensures Start(w, n, c) >= 0
  {
  }

  /** A point is in cell `i` if and only if it is in the region and `i` is the point's cell. */
  lemma InCellIff(region: Rect, cols: nat, rows: nat, i: nat, px: int, py: int)
    requires cols >= 1 && rows >= 1 && region.width >= 0 && region.height >= 0 && i / cols < rows
    ensures Contains(CellRect(region, cols, rows, i), px, py)
       <==> Contains(region, px, py) && CellAt(region, cols, rows, px, py) == i
  {
    hide Start, Length, Band;
    CellWithin(region, cols, rows, i);
    if Contains(region, px, py) {
      var col, row := i % cols, i / cols;
      InOneBand(region.width, cols, px - region.x, col);
      InOneBand(region.height, rows, py - region.y, row);
      DigitsUnique(cols, row, col, Band(region.height, rows, py - region.y), Band(region.width, cols, px - region.x));
      assert i == row * cols + col;
    }
  }

  // ---------------------------------------------------------------- the layout

  /** The rectangles of `count` panes: full, side by side, one and two stacked, or a grid. */
  function Layout(region: Rect, count: nat): (rects: seq<Rect>)
    ensures |rects| == count
  {
    var w, h := region.width, region.height;
    match count
    case 0 => []
    case 1 => [region]
    case 2 => [Rect(region.x, region.y, w / 2, h), Rect(region.x + w / 2, region.y, w - w / 2, h)]
    case 3 =>
      [Rect(region.x, region.y, w / 2, h),
       Rect(region.x + w / 2, region.y, w - w / 2, h / 2),
       Rect(region.x + w / 2, region.y + h / 2, w - w / 2, h - h / 2)]
    case _ => seq(count, i requires 0 <= i < count => CellRect(region, Columns(count), Rows(count), i))
  }

  /** Every rectangle lies inside the region. */
  lemma LayoutWithin(region: Rect, count: nat, i: nat)
    requires region.width >= 0 && region.height >= 0 && i < count
    ensures Within(Layout(region, count)[i], region)
  {
    if count >= 4 {
      hide CellRect, Columns, Rows;
      RowInRange(count, i);
      CellWithin(region, Columns(count), Rows(count), i);
    }
  }

  /** No point is in two rectangles. */
  lemma LayoutDisjoint(region: Rect, count: nat, i: nat, j: nat, px: int, py: int)
    requires region.width >= 0 && region.height >= 0 && i < count && j < count
    requires Contains(Layout(region, count)[i], px, py) && Contains(Layout(region, count)[j], px, py)
    ensures i == j
  {
    if count >= 4 {
      hide CellRect, Columns, Rows, CellAt;
      RowInRange(count, i);
      RowInRange(count, j);
      InCellIff(region, Columns(count), Rows(count), i, px, py);
      InCellIff(region, Columns(count), Rows(count), j, px, py);
    }
  }

  /** The unused cells of the grid: those after the last pane, at the end of the last row. */
  predicate InUnusedCell(region: Rect, count: nat, px: int, py: int)
    requires count >= 1 && Contains(region, px, py)
  {
    count >= 4 && CellAt(region, Columns(count), Rows(count), px, py) >= count
  }

  lemma GridCovers(region: Rect, count: nat, px: int, py: int)
    requires region.width >= 0 && region.height >= 0 && count >= 4 && Contains(region, px, py)
    ensures (exists i :: 0 <= i < count && Contains(Layout(region, count)[i], px, py))
       <==> !InUnusedCell(region, count, px, py)
  {
    hide CellRect, Columns, Rows, CellAt, Contains;
    var cell := CellAt(region, Columns(count), Rows(count), px, py);
    forall i | 0 <= i < count
      ensures Contains(Layout(region, count)[i], px, py) <==> cell == i
    {
      RowInRange(count, i);
      InCellIff(region, Columns(count), Rows(count), i, px, py);
    }
    assert cell < count ==> Contains(Layout(region, count)[cell], px, py);
  }

  /** A point of the region is in some rectangle if and only if it is not in an unused cell. */
  lemma LayoutCovers(region: Rect, count: nat, px: int, py: int)
    requires region.width >= 0 && region.height >= 0 && count >= 1 && Contains(region, px, py)
    ensures (exists i :: 0 <= i < count && Contains(Layout(region, count)[i], px, py))
       <==> !InUnusedCell(region, count, px, py)
  {
    hide CellRect, Columns, Rows, CellAt;
    if count >= 4 {
      GridCovers(region, count, px, py);
    } else if count == 1 {
      assert Contains(Layout(region, count)[0], px, py);
    } else if px < region.x + region.width / 2 {
      assert Contains(Layout(region, count)[0], px, py);
    } else if count == 2 || py < region.y + region.height / 2 {
      assert Contains(Layout(region, count)[1], px, py);
    } else {
      assert Contains(Layout(region, count)[2], px, py);
    }
  }

  /** Unused cells are in the last row only, and there are fewer of them than columns. */
  lemma UnusedCellsAreLast(region: Rect, count: nat, px: int, py: int)
    requires region.width >= 0 && region.height >= 0 && count >= 4 && Contains(region, px, py)
    requires InUnusedCell(region, count, px, py)
    ensures Rows(count) * Columns(count) - count < Columns(count)
    ensures Band(region.height, Rows(count), py - region.y) == Rows(count) - 1
    ensures count - (Rows(count) - 1) * Columns(count)
         <= Band(region.width, Columns(count), px - region.x) < Columns(count)
  {
    hide Columns, Rows, Band;
    GridShape(count);
    var cols, rows := Columns(count), Rows(count);
    LastRow(count, cols, rows, Band(region.height, rows, py - region.y), Band(region.width, cols, px - region.x));
  }

  /** A cell past the last pane is in the last row. */
  lemma LastRow(count: nat, cols: nat, rows: nat, row: nat, col: nat)
    requires 1 <= rows && row < rows && col < cols && row * cols + col >= count && (rows - 1) * cols < count
    ensures row == rows - 1 && rows * cols - count < cols && count - (rows - 1) * cols <= col
  {
    assert (rows - 1) * cols == rows * cols - cols && (row + 1) * cols == row * cols + cols;
    if row < rows - 1 {
      ProductMonotone(row + 1, rows - 1, cols);
    }
  }

  /** Panes are laid out as one reads: a later one begins right of an earlier one and no higher, or below it. */
  lemma ReadingOrder(region: Rect, count: nat, i: nat, j: nat)
    requires region.width >= 0 && region.height >= 0 && i < j < count
    ensures var r, q := Layout(region, count)[i], Layout(region, count)[j];
            (r.x + r.width <= q.x && r.y <= q.y) || r.y + r.height <= q.y
  {
    if count >= 4 {
      RowInRange(count, i);
      RowInRange(count, j);
      GridCells(region, count, i);
      GridCells(region, count, j);
      hide *;
      CellsInOrder(region, Columns(count), Rows(count), i, j);
    }
  }

  lemma CellsInOrder(region: Rect, cols: nat, rows: nat, i: nat, j: nat)
    requires cols >= 1 && rows >= 1 && region.width >= 0 && region.height >= 0
    requires i < j && i / cols < rows && j / cols < rows
    ensures var r, q := CellRect(region, cols, rows, i), CellRect(region, cols, rows, j);
            (r.x + r.width <= q.x && r.y <= q.y) || r.y + r.height <= q.y
  {
    hide Start, Length;
    RowsInOrder(i, j, cols);
    if i / cols < j / cols {
      BandsInOrder(region.height, rows, i / cols, j / cols);
    } else {
      BandsInOrder(region.width, cols, i % cols, j % cols);
    }
  }

  lemma RowsInOrder(i: nat, j: nat, cols: nat)
    requires cols >= 1 && i < j
    ensures i / cols < j / cols || (i / cols == j / cols && i % cols < j % cols)
  {
    QuotientIff(i, cols, i / cols);
    QuotientIff(j, cols, j / cols);
    if j / cols < i / cols {
      ProductMonotone(j / cols + 1, i / cols, cols);
    }
  }

  lemma GridCells(region: Rect, count: nat, i: nat)
    requires count >= 4 && i < count
    ensures Layout(region, count)[i] == CellRect(region, Columns(count), Rows(count), i)
  {
  }

  lemma BandsInOrder(w: nat, n: nat, c: nat, d: nat)
    requires c < d < n
    ensures Start(w, n, c) + Length(w, n, c) <= Start(w, n, d)
  {
    ProductMonotone(c + 1, d, w / n);
  }

  /** Widths differ by less than the number of columns, heights by less than the rows; one of three is full height. */
  lemma EvenSizes(region: Rect, count: nat, i: nat, j: nat)
    requires i < count && j < count
    ensures var r, q := Layout(region, count)[i], Layout(region, count)[j];
            && r.width - q.width < Columns(count)
            && (!(count == 3 && (i == 0 || j == 0)) ==> r.height - q.height < Rows(count))
  {
    if count >= 4 {
      GridCells(region, count, i);
      GridCells(region, count, j);
      GridShape(count);
      hide *;
      CellsEven(region, Columns(count), Rows(count), i, j);
    } else if count >= 2 {
      FewColumns(count);
    }
  }

  lemma FewColumns(count: nat)
    requires 2 <= count <= 3
    ensures Columns(count) == 2 && Rows(count) >= 1 && (count == 3 ==> Rows(count) == 2)
  {
  }

  lemma CellsEven(region: Rect, cols: nat, rows: nat, i: nat, j: nat)
    requires cols >= 1 && rows >= 1
    ensures var r, q := CellRect(region, cols, rows, i), CellRect(region, cols, rows, j);
            r.width - q.width < cols && r.height - q.height < rows
  {
    hide Start, Length;
    BandsEven(region.width, cols, i % cols, j % cols);
    BandsEven(region.height, rows, i / cols, j / cols);
  }

  lemma BandsEven(w: int, n: nat, c: nat, d: nat)
    requires n > 0
    ensures Length(w, n, c) - Length(w, n, d) < n
  {
    assert w == n * (w / n) + w % n;
    assert (n - 1) * (w / n) == n * (w / n) - w / n;
  }

  // ---------------------------------------------------------------- the loop

  method CalculateGrid(region: Rect, count: nat) returns (rects: seq<Rect>)
    ensures rects == Layout(region, count)
  {
    var x, y, w, h := region.x, region.y, region.width, region.height;
    if count == 0 {
      return [];
    }
    if count == 1 {
      return [Rect(x, y, w, h)];
    }
    if count == 2 {
      var half := w / 2;
      return [Rect(x, y, half, h), Rect(x + half, y, w - half, h)];
    }
    if count == 3 {
      var leftW := w / 2;
      var rightW := w - leftW;
      var halfH := h / 2;
      return [Rect(x, y, leftW, h), Rect(x + leftW, y, rightW, halfH), Rect(x + leftW, y + halfH, rightW, h - halfH)];
    }
    var cols := CeilSqrt(count);
    var rows := (count + cols - 1) / cols;
    RowsHold(count, cols, rows);
    var cellW, cellH := w / cols, h / rows;
    rects := [];
    for i := 0 to count
      invariant rects == Layout(region, count)[..i]
    {
      var col, row := i % cols, i / cols;
      rects := rects + [Rect(x + col * cellW, y + row * cellH,
                             if col == cols - 1 then w - col * cellW else cellW,
                             if row == rows - 1 then h - row * cellH else cellH)];
    }
  }
}
