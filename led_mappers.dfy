/** The coordinate mappers that place a logical (row, column) of a surface
  * into the row-major frame buffer so that walking the buffer emits pixels
  * in the physical chain's order. Each clamps its input into the grid and
  * maps an empty grid to (0, 0). Sizes are unbounded integers here. */
module LedMappers {
  import opened Arith

  datatype Cell = Cell(row: nat, col: nat)

  predicate InGrid(c: Cell, rows: nat, cols: nat) {
    c.row < rows && c.col < cols
  }

  /** `if (x >= n) x = n - 1`. */
  function ClampTo(x: nat, n: nat): (r: nat)
    requires n > 0
    ensures r < n && (x < n ==> r == x)
  {
    if x >= n then n - 1 else x
  }

  /** The cell of chain position `chain` in a row-major buffer. */
  function RowMajor(chain: nat, cols: nat): (c: Cell)
    requires cols > 0
    ensures c.col < cols
  {
    Cell(chain / cols, chain % cols)
  }

  /** The row-major index of a cell. */
  function Index(c: Cell, cols: nat): nat {
    Join(c.row, cols, c.col)
  }

  lemma RowMajorOfIndex(c: Cell, cols: nat)
    requires c.col < cols
    ensures RowMajor(Index(c, cols), cols) == c
  {
    JoinSplit(c.row, cols, c.col);
  }

  lemma IndexOfRowMajor(chain: nat, cols: nat)
    requires cols > 0
    ensures Index(RowMajor(chain, cols), cols) == chain
  {
    SplitJoin(chain, cols);
  }

  /** Chain positions below `rows * cols` land in the grid and back. */
  lemma RowMajorInGrid(chain: nat, rows: nat, cols: nat)
    requires cols > 0 && chain < rows * cols
    ensures InGrid(RowMajor(chain, cols), rows, cols)
  {
    DivBelow(chain, cols, rows);
  }

  lemma IndexInRange(c: Cell, rows: nat, cols: nat)
    requires InGrid(c, rows, cols)
    ensures Index(c, cols) < rows * cols
  {
    JoinBelow(c.row, cols, c.col, rows);
  }

  // ---------------------------------------------------------------- column major

  /** `ColumnMajorMapper::map`: the input's row-major index, read back in
    * column-major order, with the column clamped to the grid. */
  function ColumnMajor(rows: nat, cols: nat, r: nat, c: nat): (o: Cell)
    ensures rows == 0 || cols == 0 ==> o == Cell(0, 0)
    ensures rows > 0 && cols > 0 ==> InGrid(o, rows, cols)
  {
    if rows == 0 || cols == 0 then Cell(0, 0)
    else
      var linear := Join(ClampTo(r, rows), cols, ClampTo(c, cols));
      var col := linear / rows;
      Cell(linear % rows, if col >= cols then cols - 1 else col)
  }

  /** For an in-grid input the output's column-major index is the input's
    * row-major index: the final clamp never fires. */
  lemma ColumnMajorIndex(rows: nat, cols: nat, r: nat, c: nat)
    requires r < rows && c < cols
    ensures var o := ColumnMajor(rows, cols, r, c); Join(o.col, rows, o.row) == Join(r, cols, c)
  {
    var linear := Join(r, cols, c);
    JoinBelow(r, cols, c, rows);
    assert rows * cols == cols * rows;
    DivBelow(linear, rows, cols);
    SplitJoin(linear, rows);
  }

  /** Out-of-range inputs are clamped to the last row and column. */
  lemma ColumnMajorClamps(rows: nat, cols: nat, r: nat, c: nat)
    requires rows > 0 && cols > 0
    ensures ColumnMajor(rows, cols, r, c) == ColumnMajor(rows, cols, ClampTo(r, rows), ClampTo(c, cols))
  {
  }

  /** Distinct in-grid cells map to distinct cells. */
  lemma ColumnMajorInjective(rows: nat, cols: nat, a: Cell, b: Cell)
    requires InGrid(a, rows, cols) && InGrid(b, rows, cols)
    requires ColumnMajor(rows, cols, a.row, a.col) == ColumnMajor(rows, cols, b.row, b.col)
    ensures a == b
  {
    ColumnMajorIndex(rows, cols, a.row, a.col);
    ColumnMajorIndex(rows, cols, b.row, b.col);
    JoinSplit(a.row, cols, a.col);
    JoinSplit(b.row, cols, b.col);
  }

  /** The source of a cell: its column-major index read row-major. */
  function ColumnMajorSource(rows: nat, cols: nat, o: Cell): (i: Cell)
    requires cols > 0
  {
    RowMajor(Join(o.col, rows, o.row), cols)
  }

  /** Every cell is the image of its source, which lies in the grid: with
    * `ColumnMajorInjective`, the mapper permutes the grid. */
  lemma ColumnMajorOnto(rows: nat, cols: nat, o: Cell)
    requires InGrid(o, rows, cols)
    ensures var i := ColumnMajorSource(rows, cols, o);
      InGrid(i, rows, cols) && ColumnMajor(rows, cols, i.row, i.col) == o
  {
    var x := Join(o.col, rows, o.row);
    JoinBelow(o.col, rows, o.row, cols);
    assert cols * rows == rows * cols;
    RowMajorInGrid(x, rows, cols);
    var i := RowMajor(x, cols);
    SplitJoin(x, cols);
    ColumnMajorIndex(rows, cols, i.row, i.col);
    var p := ColumnMajor(rows, cols, i.row, i.col);
    JoinSplit(p.col, rows, p.row);
    JoinSplit(o.col, rows, o.row);
  }

  // ---------------------------------------------------------------- flip-dot grid

  /** The position inside an 8x8 box: columns right to left, and bottom to
    * top within a column. */
  function BoxSlot(r: nat, c: nat): (s: nat)
    ensures s < 64
  {
    JoinBelow(7 - c % 8, 8, 7 - r % 8, 8);
    Join(7 - c % 8, 8, 7 - r % 8)
  }

  /** The chain position of a cell: boxes row-major, 64 positions each. */
  function FlipdotChain(cols: nat, r: nat, c: nat): nat {
    Join(Join(r / 8, cols / 8, c / 8), 64, BoxSlot(r, c))
  }

  /** `FlipdotGridMapper::map`. */
  function FlipdotGrid(rows: nat, cols: nat, r: nat, c: nat): (o: Cell)
    ensures rows == 0 || cols == 0 ==> o == Cell(0, 0)
    ensures rows > 0 && cols > 0 ==> o.col < cols
  {
    if rows == 0 || cols == 0 then Cell(0, 0)
    else RowMajor(FlipdotChain(cols, ClampTo(r, rows), ClampTo(c, cols)), cols)
  }

  /** The panel shape the mapper is written for: whole 8x8 boxes. */
  predicate WholeBoxes(rows: nat, cols: nat) {
    rows > 0 && cols > 0 && rows % 8 == 0 && cols % 8 == 0
  }

  lemma BoxArea(rows: nat, cols: nat)
    requires WholeBoxes(rows, cols)
    ensures rows * cols == ((rows / 8) * (cols / 8)) * 64
    ensures rows == (rows / 8) * 8 && cols == (cols / 8) * 8
  {
    var br, bc := rows / 8, cols / 8;
    assert rows * cols == (br * 8) * (bc * 8);
  }

  /** The cell at chain position `chain` of a panel `cols` wide. */
  function FlipdotDecode(cols: nat, chain: nat): (i: Cell)
    requires cols >= 8
  {
    var box := chain / 64;
    var s := chain % 64;
    DivBelow(s, 8, 8);
    Cell(Join(box / (cols / 8), 8, 7 - s % 8), Join(box % (cols / 8), 8, 7 - s / 8))
  }

  /** Decoding a cell's chain position gives the cell, and the position lies
    * within the panel. */
  lemma FlipdotDecodeChain(rows: nat, cols: nat, r: nat, c: nat)
    requires WholeBoxes(rows, cols) && r < rows && c < cols
    ensures FlipdotChain(cols, r, c) < rows * cols
    ensures FlipdotDecode(cols, FlipdotChain(cols, r, c)) == Cell(r, c)
  {
    BoxArea(rows, cols);
    var br, bc := rows / 8, cols / 8;
    var box := Join(r / 8, bc, c / 8);
    var s := BoxSlot(r, c);
    DivBelow(c, 8, bc);
    DivBelow(r, 8, br);
    JoinSplit(box, 64, s);
    JoinSplit(r / 8, bc, c / 8);
    JoinSplit(7 - c % 8, 8, 7 - r % 8);
    SplitJoin(r, 8);
    SplitJoin(c, 8);
    JoinBelow(r / 8, bc, c / 8, br);
    JoinBelow(box, 64, s, br * bc);
  }

  /** The cell at box (br, bc) and slot `s` lies in that box at that slot. */
  lemma BoxSlotOf(br: nat, bc: nat, s: nat)
    requires s < 64
    ensures Join(br, 8, 7 - s % 8) / 8 == br && Join(bc, 8, 7 - s / 8) / 8 == bc
    ensures BoxSlot(Join(br, 8, 7 - s % 8), Join(bc, 8, 7 - s / 8)) == s
  {
    DivBelow(s, 8, 8);
    JoinSplit(br, 8, 7 - s % 8);
    JoinSplit(bc, 8, 7 - s / 8);
    SplitJoin(s, 8);
  }

  /** Every position of the panel decodes to an in-panel cell whose chain
    * position it is. */
  lemma FlipdotChainDecode(rows: nat, cols: nat, chain: nat)
    requires WholeBoxes(rows, cols) && chain < rows * cols
    ensures InGrid(FlipdotDecode(cols, chain), rows, cols)
    ensures var i := FlipdotDecode(cols, chain); FlipdotChain(cols, i.row, i.col) == chain
  {
    BoxArea(rows, cols);
    var br, bc := rows / 8, cols / 8;
    var box := chain / 64;
    var s := chain % 64;
    DivBelow(chain, 64, br * bc);
    DivBelow(box, bc, br);
    DivBelow(s, 8, 8);
    var i := FlipdotDecode(cols, chain);
    assert i == Cell(Join(box / bc, 8, 7 - s % 8), Join(box % bc, 8, 7 - s / 8));
    JoinBelow(box / bc, 8, 7 - s % 8, br);
    JoinBelow(box % bc, 8, 7 - s / 8, bc);
    BoxSlotOf(box / bc, box % bc, s);
    SplitJoin(box, bc);
    SplitJoin(chain, 64);
    assert FlipdotChain(cols, i.row, i.col) == Join(Join(box / bc, bc, box % bc), 64, s);
  }

  /** The cell whose chain position is the row-major index of `o`. */
  function FlipdotSource(cols: nat, o: Cell): Cell
    requires cols >= 8
  {
    FlipdotDecode(cols, Index(o, cols))
  }

  /** On a whole-box panel the mapper permutes the grid: images stay in the
    * grid, the source of an image is the input, and every cell is the image
    * of its in-grid source. */
  lemma FlipdotBijective(rows: nat, cols: nat, r: nat, c: nat, o: Cell)
    requires WholeBoxes(rows, cols) && r < rows && c < cols && InGrid(o, rows, cols)
    ensures InGrid(FlipdotGrid(rows, cols, r, c), rows, cols)
    ensures FlipdotSource(cols, FlipdotGrid(rows, cols, r, c)) == Cell(r, c)
    ensures var i := FlipdotSource(cols, o);
      InGrid(i, rows, cols) && FlipdotGrid(rows, cols, i.row, i.col) == o
  {
    var chain := FlipdotChain(cols, r, c);
    FlipdotDecodeChain(rows, cols, r, c);
    RowMajorInGrid(chain, rows, cols);
    IndexOfRowMajor(chain, cols);
    IndexInRange(o, rows, cols);
    FlipdotChainDecode(rows, cols, Index(o, cols));
    RowMajorOfIndex(o, cols);
  }

  /** Distinct in-grid cells of a whole-box panel map to distinct cells. */
  lemma FlipdotInjective(rows: nat, cols: nat, a: Cell, b: Cell)
    requires WholeBoxes(rows, cols) && InGrid(a, rows, cols) && InGrid(b, rows, cols)
    requires FlipdotGrid(rows, cols, a.row, a.col) == FlipdotGrid(rows, cols, b.row, b.col)
    ensures a == b
  {
    FlipdotBijective(rows, cols, a.row, a.col, a);
    FlipdotBijective(rows, cols, b.row, b.col, b);
  }

  /** Outside that shape the image can leave the grid: a single row of
    * eight dots sends its first dot to row 7. */
  lemma FlipdotPartialBox()
    ensures FlipdotGrid(1, 8, 0, 0) == Cell(7, 7)
  {
  }

  // ---------------------------------------------------------------- serpentine

  /** The segment height the mapper uses: 0 means the full height, and no
    * segment is taller than the grid. */
  function SegmentRows(rows: nat, segmentRows: nat): (h: nat)
    ensures rows > 0 ==> 1 <= h <= rows
    ensures segmentRows == 0 ==> h == rows
    ensures 0 < segmentRows <= rows ==> h == segmentRows
  {
    var field := if segmentRows == 0 then rows else segmentRows;
    var h := if field == 0 then rows else field;
    if h > rows then rows else h
  }

  /** The column within the segment row: even segment rows run left to
    * right, odd ones right to left. */
  function EffectiveCol(cols: nat, segRow: nat, c: nat): (e: nat)
    requires c < cols
    ensures e < cols
  {
    if segRow % 2 == 0 then c else cols - 1 - c
  }

  lemma EffectiveColTwice(cols: nat, segRow: nat, c: nat)
    requires c < cols
    ensures EffectiveCol(cols, segRow, EffectiveCol(cols, segRow, c)) == c
  {
  }

  /** The position within one column of a segment: top-down when the
    * column's parity matches the segment row's, bottom-up otherwise. */
  function SegmentSlot(h: nat, segRow: nat, colEff: nat, rowIn: nat): (s: nat)
    requires rowIn < h
    ensures s < h
  {
    if colEff % 2 == segRow % 2 then rowIn else h - 1 - rowIn
  }

  lemma SegmentSlotTwice(h: nat, segRow: nat, colEff: nat, rowIn: nat)
    requires rowIn < h
    ensures SegmentSlot(h, segRow, colEff, SegmentSlot(h, segRow, colEff, rowIn)) == rowIn
  {
  }

  /** The chain position of an in-grid cell: segments row-major, each
    * column of a segment in turn. */
  function SerpentineChain(cols: nat, h: nat, r: nat, c: nat): nat
    requires h > 0 && c < cols
  {
    var segRow := r / h;
    var colEff := EffectiveCol(cols, segRow, c);
    Join(Join(segRow, cols, colEff), h, SegmentSlot(h, segRow, colEff, r % h))
  }

  /** `SerpentineColumnMapper::map`. */
  function Serpentine(rows: nat, cols: nat, segmentRows: nat, r: nat, c: nat): (o: Cell)
    ensures rows == 0 || cols == 0 ==> o == Cell(0, 0)
    ensures rows > 0 && cols > 0 ==> o.col < cols
  {
    if rows == 0 || cols == 0 then Cell(0, 0)
    else RowMajor(SerpentineChain(cols, SegmentRows(rows, segmentRows), ClampTo(r, rows), ClampTo(c, cols)), cols)
  }

  /** Within one row, even segment rows advance along the chain from left to
    * right and odd ones from right to left. */
  lemma SerpentineDirection(cols: nat, h: nat, r: nat, c1: nat, c2: nat)
    requires h > 0 && c1 < c2 < cols
    ensures (r / h) % 2 == 0 ==> SerpentineChain(cols, h, r, c1) < SerpentineChain(cols, h, r, c2)
    ensures (r / h) % 2 == 1 ==> SerpentineChain(cols, h, r, c1) > SerpentineChain(cols, h, r, c2)
  {
    var segRow := r / h;
    var e1 := EffectiveCol(cols, segRow, c1);
    var e2 := EffectiveCol(cols, segRow, c2);
    var s1 := SegmentSlot(h, segRow, e1, r % h);
    var s2 := SegmentSlot(h, segRow, e2, r % h);
    JoinValue(segRow, cols, e1);
    JoinValue(segRow, cols, e2);
    if segRow % 2 == 0 {
      JoinLess(Join(segRow, cols, e1), Join(segRow, cols, e2), h, s1, s2);
    } else {
      JoinLess(Join(segRow, cols, e2), Join(segRow, cols, e1), h, s2, s1);
    }
  }

  lemma SegmentArea(rows: nat, cols: nat, h: nat)
    requires 0 < h && rows % h == 0
    ensures rows == (rows / h) * h
    ensures rows * cols == ((rows / h) * cols) * h
  {
    var k := rows / h;
    assert rows * cols == (k * h) * cols;
  }

  /** The cell at chain position `chain`, undoing each step of the chain
    * order (both steps are involutions). */
  function SerpentineDecode(cols: nat, h: nat, chain: nat): Cell
    requires h > 0 && cols > 0
  {
    var t := chain / h;
    var segRow := t / cols;
    var colEff := t % cols;
    Cell(Join(segRow, h, SegmentSlot(h, segRow, colEff, chain % h)), EffectiveCol(cols, segRow, colEff))
  }

  /** Decoding a cell's chain position gives the cell, and the position lies
    * within the grid when the segments tile the height. */
  lemma SerpentineDecodeChain(rows: nat, cols: nat, h: nat, r: nat, c: nat)
    requires 0 < h && rows % h == 0 && r < rows && c < cols
    ensures SerpentineChain(cols, h, r, c) < rows * cols
    ensures SerpentineDecode(cols, h, SerpentineChain(cols, h, r, c)) == Cell(r, c)
  {
    var segRow := r / h;
    var colEff := EffectiveCol(cols, segRow, c);
    var slot := SegmentSlot(h, segRow, colEff, r % h);
    var t := Join(segRow, cols, colEff);
    JoinSplit(t, h, slot);
    JoinSplit(segRow, cols, colEff);
    EffectiveColTwice(cols, segRow, c);
    SegmentSlotTwice(h, segRow, colEff, r % h);
    SplitJoin(r, h);
    SegmentArea(rows, cols, h);
    DivBelow(r, h, rows / h);
    JoinBelow(segRow, cols, colEff, rows / h);
    JoinBelow(t, h, slot, (rows / h) * cols);
  }

  /** Every position of the grid decodes to an in-grid cell whose chain
    * position it is. */
  lemma SerpentineChainDecode(rows: nat, cols: nat, h: nat, chain: nat)
    requires 0 < h && rows % h == 0 && cols > 0 && chain < rows * cols
    ensures InGrid(SerpentineDecode(cols, h, chain), rows, cols)
    ensures var i := SerpentineDecode(cols, h, chain); SerpentineChain(cols, h, i.row, i.col) == chain
  {
    SegmentArea(rows, cols, h);
    var t := chain / h;
    var segRow := t / cols;
    var colEff := t % cols;
    var rowIn := SegmentSlot(h, segRow, colEff, chain % h);
    DivBelow(chain, h, (rows / h) * cols);
    DivBelow(t, cols, rows / h);
    JoinSplit(segRow, h, rowIn);
    JoinBelow(segRow, h, rowIn, rows / h);
    EffectiveColTwice(cols, segRow, colEff);
    SegmentSlotTwice(h, segRow, colEff, chain % h);
    SplitJoin(t, cols);
    SplitJoin(chain, h);
  }

  /** The cell whose chain position is the row-major index of `o`. */
  function SerpentineSource(cols: nat, h: nat, o: Cell): Cell
    requires h > 0 && cols > 0
  {
    SerpentineDecode(cols, h, Index(o, cols))
  }

  /** When the segments tile the height the mapper permutes the grid:
    * images stay in the grid, the source of an image is the input, and
    * every cell is the image of its in-grid source. */
  lemma SerpentineBijective(rows: nat, cols: nat, segmentRows: nat, r: nat, c: nat, o: Cell)
    requires r < rows && c < cols && InGrid(o, rows, cols)
    requires rows % SegmentRows(rows, segmentRows) == 0
    ensures InGrid(Serpentine(rows, cols, segmentRows, r, c), rows, cols)
    ensures SerpentineSource(cols, SegmentRows(rows, segmentRows), Serpentine(rows, cols, segmentRows, r, c)) == Cell(r, c)
    ensures var i := SerpentineSource(cols, SegmentRows(rows, segmentRows), o);
      InGrid(i, rows, cols) && Serpentine(rows, cols, segmentRows, i.row, i.col) == o
  {
    var h := SegmentRows(rows, segmentRows);
    var chain := SerpentineChain(cols, h, r, c);
    SerpentineDecodeChain(rows, cols, h, r, c);
    RowMajorInGrid(chain, rows, cols);
    IndexOfRowMajor(chain, cols);
    IndexInRange(o, rows, cols);
    SerpentineChainDecode(rows, cols, h, Index(o, cols));
    RowMajorOfIndex(o, cols);
  }

  /** When the segments do not tile the height the image can leave the grid:
    * three rows in segments of two send the cell (2, 0) to row 3. */
  lemma SerpentinePartialSegment()
    ensures Serpentine(3, 1, 2, 2, 0) == Cell(3, 0)
  {
  }

  /** Distinct in-grid cells map to distinct cells when the segments tile
    * the height. */
  lemma SerpentineInjective(rows: nat, cols: nat, segmentRows: nat, a: Cell, b: Cell)
    requires InGrid(a, rows, cols) && InGrid(b, rows, cols)
    requires rows % SegmentRows(rows, segmentRows) == 0
    requires Serpentine(rows, cols, segmentRows, a.row, a.col) == Serpentine(rows, cols, segmentRows, b.row, b.col)
    ensures a == b
  {
    SerpentineBijective(rows, cols, segmentRows, a.row, a.col, a);
    SerpentineBijective(rows, cols, segmentRows, b.row, b.col, b);
  }
}
