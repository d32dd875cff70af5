/** `gen_lines`: the signal lines run along every even width offset under
    and between the note rows, through the depth the notes reach, each
    cell a line block with redstone dust on top of it. The writes are
    specified by the write list they append to the canvas's log. */
module Lines {
  import opened Wrappers
  import opened NumberTheory
  import opened Blocks
  import opened Canvas
  import opened Notes

  /** One line cell of `gen_lines` at depth offset d: the line block,
      then the dust on top of it. */
  function LineCellWrites(x: int, y: int, z: int, d: int, block: Block): (ws: seq<Write>)
    ensures |ws| == 2
  {
    [Write(x + d, y, z, block), Write(x + d, y + 1, z, DustBlock)]
  }

  /** One line of `gen_lines`: the innermost loop over depth offsets
      0 .. length - 1. */
  function DepthWrites(x: int, y: int, z: int, length: int, block: Block): seq<Write>
    decreases if length > 0 then length else 0
  {
    if length <= 0 then []
    else DepthWrites(x, y, z, length - 1, block) + LineCellWrites(x, y, z, length - 1, block)
  }

  /** The lines of one column: the middle loop over rows 0 .. rows - 1, row
      r at height y + 2 * r. */
  function ColumnWrites(x: int, y: int, z: int, rows: int, length: int, block: Block): seq<Write>
    decreases if rows > 0 then rows else 0
  {
    if rows <= 0 then []
    else ColumnWrites(x, y, z, rows - 1, length, block) + DepthWrites(x, y + 2 * (rows - 1), z, length, block)
  }

  /** Every write of `gen_lines`, in order: the outer loop over columns
      0 .. cols - 1, column c at width z + 2 * c. */
  function LineWrites(x: int, y: int, z: int, rows: int, cols: int, length: int, block: Block): seq<Write>
    decreases if cols > 0 then cols else 0
  {
    if cols <= 0 then []
    else LineWrites(x, y, z, rows, cols - 1, length, block) + ColumnWrites(x, y, z + 2 * (cols - 1), rows, length, block)
  }

  /** What the lines leave in a cell: the line block at even height
      offsets and dust at odd ones, inside the box of depth `length`,
      height 2 * rows and width 2 * cols - 1, on even width offsets only. */
  function LineCell(x: int, y: int, z: int, rows: int, cols: int, length: int, block: Block,
                    cx: int, cy: int, cz: int): Option<Block>
  {
    if 0 <= cx - x < length && 0 <= cy - y < 2 * rows && 0 <= cz - z < 2 * cols && (cz - z) % 2 == 0 then
      Some(if (cy - y) % 2 == 0 then block else DustBlock)
    else None
  }

  lemma Parity(k: int, r: int)
    ensures k == 2 * r ==> k % 2 == 0
    ensures k == 2 * r + 1 ==> k % 2 == 1
  {
  }

  /** After the writes ws, one line leaves the line block at height y and
      dust at y + 1 along depths x .. x + length - 1 of width z, and every
      other cell as ws left it. */
  lemma {:induction false} DepthCells(ws: seq<Write>, x: int, y: int, z: int, length: int, block: Block,
                                     cx: int, cy: int, cz: int)
    ensures LastWrite(ws + DepthWrites(x, y, z, length, block), cx, cy, cz) ==
      if cz == z && 0 <= cx - x < length && (cy == y || cy == y + 1) then
        Some(if cy == y then block else DustBlock)
      else LastWrite(ws, cx, cy, cz)
    decreases if length > 0 then length else 0
  {
    if length <= 0 {
      assert ws + DepthWrites(x, y, z, length, block) == ws;
    } else {
      var vs := ws + DepthWrites(x, y, z, length - 1, block);
      DepthCells(ws, x, y, z, length - 1, block, cx, cy, cz);
      var w1 := Write(x + (length - 1), y, z, block);
      var w2 := Write(x + (length - 1), y + 1, z, DustBlock);
      assert ws + DepthWrites(x, y, z, length, block) == vs + [w1] + [w2];
      LastWriteSnoc(vs, w1, cx, cy, cz);
      LastWriteSnoc(vs + [w1], w2, cx, cy, cz);
    }
  }

  /** The line of row rows - 1 is the last one a column writes. */
  lemma ColumnStep(ws: seq<Write>, x: int, y: int, z: int, rows: int, length: int, block: Block,
                   cx: int, cy: int, cz: int)
    requires rows > 0
    ensures var yr := y + 2 * (rows - 1);
      LastWrite(ws + ColumnWrites(x, y, z, rows, length, block), cx, cy, cz) ==
      if cz == z && 0 <= cx - x < length && (cy == yr || cy == yr + 1) then
        Some(if cy == yr then block else DustBlock)
      else LastWrite(ws + ColumnWrites(x, y, z, rows - 1, length, block), cx, cy, cz)
  {
    var yr := y + 2 * (rows - 1);
    var vs := ws + ColumnWrites(x, y, z, rows - 1, length, block);
    assert ws + ColumnWrites(x, y, z, rows, length, block) == vs + DepthWrites(x, yr, z, length, block);
    DepthCells(vs, x, yr, z, length, block, cx, cy, cz);
  }

  /** One step of a cell-by-cell induction on values alone: the new part
      decides the cells it writes (there it agrees with the target), the
      earlier part the rest. */
  lemma StepCombine(last: Option<Block>, before: Option<Block>, prior: Option<Block>,
                    inStep: bool, inBefore: bool, inTarget: bool, stepBlock: Block, targetBlock: Block)
    requires last == if inStep then Some(stepBlock) else before
    requires before == if inBefore then Some(targetBlock) else prior
    requires inTarget == (inStep || inBefore)
    requires inStep ==> stepBlock == targetBlock
    ensures last == if inTarget then Some(targetBlock) else prior
  {
  }

  /** After the writes ws, the lines of one column leave the line block at
      even height offsets and dust at odd ones below 2 * rows, along depths
      x .. x + length - 1 of width z, and every other cell as ws left it. */
  lemma {:induction false} ColumnCells(ws: seq<Write>, x: int, y: int, z: int, rows: int, length: int, block: Block,
                                      cx: int, cy: int, cz: int)
    ensures LastWrite(ws + ColumnWrites(x, y, z, rows, length, block), cx, cy, cz) ==
      if cz == z && 0 <= cx - x < length && 0 <= cy - y < 2 * rows then
        Some(if (cy - y) % 2 == 0 then block else DustBlock)
      else LastWrite(ws, cx, cy, cz)
    decreases if rows > 0 then rows else 0
  {
    if rows <= 0 {
      assert ws + ColumnWrites(x, y, z, rows, length, block) == ws;
    } else {
      var yr := y + 2 * (rows - 1);
      ColumnCells(ws, x, y, z, rows - 1, length, block, cx, cy, cz);
      ColumnStep(ws, x, y, z, rows, length, block, cx, cy, cz);
      Parity(cy - y, rows - 1);
      StepCombine(LastWrite(ws + ColumnWrites(x, y, z, rows, length, block), cx, cy, cz),
                  LastWrite(ws + ColumnWrites(x, y, z, rows - 1, length, block), cx, cy, cz),
                  LastWrite(ws, cx, cy, cz),
                  cz == z && 0 <= cx - x < length && (cy == yr || cy == yr + 1),
                  cz == z && 0 <= cx - x < length && 0 <= cy - y < 2 * (rows - 1),
                  cz == z && 0 <= cx - x < length && 0 <= cy - y < 2 * rows,
                  if cy == yr then block else DustBlock,
                  if (cy - y) % 2 == 0 then block else DustBlock);
    }
  }

  /** Adding column cols - 1 adds exactly that column's cells. */
  lemma LineCellStep(x: int, y: int, z: int, rows: int, cols: int, length: int, block: Block,
                     cx: int, cy: int, cz: int)
    requires cols > 0
    ensures LineCell(x, y, z, rows, cols, length, block, cx, cy, cz) ==
      if cz == z + 2 * (cols - 1) && 0 <= cx - x < length && 0 <= cy - y < 2 * rows then
        Some(if (cy - y) % 2 == 0 then block else DustBlock)
      else LineCell(x, y, z, rows, cols - 1, length, block, cx, cy, cz)
  {
    Parity(cz - z, cols - 1);
  }

  /** One column step of LineWritesCells on the cell values alone: the
      log and LineCell both add the column's block where the column writes
      and otherwise agree because the shorter ones do. */
  lemma CellCombine(last: Option<Block>, lastBefore: Option<Block>, cell: Option<Block>, cellBefore: Option<Block>,
                    inColumn: bool, b: Block)
    requires last == if inColumn then Some(b) else lastBefore
    requires lastBefore == cellBefore
    requires cell == if inColumn then Some(b) else cellBefore
    ensures last == cell
  {
  }

  /** Column cols - 1 is the last one written: it decides its own cells. */
  lemma LineWritesStep(x: int, y: int, z: int, rows: int, cols: int, length: int, block: Block,
                       cx: int, cy: int, cz: int)
    requires cols > 0
    ensures LastWrite(LineWrites(x, y, z, rows, cols, length, block), cx, cy, cz) ==
      if cz == z + 2 * (cols - 1) && 0 <= cx - x < length && 0 <= cy - y < 2 * rows then
        Some(if (cy - y) % 2 == 0 then block else DustBlock)
      else LastWrite(LineWrites(x, y, z, rows, cols - 1, length, block), cx, cy, cz)
  {
    var zc := z + 2 * (cols - 1);
    var before := LineWrites(x, y, z, rows, cols - 1, length, block);
    assert LineWrites(x, y, z, rows, cols, length, block) == before + ColumnWrites(x, y, zc, rows, length, block);
    ColumnCells(before, x, y, zc, rows, length, block, cx, cy, cz);
  }

  /** The writes of `gen_lines` alone leave in each cell exactly the
      block LineCell gives it, and no write elsewhere. */
  lemma {:induction false} LineWritesCells(x: int, y: int, z: int, rows: int, cols: int, length: int, block: Block,
                                          cx: int, cy: int, cz: int)
    ensures LastWrite(LineWrites(x, y, z, rows, cols, length, block), cx, cy, cz) ==
      LineCell(x, y, z, rows, cols, length, block, cx, cy, cz)
    decreases if cols > 0 then cols else 0
  {
    if cols > 0 {
      LineWritesCells(x, y, z, rows, cols - 1, length, block, cx, cy, cz);
      LineWritesStep(x, y, z, rows, cols, length, block, cx, cy, cz);
      LineCellStep(x, y, z, rows, cols, length, block, cx, cy, cz);
      CellCombine(LastWrite(LineWrites(x, y, z, rows, cols, length, block), cx, cy, cz),
                  LastWrite(LineWrites(x, y, z, rows, cols - 1, length, block), cx, cy, cz),
                  LineCell(x, y, z, rows, cols, length, block, cx, cy, cz),
                  LineCell(x, y, z, rows, cols - 1, length, block, cx, cy, cz),
                  cz == z + 2 * (cols - 1) && 0 <= cx - x < length && 0 <= cy - y < 2 * rows,
                  if (cy - y) % 2 == 0 then block else DustBlock);
    } else {
      assert LineWrites(x, y, z, rows, cols, length, block) == [];
    }
  }

  /** After the writes ws, `gen_lines` leaves in each cell the block
      LineCell gives it, and every cell LineCell leaves out, in particular
      every odd width offset, as ws left it. */
  lemma LineCells(ws: seq<Write>, x: int, y: int, z: int, rows: int, cols: int, length: int,
                  block: Block, cx: int, cy: int, cz: int)
    ensures LastWrite(ws + LineWrites(x, y, z, rows, cols, length, block), cx, cy, cz) ==
      if LineCell(x, y, z, rows, cols, length, block, cx, cy, cz).Some? then
        LineCell(x, y, z, rows, cols, length, block, cx, cy, cz)
      else LastWrite(ws, cx, cy, cz)
  {
    LastWriteAppend(ws, LineWrites(x, y, z, rows, cols, length, block), cx, cy, cz);
    LineWritesCells(x, y, z, rows, cols, length, block, cx, cy, cz);
  }

  /** The log of the depth loop grows by the two writes of one line cell,
      the line block at height offset oy and the dust at oyDust. */
  lemma DepthLogged(sf: Schematic, p: seq<Write>, x: int, y: int, z: int, depth: int,
                    oy: int, oyDust: int, oz: int, block: Block, g: Grid, d: Grid)
    requires depth >= 0 && oyDust == oy + 1
    requires sf.Logged(p + DepthWrites(x, y + oy, z + oz, depth, block) +
                       [Write(x + depth, y + oy, z + oz, block)] +
                       [Write(x + depth, y + oyDust, z + oz, DustBlock)], g, d)
    ensures sf.Logged(p + DepthWrites(x, y + oy, z + oz, depth + 1, block), g, d)
  {
    assert p + DepthWrites(x, y + oy, z + oz, depth + 1, block) ==
      p + DepthWrites(x, y + oy, z + oz, depth, block) +
      [Write(x + depth, y + oy, z + oz, block)] +
      [Write(x + depth, y + oyDust, z + oz, DustBlock)];
  }

  /** The log of the row loop grows by one finished line, the one at
      height offset oy == 2 * row. */
  lemma ColumnLogged(sf: Schematic, p: seq<Write>, x: int, y: int, z: int, oz: int, row: int, oy: int, length: int,
                     depth: int, block: Block, g: Grid, d: Grid)
    requires row >= 0 && oy == row * 2 && depth == if length > 0 then length else 0
    requires sf.Logged(p + ColumnWrites(x, y, z + oz, row, length, block) + DepthWrites(x, y + oy, z + oz, depth, block), g, d)
    ensures sf.Logged(p + ColumnWrites(x, y, z + oz, row + 1, length, block), g, d)
  {
    assert DepthWrites(x, y + oy, z + oz, depth, block) == DepthWrites(x, y + 2 * row, z + oz, length, block);
    assert p + ColumnWrites(x, y, z + oz, row + 1, length, block) ==
      p + ColumnWrites(x, y, z + oz, row, length, block) + DepthWrites(x, y + 2 * row, z + oz, length, block);
  }

  /** The log of the column loop grows by one finished column, the one at
      width offset oz == 2 * col. */
  lemma LineLogged(sf: Schematic, p: seq<Write>, x: int, y: int, z: int, rows: int, col: int, oz: int, length: int,
                   block: Block, g: Grid, d: Grid)
    requires col >= 0 && oz == col * 2
    requires sf.Logged(p + LineWrites(x, y, z, rows, col, length, block) + ColumnWrites(x, y, z + oz, rows, length, block), g, d)
    ensures sf.Logged(p + LineWrites(x, y, z, rows, col + 1, length, block), g, d)
  {
    assert p + LineWrites(x, y, z, rows, col + 1, length, block) ==
      p + LineWrites(x, y, z, rows, col, length, block) + ColumnWrites(x, y, z + oz, rows, length, block);
  }

  /** The finished row loop has run rows times, none when rows <= 0. */
  lemma ColumnDone(sf: Schematic, p: seq<Write>, x: int, y: int, zc: int, row: int, rows: int, length: int,
                   block: Block, g: Grid, d: Grid)
    requires row == if rows > 0 then rows else 0
    requires sf.Logged(p + ColumnWrites(x, y, zc, row, length, block), g, d)
    ensures sf.Logged(p + ColumnWrites(x, y, zc, rows, length, block), g, d)
  {
    assert ColumnWrites(x, y, zc, row, length, block) == ColumnWrites(x, y, zc, rows, length, block);
  }

  /** The log of a loop that has not run yet is the log before it. */
  lemma EmptyLogged(sf: Schematic, p: seq<Write>, e: seq<Write>, g: Grid, d: Grid)
    requires e == [] && sf.Logged(p, g, d)
    ensures sf.Logged(p + e, g, d)
  {
    assert p + e == p;
  }

  /** The finished column loop has run cols times, none when cols <= 0. */
  lemma LinesDone(sf: Schematic, p: seq<Write>, x: int, y: int, z: int, rows: int, col: int, cols: int, length: int,
                  block: Block, g: Grid, d: Grid)
    requires col == if cols > 0 then cols else 0
    requires sf.Logged(p + LineWrites(x, y, z, rows, col, length, block), g, d)
    ensures sf.Logged(p + LineWrites(x, y, z, rows, cols, length, block), g, d)
  {
    assert LineWrites(x, y, z, rows, col, length, block) == LineWrites(x, y, z, rows, cols, length, block);
  }

  /** The body of the depth loop of `gen_lines`: the line block at
      (depth, oy, oz) and dust on top of it. */
  method PlaceLineCell(sf: Schematic, x: int, y: int, z: int, oy: int, oz: int, depth: int, block: Block,
                       ghost cw: seq<Write>, ghost g: Grid, ghost d: Grid)
    requires depth >= 0
    requires sf.Logged(cw + DepthWrites(x, y + oy, z + oz, depth, block), g, d)
    requires sf.InBounds(x + depth, y + oy, z + oz) && sf.InBounds(x + depth, y + oy + 1, z + oz)
    modifies sf.blocks, sf.data
    ensures sf.Logged(cw + DepthWrites(x, y + oy, z + oz, depth + 1, block), g, d)
  {
    ghost var dw := cw + DepthWrites(x, y + oy, z + oz, depth, block);
    sf.PlaceBlock(x, y, z, depth, oy, oz, block, dw, g, d);
    sf.PlaceBlock(x, y, z, depth, oy + 1, oz, DustBlock, dw + [Write(x + depth, y + oy, z + oz, block)], g, d);
    DepthLogged(sf, cw, x, y, z, depth, oy, oy + 1, oz, block, g, d);
  }

  /** The body of the column loop of `gen_lines`: for each row and depth
      offset, the line cell at (depth, 2 * row, oz). */
  method PlaceLineColumn(sf: Schematic, x: int, y: int, z: int, rows: int, oz: int, length: int, block: Block,
                         ghost lw: seq<Write>, ghost g: Grid, ghost d: Grid)
    requires sf.Logged(lw, g, d)
    requires rows > 0 && length > 0 ==>
      sf.InBounds(x, y, z + oz) && sf.InBounds(x + length - 1, y + 2 * rows - 1, z + oz)
    modifies sf.blocks, sf.data
    ensures sf.Logged(lw + ColumnWrites(x, y, z + oz, rows, length, block), g, d)
  {
    EmptyLogged(sf, lw, ColumnWrites(x, y, z + oz, 0, length, block), g, d);
    var row := 0;
    while row < rows
      invariant 0 <= row <= if rows > 0 then rows else 0
      invariant sf.Logged(lw + ColumnWrites(x, y, z + oz, row, length, block), g, d)
    {
      ghost var cw := lw + ColumnWrites(x, y, z + oz, row, length, block);
      var oy := row * 2;
      EmptyLogged(sf, cw, DepthWrites(x, y + oy, z + oz, 0, block), g, d);
      var depth := 0;
      while depth < length
        invariant 0 <= depth <= if length > 0 then length else 0
        invariant sf.Logged(cw + DepthWrites(x, y + oy, z + oz, depth, block), g, d)
      {
        PlaceLineCell(sf, x, y, z, oy, oz, depth, block, cw, g, d);
        depth := depth + 1;
      }
      ColumnLogged(sf, lw, x, y, z, oz, row, oy, length, depth, block, g, d);
      row := row + 1;
    }
    ColumnDone(sf, lw, x, y, z + oz, row, rows, length, block, g, d);
  }

  /** `gen_lines`: for each column, row and depth offset, the line block
      at (depth, 2 * row, 2 * col) and redstone dust on top of it. The
      canvas ends as the writes LineWrites leave it, so LineCells says what
      each cell holds. */
  method GenLines(sf: Schematic, x: int, y: int, z: int, rows: int, cols: int, length: int, block: Block,
                  ghost ws: seq<Write>, ghost g: Grid, ghost d: Grid)
    requires sf.Logged(ws, g, d)
    requires rows > 0 && cols > 0 && length > 0 ==>
      sf.InBounds(x, y, z) && sf.InBounds(x + length - 1, y + 2 * rows - 1, z + 2 * cols - 2)
    modifies sf.blocks, sf.data
    ensures sf.Logged(ws + LineWrites(x, y, z, rows, cols, length, block), g, d)
  {
    EmptyLogged(sf, ws, LineWrites(x, y, z, rows, 0, length, block), g, d);
    var col := 0;
    while col < cols
      invariant 0 <= col <= if cols > 0 then cols else 0
      invariant sf.Logged(ws + LineWrites(x, y, z, rows, col, length, block), g, d)
    {
      var oz := col * 2;
      PlaceLineColumn(sf, x, y, z, rows, oz, length, block, ws + LineWrites(x, y, z, rows, col, length, block), g, d);
      LineLogged(sf, ws, x, y, z, rows, col, oz, length, block, g, d);
      col := col + 1;
    }
    LinesDone(sf, ws, x, y, z, rows, col, cols, length, block, g, d);
  }
}
