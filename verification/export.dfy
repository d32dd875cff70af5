/** The canvas of `export_schematic`: its sizing from the song length, the
    row count and the tick interval, and the build of the note blocks and
    the signal lines on it. The engine's writes and the file output are
    not part of this module. */
module Export {
  import opened Wrappers
  import opened NumberTheory
  import opened Blocks
  import opened Canvas
  import opened Durations
  import opened Notes
  import opened Lines

  /** `math.ceil(a / b)` on integers. */
  function Ceil(a: int, b: int): int
    requires b != 0
  {
    -FloorDiv(-a, b)
  }

  /** Ceil(a, b) is the least c with a <= c * b, for a positive b, and the
      least c with c * b <= a for a negative one. */
  lemma CeilBounds(a: int, b: int)
    requires b != 0
    ensures b > 0 ==> (Ceil(a, b) - 1) * b < a <= Ceil(a, b) * b
    ensures b < 0 ==> Ceil(a, b) * b <= a < (Ceil(a, b) - 1) * b
  {
    var c := Ceil(a, b);
    if b > 0 {
      var q := (-a) / b;
      assert c == -q;
      assert q * b <= -a < q * b + b;
      assert c * b == -(q * b) && (c - 1) * b == -(q * b) - b;
    } else {
      var q := a / (-b);
      assert c == -q;
      assert q * (-b) <= a < q * (-b) + (-b);
      assert c * b == q * (-b) && (c - 1) * b == q * (-b) - b;
    }
  }

  /** The column count `ceil(length / rows)` of `export_schematic`, for a
      length that is a Python int or, when lengthInt64 holds, a numpy
      int64 (LengthIsInt64). Over zero rows a Python int raises
      ZeroDivisionError; an int64 divides to nan for a zero length, on
      which `ceil` raises ValueError, and to an infinity otherwise, on
      which it raises OverflowError. */
  function Columns(length: int, lengthInt64: bool, rows: int): Result<int, Exception>
  {
    if rows != 0 then Ok(Ceil(length, rows))
    else if !lengthInt64 then Err(ZeroDivisionError)
    else if length == 0 then Err(ValueError)
    else Err(OverflowError)
  }

  /** The canvas shape (height, width, depth) of `export_schematic`:
      height 2 * rows + 2, width twice the column count, depth
      REDSTONE_MAX + 6 + int(|t - 1| / 8). A failing column count raises
      its exception, a negative dimension ValueError. */
  function CanvasShape(length: int, lengthInt64: bool, rows: int, t: int): Result<Shape, Exception>
  {
    match Columns(length, lengthInt64, rows)
    case Err(e) => Err(e)
    case Ok(cols) =>
      var widthMax := cols * 2;
      var heightMax := rows * 2 + 2;
      var depthMax := RedstoneMax + 6 + Abs(t - 1) / 8;
      if heightMax < 0 || widthMax < 0 then Err(ValueError)
      else Ok(Shape(heightMax, widthMax, depthMax))
  }

  /** For positive rows and a song of non-negative length the canvas
      exists; its width holds the fewest columns of `rows` cells that
      cover every time index, two width cells each; its height holds two
      cells per row and two more; its depth leaves 21 slots at least, more
      for slow songs. Zero rows raise the exception of dividing the
      length by zero, ZeroDivisionError exactly for a Python-int length,
      and fewer than -1 rows give a negative height. */
  lemma CanvasShapeSpec(length: int, lengthInt64: bool, rows: int, t: int)
    ensures rows == 0 ==>
      CanvasShape(length, lengthInt64, rows, t) ==
      Err(if !lengthInt64 then ZeroDivisionError else if length == 0 then ValueError else OverflowError)
    ensures CanvasShape(length, lengthInt64, rows, t) == Err(ZeroDivisionError) <==> rows == 0 && !lengthInt64
    ensures rows <= -2 ==> CanvasShape(length, lengthInt64, rows, t) == Err(ValueError)
    ensures rows > 0 && length >= 0 ==> CanvasShape(length, lengthInt64, rows, t).Ok?
    ensures CanvasShape(length, lengthInt64, rows, t).Ok? && rows > 0 ==>
      var s := CanvasShape(length, lengthInt64, rows, t).value;
      s.height == 2 * rows + 2 && s.width % 2 == 0 && s.width >= 0 &&
      (s.width / 2 - 1) * rows < length <= (s.width / 2) * rows &&
      s.depth == RedstoneMax + 6 + Abs(t - 1) / 8 && s.depth >= 21
  {
    if rows > 0 {
      CeilBounds(length, rows);
      var c := Ceil(length, rows);
      if length >= 0 && c < 0 {
        MulMonotone(c, -1, rows);
      }
    }
  }

  /** Every time index i below the song length has its note cell and the
      instrument cell under it inside the canvas: row i % rows at height
      2 * (rows - row) - 1 and column int(i / rows) at width 2 * col + 1,
      when `gen_notes` runs at the origin. */
  lemma EventCellInside(length: int, lengthInt64: bool, rows: int, t: int, i: int)
    requires rows > 0 && 0 <= i < length
    ensures CanvasShape(length, lengthInt64, rows, t).Ok?
    ensures var s := CanvasShape(length, lengthInt64, rows, t).value;
      var row := FloorMod(i, rows);
      var col := TruncDiv(i, rows);
      0 <= 2 * (rows - row) - 1 - 1 && 2 * (rows - row) - 1 < s.height &&
      0 <= col * 2 + 1 < s.width
  {
    CellIndex(i, rows);
    ColumnBelow(length, rows, i);
  }

  /** The column of a time index below the length is below the column
      count. */
  lemma ColumnBelow(length: int, rows: int, i: int)
    requires rows > 0 && 0 <= i < length
    ensures 0 <= i / rows < Ceil(length, rows)
  {
    CeilBounds(length, rows);
    var cols := Ceil(length, rows);
    if i / rows >= cols {
      MulMonotone(cols, i / rows, rows);
    }
  }

  /** For a non-negative index, `int(i / rows)` and `i % rows` are the
      quotient and remainder of Euclidean division. */
  lemma CellIndex(i: int, rows: int)
    requires i >= 0 && rows > 0
    ensures TruncDiv(i, rows) == i / rows && FloorMod(i, rows) == i % rows
    ensures 0 <= i % rows < rows && (i / rows) * rows <= i
  {
  }

  /** depth_reached never passes the canvas depth: every slot it counts
      holds a note block inside the canvas. */
  lemma DepthReachedInside(events: seq<Event>, x: int, y: int, z: int, rows: int,
                           depthMax: int, lcd: int, shape: Shape)
    requires NotesRun(events, x, y, z, rows, depthMax, lcd, shape).Ok?
    ensures var dr := NotesRun(events, x, y, z, rows, depthMax, lcd, shape).value.depthReached;
      dr >= 0 && (dr > 0 ==> x + dr <= shape.depth)
  {
    NotesLayout(events, x, y, z, rows, depthMax, lcd, shape);
    var ns := NotesRun(events, x, y, z, rows, depthMax, lcd, shape).value;
    if |ns.placed| > 0 {
      var j :| 0 <= j < |ns.placed| && SlotOf(ns.placed[j], x) + 1 == ns.depthReached;
      assert Inside(shape, ns.placed[j].x, ns.placed[j].y, ns.placed[j].z);
    }
  }

  /** On the canvas of CanvasShape, the box `gen_lines` fills from
      (0, 1, 0), depth_reached deep, rows * 2 high and cols * 2 - 1 wide,
      lies inside. */
  lemma LinesInside(length: int, lengthInt64: bool, rows: int, t: int, depthReached: int)
    requires rows > 0 && CanvasShape(length, lengthInt64, rows, t).Ok?
    requires 0 < depthReached <= CanvasShape(length, lengthInt64, rows, t).value.depth
    requires Ceil(length, rows) > 0
    ensures var s := CanvasShape(length, lengthInt64, rows, t).value;
      Inside(s, 0, 1, 0) && Inside(s, depthReached - 1, 1 + 2 * rows - 1, 0 + 2 * Ceil(length, rows) - 2)
  {
  }

  /** `gen_lines` one cell above `gen_notes`'s origin, at yl == y + 1,
      never writes a note block or the instrument block under it: the
      notes sit at odd width offsets, the lines at even ones. NotesLayout
      gives NotesPlaced for every run of `gen_notes` that succeeds. */
  lemma LinesSpareNotes(ns: NotesState, x: int, y: int, z: int, rows: int, shape: Shape,
                        yl: int, cols: int, length: int, block: Block, j: int)
    requires NotesPlaced(ns, x, y, z, rows, shape) && 0 <= j < |ns.placed| && yl == y + 1
    ensures LineCell(x, yl, z, rows, cols, length, block, ns.placed[j].x, ns.placed[j].y, ns.placed[j].z) == None
    ensures LineCell(x, yl, z, rows, cols, length, block, ns.placed[j].x, ns.placed[j].y - 1, ns.placed[j].z) == None
  {
    assert (ns.placed[j].z - z) % 2 == 1;
  }

  /** So after any writes ws, the note block and instrument cells of every
      placed note hold what ws left there once the lines are written. */
  lemma LinesKeepNotes(ws: seq<Write>, ns: NotesState, x: int, y: int, z: int, rows: int, shape: Shape,
                       yl: int, cols: int, length: int, block: Block, j: int)
    requires NotesPlaced(ns, x, y, z, rows, shape) && 0 <= j < |ns.placed| && yl == y + 1
    ensures var p := ns.placed[j];
      LastWrite(ws + LineWrites(x, yl, z, rows, cols, length, block), p.x, p.y, p.z) == LastWrite(ws, p.x, p.y, p.z) &&
      LastWrite(ws + LineWrites(x, yl, z, rows, cols, length, block), p.x, p.y - 1, p.z) ==
        LastWrite(ws, p.x, p.y - 1, p.z)
  {
    var p := ns.placed[j];
    var below := p.y - 1;
    LinesSpareNotes(ns, x, y, z, rows, shape, yl, cols, length, block, j);
    LinesKeepCell(ws, x, yl, z, rows, cols, length, block, p.x, p.y, p.z);
    LinesKeepCell(ws, x, yl, z, rows, cols, length, block, p.x, below, p.z);
  }

  lemma LinesKeepCell(ws: seq<Write>, x: int, y: int, z: int, rows: int, cols: int, length: int, block: Block,
                      cx: int, cy: int, cz: int)
    requires LineCell(x, y, z, rows, cols, length, block, cx, cy, cz) == None
    ensures LastWrite(ws + LineWrites(x, y, z, rows, cols, length, block), cx, cy, cz) == LastWrite(ws, cx, cy, cz)
  {
    LineCells(ws, x, y, z, rows, cols, length, block, cx, cy, cz);
  }

  /** The layout `export_schematic` builds: the canvas shape, the column
      count and the depth the notes reach. */
  datatype Layout = Layout(shape: Shape, cols: int, depthReached: int)

  function LayoutOf(song: SongInfo, rows: int, t: int): Result<Layout, Exception>
  {
    match CanvasShape(song.length, LengthIsInt64(song.events), rows, t)
    case Err(e) => Err(e)
    case Ok(s) =>
      match GenNotesOf(song.events, 0, 0, 0, rows, s.depth, song.lcd, s)
      case Err(e) => Err(e)
      case Ok(dr) => Ok(Layout(s, Ceil(song.length, rows), dr))
  }

  /** `export_schematic` up to the engine: sizes a blank canvas, places the
      notes at the origin and the lines one cell above it. The canvas ends
      as the note writes followed by the line writes leave a blank one. */
  method ExportCanvas(song: SongInfo, rows: int, t: int) returns (r: Result<Schematic, Exception>)
    ensures r.Err? <==> LayoutOf(song, rows, t).Err?
    ensures r.Err? ==> r.error == LayoutOf(song, rows, t).error
    ensures r.Ok? ==>
      var lay := LayoutOf(song, rows, t).value;
      var placed := NotesRun(song.events, 0, 0, 0, rows, lay.shape.depth, song.lcd, lay.shape).value.placed;
      fresh(r.value) && ShapeOf(r.value) == lay.shape &&
      r.value.Logged(PlacedWrites(placed) + LineWrites(0, 1, 0, rows, lay.cols, lay.depthReached, LineBlock), [], []) &&
      r.value.entities == PlacedEntities(placed)
  {
    var columns := Columns(song.length, LengthIsInt64(song.events), rows);
    if columns.Err? {
      return Err(columns.error);
    }
    var cols := columns.value;
    var widthMax := cols * 2;
    var heightMax := rows * 2 + 2;
    var depthMax := RedstoneMax + 6 + Abs(t - 1) / 8;
    if heightMax < 0 || widthMax < 0 {
      return Err(ValueError);
    }
    var sf := new Schematic(heightMax, widthMax, depthMax);
    ghost var shape := Shape(heightMax, widthMax, depthMax);
    assert ShapeOf(sf) == shape;
    assert sf.Logged([], [], []);
    var notes := GenNotes(sf, 0, 0, 0, rows, depthMax, song, [], [], []);
    if notes.Err? {
      return Err(notes.error);
    }
    var depthReached := notes.value;
    ghost var placed := NotesRun(song.events, 0, 0, 0, rows, depthMax, song.lcd, shape).value.placed;
    DepthReachedInside(song.events, 0, 0, 0, rows, depthMax, song.lcd, shape);
    if rows > 0 && cols > 0 && depthReached > 0 {
      LinesInside(song.length, LengthIsInt64(song.events), rows, t, depthReached);
    }
    GenLines(sf, 0, 1, 0, rows, cols, depthReached, LineBlock, [] + PlacedWrites(placed), [], []);
    assert [] + PlacedWrites(placed) == PlacedWrites(placed);
    return Ok(sf);
  }
}
