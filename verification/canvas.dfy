/** The voxel canvas: two parallel 3-D arrays of block ids and data bytes,
    indexed [y, z, x] like the schematic's numpy arrays, and the list of note
    block entities. */
module Canvas {
  import opened Wrappers
  import opened Blocks

  /** A note block entity: the note block's position and its pitch byte. */
  datatype Entity = Entity(x: int, y: int, z: int, pitch: int)

  /** One `place_block` at an absolute position. */
  datatype Write = Write(x: int, y: int, z: int, block: Block)

  /** The block of the last write in `ws` to (x, y, z), if any. */
  function LastWrite(ws: seq<Write>, x: int, y: int, z: int): Option<Block>
  {
    if |ws| == 0 then None
    else
      var w := ws[|ws| - 1];
      if w.x == x && w.y == y && w.z == z then Some(w.block)
      else LastWrite(ws[..|ws| - 1], x, y, z)
  }

  /** The block id a cell holds after the writes `ws`, given what it held
      before. */
  function BlockAfter(ws: seq<Write>, before: int, x: int, y: int, z: int): int
  {
    match LastWrite(ws, x, y, z)
    case Some(b) => BlockIdCode(b.id)
    case None => before
  }

  /** The data byte a cell holds after the writes `ws`. */
  function DataAfter(ws: seq<Write>, before: int, x: int, y: int, z: int): int
  {
    match LastWrite(ws, x, y, z)
    case Some(b) => StateCode(b.state)
    case None => before
  }

  /** Appending one write changes the last write of its own cell only. */
  lemma LastWriteSnoc(ws: seq<Write>, w: Write, x: int, y: int, z: int)
    ensures LastWrite(ws + [w], x, y, z) ==
      if w.x == x && w.y == y && w.z == z then Some(w.block) else LastWrite(ws, x, y, z)
  {
    assert (ws + [w])[..|ws|] == ws;
  }

  /** A cell that no write in `ws` addresses keeps its value. */
  lemma LastWriteMissing(ws: seq<Write>, x: int, y: int, z: int)
    requires forall i :: 0 <= i < |ws| ==> !(ws[i].x == x && ws[i].y == y && ws[i].z == z)
    ensures LastWrite(ws, x, y, z) == None
  {
    if ws != [] {
      LastWriteMissing(ws[..|ws| - 1], x, y, z);
    }
  }

  /** The last write to a cell in ws + vs is its last write in vs, if vs
      has one, and otherwise its last write in ws. */
  lemma {:induction false} LastWriteAppend(ws: seq<Write>, vs: seq<Write>, x: int, y: int, z: int)
    ensures LastWrite(ws + vs, x, y, z) ==
      if LastWrite(vs, x, y, z).Some? then LastWrite(vs, x, y, z) else LastWrite(ws, x, y, z)
    decreases |vs|
  {
    if vs == [] {
      assert ws + vs == ws;
    } else {
      var init := vs[..|vs| - 1];
      assert (ws + vs)[..|ws + vs| - 1] == ws + init;
      LastWriteAppend(ws, init, x, y, z);
    }
  }

  /** The two writes of `place_note_block` at (x, y, z): the note block,
      then the instrument's block one cell below. */
  function NoteBlockWrites(x: int, y: int, z: int, instrument: Instrument): (ws: seq<Write>)
    ensures |ws| == 2
  {
    [Write(x, y, z, NoteBlockBlock), Write(x, y - 1, z, InstrumentBlock(instrument))]
  }

  /** The contents of one canvas array as nested sequences, [y][z][x]. */
  type Grid = seq<seq<seq<int>>>

  /** The value g holds at (x, y, z), 0 outside it. */
  function At(g: Grid, x: int, y: int, z: int): int
  {
    if 0 <= y < |g| && 0 <= z < |g[y]| && 0 <= x < |g[y][z]| then g[y][z][x] else 0
  }

  class Schematic {
    var blocks: array3<int>
    var data: array3<int>
    var entities: seq<Entity>

    /** The two arrays are distinct and have the same shape. */
    ghost predicate Valid()
      reads this
    {
      blocks != data &&
      blocks.Length0 == data.Length0 &&
      blocks.Length1 == data.Length1 &&
      blocks.Length2 == data.Length2
    }

    /** The cell (x, y, z) lies inside the canvas. */
    predicate InBounds(x: int, y: int, z: int)
      reads this
    {
      0 <= y < blocks.Length0 && 0 <= z < blocks.Length1 && 0 <= x < blocks.Length2
    }

    /** g has the shape of the canvas. */
    ghost predicate Fits(g: Grid)
      reads this
    {
      |g| == blocks.Length0 &&
      forall y | 0 <= y < |g| ::
        |g[y]| == blocks.Length1 && forall z | 0 <= z < |g[y]| :: |g[y][z]| == blocks.Length2
    }

    /** The array a as a grid; a has the canvas's shape. */
    ghost function GridOf(a: array3<int>): (g: Grid)
      requires Valid() && (a == blocks || a == data)
      reads this, a
      ensures Fits(g)
      ensures forall x, y, z | InBounds(x, y, z) :: g[y][z][x] == a[y, z, x]
    {
      seq(a.Length0, y requires 0 <= y < a.Length0 reads a =>
        seq(a.Length1, z requires 0 <= z < a.Length1 reads a =>
          seq(a.Length2, x requires 0 <= x < a.Length2 reads a => a[y, z, x])))
    }

    /** Every cell holds what the writes ws, applied in order to the grids
        b (block ids) and d (data bytes), leave in it. */
    ghost predicate Logged(ws: seq<Write>, b: Grid, d: Grid)
      reads this, blocks, data
    {
      Valid() &&
      forall x, y, z {:trigger blocks[y, z, x]} {:trigger data[y, z, x]} | InBounds(x, y, z) ::
        blocks[y, z, x] == BlockAfter(ws, At(b, x, y, z), x, y, z) &&
        data[y, z, x] == DataAfter(ws, At(d, x, y, z), x, y, z)
    }

    /** Before any write, the canvas is what it holds. */
    lemma LoggedNothing()
      requires Valid()
      ensures Logged([], GridOf(blocks), GridOf(data))
    {
    }

    /** A canvas of the given shape, all air, with no entities. */
    constructor (height: nat, width: nat, depth: nat)
      ensures Valid() && fresh(blocks) && fresh(data) && entities == []
      ensures blocks.Length0 == height && blocks.Length1 == width && blocks.Length2 == depth
      ensures forall x, y, z | InBounds(x, y, z) :: blocks[y, z, x] == 0 && data[y, z, x] == 0
    {
      blocks := new int[height, width, depth]((y, z, x) => 0);
      data := new int[height, width, depth]((y, z, x) => 0);
      entities := [];
    }

    /** `place_block`: writes the block's id and data byte (0 when it has no
        state) at (x + ox, y + oy, z + oz) and changes no other cell; the
        log grows by that write. */
    method PlaceBlock(x: int, y: int, z: int, ox: int, oy: int, oz: int, b: Block,
                      ghost ws: seq<Write>, ghost g: Grid, ghost d: Grid)
      requires Logged(ws, g, d) && InBounds(x + ox, y + oy, z + oz)
      modifies blocks, data
      ensures blocks[y + oy, z + oz, x + ox] == BlockIdCode(b.id)
      ensures data[y + oy, z + oz, x + ox] == StateCode(b.state)
      ensures forall x', y', z' {:trigger blocks[y', z', x']} {:trigger data[y', z', x']}
        | InBounds(x', y', z') && (x', y', z') != (x + ox, y + oy, z + oz) ::
        blocks[y', z', x'] == old(blocks[y', z', x']) && data[y', z', x'] == old(data[y', z', x'])
      ensures Logged(ws + [Write(x + ox, y + oy, z + oz, b)], g, d)
    {
      blocks[y + oy, z + oz, x + ox] := BlockIdCode(b.id);
      data[y + oy, z + oz, x + ox] := 0;
      if b.state != Plain {
        data[y + oy, z + oz, x + ox] := StateCode(b.state);
      }
      forall x', y', z' | InBounds(x', y', z')
        ensures LastWrite(ws + [Write(x + ox, y + oy, z + oz, b)], x', y', z') ==
          if (x', y', z') == (x + ox, y + oy, z + oz) then Some(b) else LastWrite(ws, x', y', z')
      {
        LastWriteSnoc(ws, Write(x + ox, y + oy, z + oz, b), x', y', z');
      }
    }

    /** The writes ws, one `place_block` each, in order. */
    method PlaceBlocks(writes: seq<Write>, ghost ws: seq<Write>, ghost g: Grid, ghost d: Grid)
      requires Logged(ws, g, d)
      requires forall i | 0 <= i < |writes| :: InBounds(writes[i].x, writes[i].y, writes[i].z)
      modifies blocks, data
      ensures Logged(ws + writes, g, d)
    {
      assert ws + writes[..0] == ws;
      for i := 0 to |writes|
        invariant Logged(ws + writes[..i], g, d)
      {
        var w := writes[i];
        PlaceBlock(w.x, w.y, w.z, 0, 0, 0, w.block, ws + writes[..i], g, d);
        assert ws + writes[..i + 1] == ws + writes[..i] + [Write(w.x + 0, w.y + 0, w.z + 0, w.block)];
      }
      assert writes[..|writes|] == writes;
    }

    /** `place_note_block`: a note block at (x + ox, y + oy, z + oz), its
        entity with the pitch appended, and the instrument's block one cell
        below; returns the instrument block. */
    method PlaceNoteBlock(x: int, y: int, z: int, ox: int, oy: int, oz: int,
                          instrument: Instrument, pitch: int,
                          ghost ws: seq<Write>, ghost g: Grid, ghost d: Grid) returns (b: Block)
      requires Logged(ws, g, d) && InBounds(x + ox, y + oy, z + oz) && InBounds(x + ox, y + oy - 1, z + oz)
      modifies this, blocks, data
      ensures b == InstrumentBlock(instrument)
      ensures blocks == old(blocks) && data == old(data)
      ensures entities == old(entities) + [Entity(x + ox, y + oy, z + oz, pitch)]
      ensures Logged(ws + NoteBlockWrites(x + ox, y + oy, z + oz, instrument), g, d)
    {
      PlaceBlock(x, y, z, ox, oy, oz, NoteBlockBlock, ws, g, d);
      entities := entities + [Entity(x + ox, y + oy, z + oz, pitch)];
      b := InstrumentBlock(instrument);
      PlaceBlock(x, y, z, ox, oy - 1, oz, b, ws + [Write(x + ox, y + oy, z + oz, NoteBlockBlock)], g, d);
      assert ws + NoteBlockWrites(x + ox, y + oy, z + oz, instrument) ==
        ws + [Write(x + ox, y + oy, z + oz, NoteBlockBlock)] + [Write(x + ox, y + oy - 1, z + oz, b)];
    }
  }
}
