/** `gen_torch_tower`: a column alternating a filler block and an upward
    redstone torch, which carries the clock signal up the engine. */
module Tower {
  import opened Wrappers
  import opened Blocks
  import opened Canvas

  /** The tower's block at offset i: the filler block at even offsets, an
      upward torch at odd ones. */
  function TowerBlock(i: int, block: Block): Block
  {
    if i % 2 == 0 then block else TorchBlock(Up)
  }

  /** Every write of `gen_torch_tower` with `height` cells: the filler
      block at even offsets, an upward torch at odd ones. */
  function TowerWrites(x: int, y: int, z: int, height: nat, block: Block): seq<Write>
  {
    if height == 0 then []
    else
      TowerWrites(x, y, z, height - 1, block) +
      [Write(x, y + height - 1, z, TowerBlock(height - 1, block))]
  }

  /** The tower writes only the column (x, y .. y + height - 1, z), each
      cell ending with the filler block at even offsets and an upward torch
      at odd ones. */
  lemma {:induction false} TowerCells(x: int, y: int, z: int, height: nat, block: Block, cx: int, cy: int, cz: int)
    ensures LastWrite(TowerWrites(x, y, z, height, block), cx, cy, cz) ==
      if cx == x && cz == z && y <= cy < y + height then
        Some(if (cy - y) % 2 == 0 then block else TorchBlock(Up))
      else None
  {
    if height > 0 {
      TowerCells(x, y, z, height - 1, block, cx, cy, cz);
      var w := Write(x, y + height - 1, z, TowerBlock(height - 1, block));
      LastWriteSnoc(TowerWrites(x, y, z, height - 1, block), w, cx, cy, cz);
    }
  }

  /** `gen_torch_tower`: for i in range(height), the filler block at
      (x, y + i, z) when i is even, an upward torch when it is odd. */
  method GenTorchTower(sf: Schematic, x: int, y: int, z: int, height: int, block: Block,
                       ghost ws: seq<Write>, ghost g: Grid, ghost d: Grid)
    requires sf.Logged(ws, g, d)
    requires height > 0 ==> sf.InBounds(x, y, z) && sf.InBounds(x, y + height - 1, z)
    modifies sf.blocks, sf.data
    ensures sf.Logged(ws + TowerWrites(x, y, z, if height > 0 then height else 0, block), g, d)
  {
    var i := 0;
    TowerLog(ws, x, y, z, 0, block);
    while i < height
      invariant 0 <= i <= (if height > 0 then height else 0)
      invariant sf.Logged(ws + TowerWrites(x, y, z, i, block), g, d)
    {
      var b := TowerBlock(i, block);
      sf.PlaceBlock(x, y, z, 0, i, 0, b, ws + TowerWrites(x, y, z, i, block), g, d);
      TowerLog(ws, x, y, z, i + 1, block);
      i := i + 1;
    }
  }

  lemma TowerLog(ws: seq<Write>, x: int, y: int, z: int, n: nat, block: Block)
    ensures n == 0 ==> ws + TowerWrites(x, y, z, n, block) == ws
    ensures n > 0 ==>
      (ws + TowerWrites(x, y, z, n - 1, block) + [Write(x + 0, y + (n - 1), z + 0, TowerBlock(n - 1, block))] ==
       ws + TowerWrites(x, y, z, n, block))
  {
  }
}
