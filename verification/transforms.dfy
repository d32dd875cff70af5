/** The region transforms over the canvas: `copy_area`, `stack_area` and
    `cycle_area_down`. Regions are given by inclusive low and high corners,
    as in the source. */
module Transforms {
  import opened NumberTheory
  import opened Canvas

  /** The length of `range(lo, hi + 1)`. */
  function Extent(lo: int, hi: int): (n: nat)
    ensures n > 0 <==> lo <= hi
    ensures n > 0 ==> lo + n - 1 == hi
  {
    if hi < lo then 0 else hi - lo + 1
  }

  function Min(a: nat, b: nat): (m: nat)
    ensures m <= a && m <= b && (m == a || m == b)
  {
    if a <= b then a else b
  }

  /** (x, y, z) lies in the box with low corner (xl, yl, zl) and extents
      nx, ny, nz. */
  predicate InBox(x: int, y: int, z: int, xl: int, yl: int, zl: int, nx: nat, ny: nat, nz: nat)
  {
    xl <= x < xl + nx && yl <= y < yl + ny && zl <= z < zl + nz
  }

  /** An empty box, or one whose corners both lie on the canvas. */
  predicate BoxOnCanvas(sf: Schematic, xl: int, yl: int, zl: int, nx: nat, ny: nat, nz: nat)
    reads sf
  {
    nx == 0 || ny == 0 || nz == 0 ||
    (sf.InBounds(xl, yl, zl) && sf.InBounds(xl + nx - 1, yl + ny - 1, zl + nz - 1))
  }

  /** Two boxes of the same extents with no cell in common. */
  predicate BoxesDisjoint(sxl: int, syl: int, szl: int, dxl: int, dyl: int, dzl: int,
                          nx: nat, ny: nat, nz: nat)
  {
    nx == 0 || ny == 0 || nz == 0 ||
    sxl + nx <= dxl || dxl + nx <= sxl ||
    syl + ny <= dyl || dyl + ny <= syl ||
    szl + nz <= dzl || dzl + nz <= szl
  }

  /** The innermost loop of `copy_area`: copies nz cells along z. */
  method CopyRun(sf: Schematic, sx: int, sy: int, szl: int, dx: int, dy: int, dzl: int, nz: nat)
    requires sf.Valid()
    requires BoxOnCanvas(sf, sx, sy, szl, 1, 1, nz) && BoxOnCanvas(sf, dx, dy, dzl, 1, 1, nz)
    modifies sf.blocks, sf.data
    ensures forall x, y, z | sf.InBounds(x, y, z) && !InBox(x, y, z, dx, dy, dzl, 1, 1, nz) ::
      sf.blocks[y, z, x] == old(sf.blocks[y, z, x]) && sf.data[y, z, x] == old(sf.data[y, z, x])
    ensures BoxesDisjoint(sx, sy, szl, dx, dy, dzl, 1, 1, nz) ==>
      forall x, y, z | sf.InBounds(x, y, z) && InBox(x, y, z, dx, dy, dzl, 1, 1, nz) ::
        sf.blocks[y, z, x] == old(sf.blocks[sy, z - dzl + szl, sx]) &&
        sf.data[y, z, x] == old(sf.data[sy, z - dzl + szl, sx])
  {
    var k := 0;
    while k < nz
      invariant 0 <= k <= nz
      invariant forall x, y, z | sf.InBounds(x, y, z) && !InBox(x, y, z, dx, dy, dzl, 1, 1, k) ::
        sf.blocks[y, z, x] == old(sf.blocks[y, z, x]) && sf.data[y, z, x] == old(sf.data[y, z, x])
      invariant BoxesDisjoint(sx, sy, szl, dx, dy, dzl, 1, 1, nz) ==>
        forall x, y, z | sf.InBounds(x, y, z) && InBox(x, y, z, dx, dy, dzl, 1, 1, k) ::
          sf.blocks[y, z, x] == old(sf.blocks[sy, z - dzl + szl, sx]) &&
          sf.data[y, z, x] == old(sf.data[sy, z - dzl + szl, sx])
    {
      sf.blocks[dy, dzl + k, dx] := sf.blocks[sy, szl + k, sx];
      sf.data[dy, dzl + k, dx] := sf.data[sy, szl + k, sx];
      k := k + 1;
    }
  }

  /** The middle loop of `copy_area`: copies ny runs along y. */
  method CopyPlane(sf: Schematic, sx: int, syl: int, szl: int, dx: int, dyl: int, dzl: int, ny: nat, nz: nat)
    requires sf.Valid()
    requires BoxOnCanvas(sf, sx, syl, szl, 1, ny, nz) && BoxOnCanvas(sf, dx, dyl, dzl, 1, ny, nz)
    modifies sf.blocks, sf.data
    ensures forall x, y, z | sf.InBounds(x, y, z) && !InBox(x, y, z, dx, dyl, dzl, 1, ny, nz) ::
      sf.blocks[y, z, x] == old(sf.blocks[y, z, x]) && sf.data[y, z, x] == old(sf.data[y, z, x])
    ensures BoxesDisjoint(sx, syl, szl, dx, dyl, dzl, 1, ny, nz) ==>
      forall x, y, z | sf.InBounds(x, y, z) && InBox(x, y, z, dx, dyl, dzl, 1, ny, nz) ::
        sf.blocks[y, z, x] == old(sf.blocks[y - dyl + syl, z - dzl + szl, sx]) &&
        sf.data[y, z, x] == old(sf.data[y - dyl + syl, z - dzl + szl, sx])
  {
    var j := 0;
    while j < ny
      invariant 0 <= j <= ny
      invariant forall x, y, z | sf.InBounds(x, y, z) && !InBox(x, y, z, dx, dyl, dzl, 1, j, nz) ::
        sf.blocks[y, z, x] == old(sf.blocks[y, z, x]) && sf.data[y, z, x] == old(sf.data[y, z, x])
      invariant BoxesDisjoint(sx, syl, szl, dx, dyl, dzl, 1, ny, nz) ==>
        forall x, y, z | sf.InBounds(x, y, z) && InBox(x, y, z, dx, dyl, dzl, 1, j, nz) ::
          sf.blocks[y, z, x] == old(sf.blocks[y - dyl + syl, z - dzl + szl, sx]) &&
          sf.data[y, z, x] == old(sf.data[y - dyl + syl, z - dzl + szl, sx])
    {
      CopyRun(sf, sx, syl + j, szl, dx, dyl + j, dzl, nz);
      j := j + 1;
    }
  }

  /** The outer loop of `copy_area`: copies nx planes along x. */
  method CopyBox(sf: Schematic, sxl: int, syl: int, szl: int, dxl: int, dyl: int, dzl: int,
                 nx: nat, ny: nat, nz: nat)
    requires sf.Valid()
    requires BoxOnCanvas(sf, sxl, syl, szl, nx, ny, nz) && BoxOnCanvas(sf, dxl, dyl, dzl, nx, ny, nz)
    modifies sf.blocks, sf.data
    ensures forall x, y, z | sf.InBounds(x, y, z) && !InBox(x, y, z, dxl, dyl, dzl, nx, ny, nz) ::
      sf.blocks[y, z, x] == old(sf.blocks[y, z, x]) && sf.data[y, z, x] == old(sf.data[y, z, x])
    ensures BoxesDisjoint(sxl, syl, szl, dxl, dyl, dzl, nx, ny, nz) ==>
      forall x, y, z | sf.InBounds(x, y, z) && InBox(x, y, z, dxl, dyl, dzl, nx, ny, nz) ::
        sf.blocks[y, z, x] == old(sf.blocks[y - dyl + syl, z - dzl + szl, x - dxl + sxl]) &&
        sf.data[y, z, x] == old(sf.data[y - dyl + syl, z - dzl + szl, x - dxl + sxl])
  {
    ghost var disjoint := BoxesDisjoint(sxl, syl, szl, dxl, dyl, dzl, nx, ny, nz);
    var i := 0;
    while i < nx
      invariant 0 <= i <= nx
      invariant forall x, y, z | sf.InBounds(x, y, z) && !InBox(x, y, z, dxl, dyl, dzl, i, ny, nz) ::
        sf.blocks[y, z, x] == old(sf.blocks[y, z, x]) && sf.data[y, z, x] == old(sf.data[y, z, x])
      invariant disjoint ==>
        forall x, y, z | sf.InBounds(x, y, z) && InBox(x, y, z, dxl, dyl, dzl, i, ny, nz) ::
          sf.blocks[y, z, x] == old(sf.blocks[y - dyl + syl, z - dzl + szl, x - dxl + sxl]) &&
          sf.data[y, z, x] == old(sf.data[y - dyl + syl, z - dzl + szl, x - dxl + sxl])
    {
      assert disjoint ==> BoxesDisjoint(sxl + i, syl, szl, dxl + i, dyl, dzl, 1, ny, nz);
      assert disjoint ==> forall x, y, z | InBox(x, y, z, sxl + i, syl, szl, 1, ny, nz) ::
        !InBox(x, y, z, dxl, dyl, dzl, i, ny, nz);
      CopyPlane(sf, sxl + i, syl, szl, dxl + i, dyl, dzl, ny, nz);
      i := i + 1;
    }
  }

  /** `copy_area`: copies the source cuboid onto the destination cuboid cell
      by cell. Like the source's `zip`, each axis is cut to the shorter of the
      two ranges; no cell outside that cut destination box is written, and
      when the two boxes do not overlap every destination cell receives its
      source cell's block and data. */
  method CopyArea(sf: Schematic,
                  sxl: int, syl: int, szl: int, sxh: int, syh: int, szh: int,
                  dxl: int, dyl: int, dzl: int, dxh: int, dyh: int, dzh: int)
    requires sf.Valid()
    requires BoxOnCanvas(sf, sxl, syl, szl, Min(Extent(sxl, sxh), Extent(dxl, dxh)),
                         Min(Extent(syl, syh), Extent(dyl, dyh)), Min(Extent(szl, szh), Extent(dzl, dzh)))
    requires BoxOnCanvas(sf, dxl, dyl, dzl, Min(Extent(sxl, sxh), Extent(dxl, dxh)),
                         Min(Extent(syl, syh), Extent(dyl, dyh)), Min(Extent(szl, szh), Extent(dzl, dzh)))
    modifies sf.blocks, sf.data
    ensures forall x, y, z | sf.InBounds(x, y, z) &&
        !InBox(x, y, z, dxl, dyl, dzl, Min(Extent(sxl, sxh), Extent(dxl, dxh)),
               Min(Extent(syl, syh), Extent(dyl, dyh)), Min(Extent(szl, szh), Extent(dzl, dzh))) ::
      sf.blocks[y, z, x] == old(sf.blocks[y, z, x]) && sf.data[y, z, x] == old(sf.data[y, z, x])
    ensures BoxesDisjoint(sxl, syl, szl, dxl, dyl, dzl, Min(Extent(sxl, sxh), Extent(dxl, dxh)),
                          Min(Extent(syl, syh), Extent(dyl, dyh)), Min(Extent(szl, szh), Extent(dzl, dzh))) ==>
      forall x, y, z | sf.InBounds(x, y, z) &&
          InBox(x, y, z, dxl, dyl, dzl, Min(Extent(sxl, sxh), Extent(dxl, dxh)),
                Min(Extent(syl, syh), Extent(dyl, dyh)), Min(Extent(szl, szh), Extent(dzl, dzh))) ::
        sf.blocks[y, z, x] == old(sf.blocks[y - dyl + syl, z - dzl + szl, x - dxl + sxl]) &&
        sf.data[y, z, x] == old(sf.data[y - dyl + syl, z - dzl + szl, x - dxl + sxl])
  {
    var nx := Min(Extent(sxl, sxh), Extent(dxl, dxh));
    var ny := Min(Extent(syl, syh), Extent(dyl, dyh));
    var nz := Min(Extent(szl, szh), Extent(dzl, dzh));
    CopyBox(sf, sxl, syl, szl, dxl, dyl, dzl, nx, ny, nz);
  }

  /** v lies in the c-th tile of length n that starts at lo exactly when
      (v - lo) / n == c; its offset in that tile is then (v - lo) % n. */
  lemma TileIndex(v: int, lo: int, n: int, c: int)
    requires n > 0
    ensures (lo + c * n <= v < lo + c * n + n) <==> (v - lo) / n == c
    ensures (v - lo) / n == c ==> (v - lo) % n == v - lo - c * n
  {
    if lo + c * n <= v < lo + c * n + n {
      DivModUnique(v - lo, n, c, v - lo - c * n);
    }
    if (v - lo) / n == c {
      assert v - lo == c * n + (v - lo) % n;
    }
  }

  /** The position a cell folds back to when a run of length n starting at
      lo is repeated: lo plus the offset of v within its repetition. */
  function Fold(v: int, lo: int, n: int): (r: int)
    requires n > 0
    ensures lo <= r < lo + n
  {
    lo + (v - lo) % n
  }

  /** Folding a cell of the c-th repetition subtracts c whole runs. */
  lemma FoldTile(v: int, lo: int, n: int, c: int)
    requires n > 0 && lo + c * n <= v < lo + c * n + n
    ensures Fold(v, lo, n) == v - c * n
  {
    TileIndex(v, lo, n, c);
  }

  /** `copy_area` of the region onto the same-sized region shifted by
      (dx, dy, dz), the only form `stack_area` uses; the two must not
      overlap. */
  method CopyShifted(sf: Schematic, xl: int, yl: int, zl: int, xh: int, yh: int, zh: int,
                     dx: int, dy: int, dz: int)
    requires sf.Valid() && xl <= xh && yl <= yh && zl <= zh
    requires sf.InBounds(xl, yl, zl) && sf.InBounds(xh, yh, zh)
    requires sf.InBounds(xl + dx, yl + dy, zl + dz) && sf.InBounds(xh + dx, yh + dy, zh + dz)
    requires BoxesDisjoint(xl, yl, zl, xl + dx, yl + dy, zl + dz, xh - xl + 1, yh - yl + 1, zh - zl + 1)
    modifies sf.blocks, sf.data
    ensures forall x, y, z {:trigger sf.blocks[y, z, x]} {:trigger sf.data[y, z, x]} |
        sf.InBounds(x, y, z) && xl + dx <= x <= xh + dx && yl + dy <= y <= yh + dy && zl + dz <= z <= zh + dz ::
      sf.blocks[y, z, x] == old(sf.blocks[y - dy, z - dz, x - dx]) &&
      sf.data[y, z, x] == old(sf.data[y - dy, z - dz, x - dx])
    ensures forall x, y, z {:trigger sf.blocks[y, z, x]} {:trigger sf.data[y, z, x]} |
        sf.InBounds(x, y, z) && !(xl + dx <= x <= xh + dx && yl + dy <= y <= yh + dy && zl + dz <= z <= zh + dz) ::
      sf.blocks[y, z, x] == old(sf.blocks[y, z, x]) && sf.data[y, z, x] == old(sf.data[y, z, x])
  {
    assert Min(Extent(xl, xh), Extent(xl + dx, xh + dx)) == xh - xl + 1;
    assert Min(Extent(yl, yh), Extent(yl + dy, yh + dy)) == yh - yl + 1;
    assert Min(Extent(zl, zh), Extent(zl + dz, zh + dz)) == zh - zl + 1;
    CopyArea(sf, xl, yl, zl, xh, yh, zh, xl + dx, yl + dy, zl + dz, xh + dx, yh + dy, zh + dz);
  }

  /** One pass of the first loop of `stack_area`: copies the region onto
      the c-th layer above it, the rows [lo, yh + lo - yl]. Each cell of the
      layer takes the region cell its row folds back to. */
  method CopyLayerUp(sf: Schematic, xl: int, yl: int, zl: int, xh: int, yh: int, zh: int, c: int, lo: int)
    requires sf.Valid() && xl <= xh && yl <= yh && zl <= zh && c > 0 && lo == yl + c * (yh - yl + 1) && yh < lo
    requires sf.InBounds(xl, yl, zl) && sf.InBounds(xh, yh + lo - yl, zh)
    modifies sf.blocks, sf.data
    ensures forall x, y, z {:trigger sf.blocks[y, z, x]} {:trigger sf.data[y, z, x]} | sf.InBounds(x, y, z) && xl <= x <= xh && zl <= z <= zh &&
        lo <= y <= yh + lo - yl ::
      sf.blocks[y, z, x] == old(sf.blocks[Fold(y, yl, yh - yl + 1), z, x]) &&
      sf.data[y, z, x] == old(sf.data[Fold(y, yl, yh - yl + 1), z, x])
    ensures forall x, y, z {:trigger sf.blocks[y, z, x]} {:trigger sf.data[y, z, x]} | sf.InBounds(x, y, z) && !(xl <= x <= xh && zl <= z <= zh &&
        lo <= y <= yh + lo - yl) ::
      sf.blocks[y, z, x] == old(sf.blocks[y, z, x]) && sf.data[y, z, x] == old(sf.data[y, z, x])
  {
    var height := yh - yl + 1;
    var dy := lo - yl;
    CopyShifted(sf, xl, yl, zl, xh, yh, zh, 0, dy, 0);
    forall y | lo <= y <= yh + dy ensures Fold(y, yl, height) == y - dy {
      FoldShift(y, yl, height, c, lo);
    }
  }

  /** The first loop of `stack_area`: `up` copies of the region, each
      `height` cells above the previous one. Afterwards every cell of the
      grown column holds the region cell at the same offset within its
      layer. */
  method StackUp(sf: Schematic, xl: int, yl: int, zl: int, xh: int, yh: int, zh: int, up: nat)
    requires sf.Valid() && xl <= xh && yl <= yh && zl <= zh
    requires sf.InBounds(xl, yl, zl) && sf.InBounds(xh, yh, zh) && sf.InBounds(xh, yh + up * (yh - yl + 1), zh)
    modifies sf.blocks, sf.data
    ensures forall x, y, z {:trigger sf.blocks[y, z, x]} {:trigger sf.data[y, z, x]} | sf.InBounds(x, y, z) && xl <= x <= xh && zl <= z <= zh &&
        yl <= y <= yh + up * (yh - yl + 1) ::
      sf.blocks[y, z, x] == old(sf.blocks[Fold(y, yl, yh - yl + 1), z, x]) &&
      sf.data[y, z, x] == old(sf.data[Fold(y, yl, yh - yl + 1), z, x])
    ensures forall x, y, z {:trigger sf.blocks[y, z, x]} {:trigger sf.data[y, z, x]} | sf.InBounds(x, y, z) && !(xl <= x <= xh && zl <= z <= zh &&
        yl <= y <= yh + up * (yh - yl + 1)) ::
      sf.blocks[y, z, x] == old(sf.blocks[y, z, x]) && sf.data[y, z, x] == old(sf.data[y, z, x])
  {
    var height := yh - yl + 1;
    forall y | yl <= y <= yh ensures Fold(y, yl, height) == y {
      FoldTile(y, yl, height, 0);
    }
    var i := 0;
    var top := yh;
    while i < up
      invariant 0 <= i <= up && top == yh + i * height
      invariant forall x, y, z {:trigger sf.blocks[y, z, x]} {:trigger sf.data[y, z, x]} | sf.InBounds(x, y, z) && xl <= x <= xh && zl <= z <= zh &&
          yl <= y <= top ::
        sf.blocks[y, z, x] == old(sf.blocks[Fold(y, yl, height), z, x]) &&
        sf.data[y, z, x] == old(sf.data[Fold(y, yl, height), z, x])
      invariant forall x, y, z {:trigger sf.blocks[y, z, x]} {:trigger sf.data[y, z, x]} | sf.InBounds(x, y, z) && !(xl <= x <= xh && zl <= z <= zh &&
          yl <= y <= top) ::
        sf.blocks[y, z, x] == old(sf.blocks[y, z, x]) && sf.data[y, z, x] == old(sf.data[y, z, x])
    {
      var c, lo := i + 1, top + 1;
      NextTile(yl, yh, i, up, top, lo);
      label Before:
      CopyLayerUp(sf, xl, yl, zl, xh, yh, zh, c, lo);
      var hi := yh + lo - yl;
      forall x, y, z {:trigger sf.blocks[y, z, x]} {:trigger sf.data[y, z, x]} | sf.InBounds(x, y, z) && xl <= x <= xh && zl <= z <= zh && yl <= y <= hi
        ensures sf.blocks[y, z, x] == old(sf.blocks[Fold(y, yl, height), z, x])
        ensures sf.data[y, z, x] == old(sf.data[Fold(y, yl, height), z, x])
      {
        if lo <= y {
          var r := Fold(y, yl, height);
          assert sf.blocks[y, z, x] == old@Before(sf.blocks[r, z, x]);
          assert sf.data[y, z, x] == old@Before(sf.data[r, z, x]);
        } else {
          assert sf.blocks[y, z, x] == old@Before(sf.blocks[y, z, x]);
          assert sf.data[y, z, x] == old@Before(sf.data[y, z, x]);
        }
      }
      forall x, y, z {:trigger sf.blocks[y, z, x]} {:trigger sf.data[y, z, x]} | sf.InBounds(x, y, z) && !(xl <= x <= xh && zl <= z <= zh && yl <= y <= hi)
        ensures sf.blocks[y, z, x] == old(sf.blocks[y, z, x]) && sf.data[y, z, x] == old(sf.data[y, z, x])
      {
        assert sf.blocks[y, z, x] == old@Before(sf.blocks[y, z, x]);
      }
      i, top := c, hi;
    }
  }

  /** One pass of the second loop of `stack_area`: copies the region onto
      the c-th slice along z, [lo, zh + lo - zl]. */
  method CopyLayerEast(sf: Schematic, xl: int, yl: int, zl: int, xh: int, yh: int, zh: int, c: int, lo: int)
    requires sf.Valid() && xl <= xh && yl <= yh && zl <= zh && c > 0 && lo == zl + c * (zh - zl + 1) && zh < lo
    requires sf.InBounds(xl, yl, zl) && sf.InBounds(xh, yh, zh + lo - zl)
    modifies sf.blocks, sf.data
    ensures forall x, y, z {:trigger sf.blocks[y, z, x]} {:trigger sf.data[y, z, x]} | sf.InBounds(x, y, z) && xl <= x <= xh && yl <= y <= yh &&
        lo <= z <= zh + lo - zl ::
      sf.blocks[y, z, x] == old(sf.blocks[y, Fold(z, zl, zh - zl + 1), x]) &&
      sf.data[y, z, x] == old(sf.data[y, Fold(z, zl, zh - zl + 1), x])
    ensures forall x, y, z {:trigger sf.blocks[y, z, x]} {:trigger sf.data[y, z, x]} | sf.InBounds(x, y, z) && !(xl <= x <= xh && yl <= y <= yh &&
        lo <= z <= zh + lo - zl) ::
      sf.blocks[y, z, x] == old(sf.blocks[y, z, x]) && sf.data[y, z, x] == old(sf.data[y, z, x])
  {
    var width := zh - zl + 1;
    var dz := lo - zl;
    CopyShifted(sf, xl, yl, zl, xh, yh, zh, 0, 0, dz);
    forall z | lo <= z <= zh + dz ensures Fold(z, zl, width) == z - dz {
      FoldShift(z, zl, width, c, lo);
    }
  }

  /** The second loop of `stack_area`: `east` copies of the (already grown)
      region, each `width` cells further along z. */
  method StackEast(sf: Schematic, xl: int, yl: int, zl: int, xh: int, yh: int, zh: int, east: nat)
    requires sf.Valid() && xl <= xh && yl <= yh && zl <= zh
    requires sf.InBounds(xl, yl, zl) && sf.InBounds(xh, yh, zh) && sf.InBounds(xh, yh, zh + east * (zh - zl + 1))
    modifies sf.blocks, sf.data
    ensures forall x, y, z {:trigger sf.blocks[y, z, x]} {:trigger sf.data[y, z, x]} | sf.InBounds(x, y, z) && xl <= x <= xh && yl <= y <= yh &&
        zl <= z <= zh + east * (zh - zl + 1) ::
      sf.blocks[y, z, x] == old(sf.blocks[y, Fold(z, zl, zh - zl + 1), x]) &&
      sf.data[y, z, x] == old(sf.data[y, Fold(z, zl, zh - zl + 1), x])
    ensures forall x, y, z {:trigger sf.blocks[y, z, x]} {:trigger sf.data[y, z, x]} | sf.InBounds(x, y, z) && !(xl <= x <= xh && yl <= y <= yh &&
        zl <= z <= zh + east * (zh - zl + 1)) ::
      sf.blocks[y, z, x] == old(sf.blocks[y, z, x]) && sf.data[y, z, x] == old(sf.data[y, z, x])
  {
    var width := zh - zl + 1;
    forall z | zl <= z <= zh ensures Fold(z, zl, width) == z {
      FoldTile(z, zl, width, 0);
    }
    var i := 0;
    var top := zh;
    while i < east
      invariant 0 <= i <= east && top == zh + i * width
      invariant forall x, y, z {:trigger sf.blocks[y, z, x]} {:trigger sf.data[y, z, x]} | sf.InBounds(x, y, z) && xl <= x <= xh && yl <= y <= yh &&
          zl <= z <= top ::
        sf.blocks[y, z, x] == old(sf.blocks[y, Fold(z, zl, width), x]) &&
        sf.data[y, z, x] == old(sf.data[y, Fold(z, zl, width), x])
      invariant forall x, y, z {:trigger sf.blocks[y, z, x]} {:trigger sf.data[y, z, x]} | sf.InBounds(x, y, z) && !(xl <= x <= xh && yl <= y <= yh &&
          zl <= z <= top) ::
        sf.blocks[y, z, x] == old(sf.blocks[y, z, x]) && sf.data[y, z, x] == old(sf.data[y, z, x])
    {
      var c, lo := i + 1, top + 1;
      NextTile(zl, zh, i, east, top, lo);
      label Before:
      CopyLayerEast(sf, xl, yl, zl, xh, yh, zh, c, lo);
      var hi := zh + lo - zl;
      forall x, y, z {:trigger sf.blocks[y, z, x]} {:trigger sf.data[y, z, x]} | sf.InBounds(x, y, z) && xl <= x <= xh && yl <= y <= yh && zl <= z <= hi
        ensures sf.blocks[y, z, x] == old(sf.blocks[y, Fold(z, zl, width), x])
        ensures sf.data[y, z, x] == old(sf.data[y, Fold(z, zl, width), x])
      {
        if lo <= z {
          var r := Fold(z, zl, width);
          assert sf.blocks[y, z, x] == old@Before(sf.blocks[y, r, x]);
          assert sf.data[y, z, x] == old@Before(sf.data[y, r, x]);
        } else {
          assert sf.blocks[y, z, x] == old@Before(sf.blocks[y, z, x]);
          assert sf.data[y, z, x] == old@Before(sf.data[y, z, x]);
        }
      }
      forall x, y, z {:trigger sf.blocks[y, z, x]} {:trigger sf.data[y, z, x]} | sf.InBounds(x, y, z) && !(xl <= x <= xh && yl <= y <= yh && zl <= z <= hi)
        ensures sf.blocks[y, z, x] == old(sf.blocks[y, z, x]) && sf.data[y, z, x] == old(sf.data[y, z, x])
      {
        assert sf.blocks[y, z, x] == old@Before(sf.blocks[y, z, x]);
      }
      i, top := c, hi;
    }
  }

  /** The (i + 1)-th layer of a region [l, h] repeated n times starts right
      after the i-th, at l + (i + 1) * (h - l + 1), and ends within the n-th. */
  lemma NextTile(l: int, h: int, i: nat, n: nat, top: int, lo: int)
    requires l <= h && i < n && top == h + i * (h - l + 1) && lo == top + 1
    ensures lo == l + (i + 1) * (h - l + 1)
    ensures h + lo - l == h + (i + 1) * (h - l + 1)
    ensures h + lo - l <= h + n * (h - l + 1)
  {
    MulPred(i + 1, h - l + 1);
    MulMonotone(i + 1, n, h - l + 1);
  }

  /** In the c-th tile, which starts at lo, folding subtracts lo - xl. */
  lemma FoldShift(x: int, xl: int, d: int, c: int, lo: int)
    requires d > 0 && lo == xl + c * d && lo <= x < lo + d
    ensures Fold(x, xl, d) == x - (lo - xl)
  {
    FoldTile(x, xl, d, c);
  }

  /** x lies in one of the copies 1..n of the x-range [xl, xh] laid out with
      period d from xl. */
  predicate InCopies(x: int, xl: int, xh: int, d: int, n: nat)
  {
    d > 0 && 1 <= (x - xl) / d <= n && (x - xl) % d <= xh - xl
  }

  /** The copies 1..n are the cells of tiles 1..n, [xl + d, top), whose
      offset in their tile is within the region. */
  lemma InCopiesRange(x: int, xl: int, xh: int, d: int, n: nat, top: int)
    requires xl <= xh && d > xh - xl && top == xl + (n + 1) * d
    ensures InCopies(x, xl, xh, d, n) <==> xl + d <= x < top && Fold(x, xl, d) <= xh
  {
    var q, r := (x - xl) / d, (x - xl) % d;
    assert x - xl == q * d + r && 0 <= r < d;
    if 1 <= q <= n {
      MulMonotone(1, q, d);
      MulMonotone(q + 1, n + 1, d);
      assert (q + 1) * d == q * d + d;
    }
    if xl + d <= x < top {
      if q < 1 {
        MulMonotone(q, 0, d);
      }
      if q > n {
        MulMonotone(n + 1, q, d);
      }
    }
  }

  /** One pass of the third loop of `stack_area`: copies the region onto
      the c-th tile along x, [lo, lo + d), whose first xh - xl + 1 cells
      take the region and whose remaining cells keep their contents. */
  method CopyTileSouth(sf: Schematic, xl: int, yl: int, zl: int, xh: int, yh: int, zh: int,
                       d: int, c: int, lo: int)
    requires sf.Valid() && xl <= xh && yl <= yh && zl <= zh && d > xh - xl && c > 0 && lo == xl + c * d && xh < lo
    requires sf.InBounds(xl, yl, zl) && sf.InBounds(xh + lo - xl, yh, zh)
    modifies sf.blocks, sf.data
    ensures forall x, y, z {:trigger sf.blocks[y, z, x]} {:trigger sf.data[y, z, x]} | sf.InBounds(x, y, z) && yl <= y <= yh && zl <= z <= zh &&
        lo <= x < lo + d ::
      sf.blocks[y, z, x] == old(sf.blocks[y, z, if Fold(x, xl, d) <= xh then Fold(x, xl, d) else x]) &&
      sf.data[y, z, x] == old(sf.data[y, z, if Fold(x, xl, d) <= xh then Fold(x, xl, d) else x])
    ensures forall x, y, z {:trigger sf.blocks[y, z, x]} {:trigger sf.data[y, z, x]} | sf.InBounds(x, y, z) && !(yl <= y <= yh && zl <= z <= zh &&
        lo <= x < lo + d) ::
      sf.blocks[y, z, x] == old(sf.blocks[y, z, x]) && sf.data[y, z, x] == old(sf.data[y, z, x])
  {
    var dx := lo - xl;
    CopyShifted(sf, xl, yl, zl, xh, yh, zh, dx, 0, 0);
    forall x | lo <= x < lo + d ensures Fold(x, xl, d) == x - dx {
      FoldShift(x, xl, d, c, lo);
    }
  }

  /** The third loop of `stack_area`: `south` copies of the region along x,
      the c-th starting at xl + c * d. */
  method StackSouth(sf: Schematic, xl: int, yl: int, zl: int, xh: int, yh: int, zh: int,
                    south: nat, d: int)
    requires sf.Valid() && xl <= xh && yl <= yh && zl <= zh && d > xh - xl
    requires sf.InBounds(xl, yl, zl) && sf.InBounds(xh, yh, zh) && sf.InBounds(xh + south * d, yh, zh)
    modifies sf.blocks, sf.data
    ensures forall x, y, z {:trigger sf.blocks[y, z, x]} {:trigger sf.data[y, z, x]} | sf.InBounds(x, y, z) && yl <= y <= yh && zl <= z <= zh &&
        InCopies(x, xl, xh, d, south) ::
      sf.blocks[y, z, x] == old(sf.blocks[y, z, Fold(x, xl, d)]) &&
      sf.data[y, z, x] == old(sf.data[y, z, Fold(x, xl, d)])
    ensures forall x, y, z {:trigger sf.blocks[y, z, x]} {:trigger sf.data[y, z, x]} | sf.InBounds(x, y, z) && !(yl <= y <= yh && zl <= z <= zh &&
        InCopies(x, xl, xh, d, south)) ::
      sf.blocks[y, z, x] == old(sf.blocks[y, z, x]) && sf.data[y, z, x] == old(sf.data[y, z, x])
  {
    var i := 0;
    var lo := xl + d;
    while i < south
      invariant 0 <= i <= south && lo == xl + (i + 1) * d
      invariant forall x, y, z {:trigger sf.blocks[y, z, x]} {:trigger sf.data[y, z, x]} | sf.InBounds(x, y, z) && yl <= y <= yh && zl <= z <= zh &&
          xl + d <= x < lo ::
        sf.blocks[y, z, x] == old(sf.blocks[y, z, if Fold(x, xl, d) <= xh then Fold(x, xl, d) else x]) &&
        sf.data[y, z, x] == old(sf.data[y, z, if Fold(x, xl, d) <= xh then Fold(x, xl, d) else x])
      invariant forall x, y, z {:trigger sf.blocks[y, z, x]} {:trigger sf.data[y, z, x]} | sf.InBounds(x, y, z) && !(yl <= y <= yh && zl <= z <= zh &&
          xl + d <= x < lo) ::
        sf.blocks[y, z, x] == old(sf.blocks[y, z, x]) && sf.data[y, z, x] == old(sf.data[y, z, x])
    {
      var c, next := i + 1, lo + d;
      SouthBounds(xl, xh, d, i, south, lo, next);
      label Before:
      CopyTileSouth(sf, xl, yl, zl, xh, yh, zh, d, c, lo);
      forall x, y, z {:trigger sf.blocks[y, z, x]} {:trigger sf.data[y, z, x]} | sf.InBounds(x, y, z) && yl <= y <= yh && zl <= z <= zh && xl + d <= x < next
        ensures sf.blocks[y, z, x] == old(sf.blocks[y, z, if Fold(x, xl, d) <= xh then Fold(x, xl, d) else x])
        ensures sf.data[y, z, x] == old(sf.data[y, z, if Fold(x, xl, d) <= xh then Fold(x, xl, d) else x])
      {
        if lo <= x {
          var r := if Fold(x, xl, d) <= xh then Fold(x, xl, d) else x;
          assert sf.blocks[y, z, x] == old@Before(sf.blocks[y, z, r]);
          assert sf.data[y, z, x] == old@Before(sf.data[y, z, r]);
        } else {
          assert sf.blocks[y, z, x] == old@Before(sf.blocks[y, z, x]);
          assert sf.data[y, z, x] == old@Before(sf.data[y, z, x]);
        }
      }
      forall x, y, z {:trigger sf.blocks[y, z, x]} {:trigger sf.data[y, z, x]} | sf.InBounds(x, y, z) && !(yl <= y <= yh && zl <= z <= zh && xl + d <= x < next)
        ensures sf.blocks[y, z, x] == old(sf.blocks[y, z, x]) && sf.data[y, z, x] == old(sf.data[y, z, x])
      {
        assert sf.blocks[y, z, x] == old@Before(sf.blocks[y, z, x]);
      }
      i, lo := c, next;
    }
    forall x | true
      ensures InCopies(x, xl, xh, d, south) <==> xl + d <= x < lo && Fold(x, xl, d) <= xh
    {
      InCopiesRange(x, xl, xh, d, south, lo);
    }
  }

  /** The (i + 1)-th south tile starts at lo, past the region, and its
      copied part ends within the last copy; the next tile starts at next. */
  lemma SouthBounds(xl: int, xh: int, d: int, i: nat, south: nat, lo: int, next: int)
    requires xl <= xh && d > xh - xl && i < south
    requires lo == xl + (i + 1) * d && next == lo + d
    ensures xh < lo && xh + lo - xl <= xh + south * d
    ensures next == xl + (i + 2) * d
  {
    MulMonotone(i + 1, south, d);
    MulMonotone(1, i + 1, d);
    MulPred(i + 2, d);
  }

  /** The first two loops of `stack_area`: the region grown `up` times
      upwards and then `east` times along z. Every cell of the grown block
      holds the region cell at the same offset within its repetition; no
      other cell changes. */
  method StackGrow(sf: Schematic, xl: int, yl: int, zl: int, xh: int, yh: int, zh: int,
                   up: nat, east: nat)
    requires sf.Valid() && xl <= xh && yl <= yh && zl <= zh
    requires sf.InBounds(xl, yl, zl) && sf.InBounds(xh, yh, zh) && sf.InBounds(xh, yh + up * (yh - yl + 1), zh + east * (zh - zl + 1))
    modifies sf.blocks, sf.data
    ensures forall x, y, z {:trigger sf.blocks[y, z, x]} {:trigger sf.data[y, z, x]} | sf.InBounds(x, y, z) && xl <= x <= xh &&
        yl <= y <= yh + up * (yh - yl + 1) && zl <= z <= zh + east * (zh - zl + 1) ::
      sf.blocks[y, z, x] == old(sf.blocks[Fold(y, yl, yh - yl + 1), Fold(z, zl, zh - zl + 1), x]) &&
      sf.data[y, z, x] == old(sf.data[Fold(y, yl, yh - yl + 1), Fold(z, zl, zh - zl + 1), x])
    ensures forall x, y, z {:trigger sf.blocks[y, z, x]} {:trigger sf.data[y, z, x]} | sf.InBounds(x, y, z) &&
        !(xl <= x <= xh && yl <= y <= yh + up * (yh - yl + 1) && zl <= z <= zh + east * (zh - zl + 1)) ::
      sf.blocks[y, z, x] == old(sf.blocks[y, z, x]) && sf.data[y, z, x] == old(sf.data[y, z, x])
  {
    var ytop := yh + up * (yh - yl + 1);
    MulMonotone(0, up, yh - yl + 1);
    MulMonotone(0, east, zh - zl + 1);
    StackUp(sf, xl, yl, zl, xh, yh, zh, up);
    label Up:
    StackEast(sf, xl, yl, zl, xh, ytop, zh, east);
    forall x, y, z {:trigger sf.blocks[y, z, x]} {:trigger sf.data[y, z, x]} | sf.InBounds(x, y, z) && xl <= x <= xh &&
        yl <= y <= ytop && zl <= z <= zh + east * (zh - zl + 1)
      ensures sf.blocks[y, z, x] == old(sf.blocks[Fold(y, yl, yh - yl + 1), Fold(z, zl, zh - zl + 1), x])
      ensures sf.data[y, z, x] == old(sf.data[Fold(y, yl, yh - yl + 1), Fold(z, zl, zh - zl + 1), x])
    {
      var z' := Fold(z, zl, zh - zl + 1);
      assert sf.blocks[y, z, x] == old@Up(sf.blocks[y, z', x]);
      assert sf.data[y, z, x] == old@Up(sf.data[y, z', x]);
    }
  }

  /** `stack_area`: repeats the region `up` times upwards, then the grown
      column `east` times along z, then `south` times along x. As in the
      source, the period along x is x_hi + x_lo + 1 (the region's depth only
      when x_lo is 0) and the south copies reach z_hi + up * width along z,
      where the east copies end at z_hi + east * width. Every cell of the
      grown block holds the region cell at the same offset within its
      repetition; every south copy holds, up to the east copies' end, the
      same, and above it what the canvas held at the copy's source column;
      no other cell changes. */
  method StackArea(sf: Schematic, xl: int, yl: int, zl: int, xh: int, yh: int, zh: int,
                   up: nat, east: nat, south: nat)
    requires sf.Valid() && 0 <= xl <= xh && yl <= yh && zl <= zh
    requires sf.InBounds(xl, yl, zl) && sf.InBounds(xh, yh, zh)
    requires sf.InBounds(xh, yh + up * (yh - yl + 1), zh + east * (zh - zl + 1))
    requires south > 0 ==>
      sf.InBounds(xh + south * (xh + xl + 1), yh + up * (yh - yl + 1), zh + up * (zh - zl + 1))
    modifies sf.blocks, sf.data
    ensures forall x, y, z {:trigger sf.blocks[y, z, x]} {:trigger sf.data[y, z, x]} | sf.InBounds(x, y, z) && xl <= x <= xh &&
        yl <= y <= yh + up * (yh - yl + 1) && zl <= z <= zh + east * (zh - zl + 1) ::
      sf.blocks[y, z, x] == old(sf.blocks[Fold(y, yl, yh - yl + 1), Fold(z, zl, zh - zl + 1), x]) &&
      sf.data[y, z, x] == old(sf.data[Fold(y, yl, yh - yl + 1), Fold(z, zl, zh - zl + 1), x])
    ensures forall x, y, z {:trigger sf.blocks[y, z, x]} {:trigger sf.data[y, z, x]} | sf.InBounds(x, y, z) && InCopies(x, xl, xh, xh + xl + 1, south) &&
        yl <= y <= yh + up * (yh - yl + 1) && zl <= z <= zh + up * (zh - zl + 1) ::
      if z <= zh + east * (zh - zl + 1) then
        sf.blocks[y, z, x] ==
          old(sf.blocks[Fold(y, yl, yh - yl + 1), Fold(z, zl, zh - zl + 1), Fold(x, xl, xh + xl + 1)]) &&
        sf.data[y, z, x] ==
          old(sf.data[Fold(y, yl, yh - yl + 1), Fold(z, zl, zh - zl + 1), Fold(x, xl, xh + xl + 1)])
      else
        sf.blocks[y, z, x] == old(sf.blocks[y, z, Fold(x, xl, xh + xl + 1)]) &&
        sf.data[y, z, x] == old(sf.data[y, z, Fold(x, xl, xh + xl + 1)])
    ensures forall x, y, z {:trigger sf.blocks[y, z, x]} {:trigger sf.data[y, z, x]} | sf.InBounds(x, y, z) &&
        !(xl <= x <= xh && yl <= y <= yh + up * (yh - yl + 1) && zl <= z <= zh + east * (zh - zl + 1)) &&
        !(InCopies(x, xl, xh, xh + xl + 1, south) &&
          yl <= y <= yh + up * (yh - yl + 1) && zl <= z <= zh + up * (zh - zl + 1)) ::
      sf.blocks[y, z, x] == old(sf.blocks[y, z, x]) && sf.data[y, z, x] == old(sf.data[y, z, x])
  {
    var depth := xh + xl + 1;
    var ytop, ztop := yh + up * (yh - yl + 1), zh + up * (zh - zl + 1);
    MulMonotone(0, up, yh - yl + 1);
    MulMonotone(0, up, zh - zl + 1);
    StackGrow(sf, xl, yl, zl, xh, yh, zh, up, east);
    label Grown:
    if south > 0 {
      StackSouth(sf, xl, yl, zl, xh, ytop, ztop, south, depth);
    }
    forall x | xl <= x <= xh ensures Fold(x, xl, depth) == x && !InCopies(x, xl, xh, depth, south) {
      FoldTile(x, xl, depth, 0);
      TileIndex(x, xl, depth, 0);
    }
    forall x, y, z {:trigger sf.blocks[y, z, x]} {:trigger sf.data[y, z, x]} | sf.InBounds(x, y, z) && InCopies(x, xl, xh, depth, south) &&
        yl <= y <= ytop && zl <= z <= ztop
      ensures if z <= zh + east * (zh - zl + 1) then
          sf.blocks[y, z, x] ==
            old(sf.blocks[Fold(y, yl, yh - yl + 1), Fold(z, zl, zh - zl + 1), Fold(x, xl, depth)]) &&
          sf.data[y, z, x] ==
            old(sf.data[Fold(y, yl, yh - yl + 1), Fold(z, zl, zh - zl + 1), Fold(x, xl, depth)])
        else
          sf.blocks[y, z, x] == old(sf.blocks[y, z, Fold(x, xl, depth)]) &&
          sf.data[y, z, x] == old(sf.data[y, z, Fold(x, xl, depth)])
    {
      var x' := Fold(x, xl, depth);
      assert sf.blocks[y, z, x] == old@Grown(sf.blocks[y, z, x']);
      assert sf.data[y, z, x] == old@Grown(sf.data[y, z, x']);
    }
  }

  /** The h cells of array a above (x, yl, z), bottom first. */
  ghost function Column(a: array3<int>, x: int, z: int, yl: int, h: int): (c: seq<int>)
    requires 0 <= x < a.Length2 && 0 <= z < a.Length1 && 0 <= yl && h >= 0 && yl + h <= a.Length0
    reads a
    ensures |c| == h && forall q | 0 <= q < h :: c[q] == a[yl + q, z, x]
  {
    seq(h, q requires 0 <= q < h reads a => a[yl + q, z, x])
  }

  /** The two assignments of the juggling loop: offset q of the column
      (x, z) from yl takes the given block id and data byte; nothing else
      changes. */
  method PutCell(sf: Schematic, x: int, z: int, yl: int, h: int, q: int, block: int, datum: int)
    requires sf.Valid() && sf.InBounds(x, yl, z) && sf.InBounds(x, yl + h - 1, z) && 0 <= q < h
    modifies sf.blocks, sf.data
    ensures Column(sf.blocks, x, z, yl, h) == old(Column(sf.blocks, x, z, yl, h))[q := block]
    ensures Column(sf.data, x, z, yl, h) == old(Column(sf.data, x, z, yl, h))[q := datum]
    ensures forall x', y', z' {:trigger sf.blocks[y', z', x']} {:trigger sf.data[y', z', x']} |
        sf.InBounds(x', y', z') && !(x' == x && z' == z && yl <= y' < yl + h) ::
      sf.blocks[y', z', x'] == old(sf.blocks[y', z', x']) && sf.data[y', z', x'] == old(sf.data[y', z', x'])
  {
    sf.blocks[yl + q, z, x] := block;
    sf.data[yl + q, z, x] := datum;
  }

  /** A column c of h cells after the first m moves of the juggling cycle
      from offset i: move n copies the cell at the orbit's (n+1)-th position
      into its n-th. */
  ghost function Juggle(c: seq<int>, i: int, t: int, h: int, m: nat): (r: seq<int>)
    requires |c| == h && 0 <= i < h && 0 <= t <= h
    ensures |r| == h
  {
    if m == 0 then c
    else
      var p := Juggle(c, i, t, h, m - 1);
      p[Orbit(i, t, h, m - 1) := p[Orbit(i, t, h, m)]]
  }

  /** Move m + 1 copies the orbit's next position into its current one. */
  lemma JuggleStep(c: seq<int>, i: int, t: int, h: int, m: nat)
    requires |c| == h && 0 <= i < h && 0 <= t <= h
    ensures Juggle(c, i, t, h, m + 1) ==
      Juggle(c, i, t, h, m)[Orbit(i, t, h, m) := Juggle(c, i, t, h, m)[Orbit(i, t, h, m + 1)]]
  {
  }

  /** While the orbit has not come back to i, the first m moves leave each
      visited offset holding what the offset one step further held at the
      start, and every other offset untouched. */
  lemma {:induction false} JuggleVisits(c: seq<int>, i: int, t: int, h: int, m: nat)
    requires |c| == h && 0 <= i < h && 0 <= t <= h
    requires forall n | 1 <= n <= m :: Orbit(i, t, h, n) != i
    ensures forall q | 0 <= q < h ::
      Juggle(c, i, t, h, m)[q] == c[if q in Visits(i, t, h, m) then Step(q, t, h) else q]
  {
    if m > 0 {
      JuggleVisits(c, i, t, h, m - 1);
      NotYetVisited(i, t, h, m - 1, m);
    }
  }

  /** Column c after the juggling cycle of the residue class i modulo
      gcd(t, h): each offset of the class holds what the offset one step
      further held, every other offset what it held. */
  ghost function ClassCycled(c: seq<int>, i: int, t: nat, h: nat): (r: seq<int>)
    requires |c| == h && t <= h
    ensures |r| == h
    ensures forall q | 0 <= q < h :: r[q] == c[if q % Gcd(t, h) == i then Step(q, t, h) else q]
  {
    seq(h, q requires 0 <= q < h => c[if q % Gcd(t, h) == i then Step(q, t, h) else q])
  }

  /** Closing the cycle: once the next step returns to i, writing the saved
      start cell into the last visited offset completes the cycle of i's
      residue class. */
  lemma JuggleClose(c: seq<int>, i: int, t: nat, h: nat, m: nat)
    requires |c| == h && 0 <= i < h && t <= h && i < Gcd(t, h)
    requires forall n | 1 <= n <= m :: Orbit(i, t, h, n) != i
    requires Orbit(i, t, h, m + 1) == i
    ensures Juggle(c, i, t, h, m)[Orbit(i, t, h, m) := c[i]] == ClassCycled(c, i, t, h)
  {
    JuggleVisits(c, i, t, h, m);
    VisitsIsClass(i, t, h, m + 1);
    var o := Orbit(i, t, h, m);
    assert Visits(i, t, h, m + 1) == Visits(i, t, h, m) + {o};
    forall q | 0 <= q < h
      ensures Juggle(c, i, t, h, m)[o := c[i]][q] == ClassCycled(c, i, t, h)[q]
    {
      if q == o {
        assert Step(o, t, h) == i && o in Visits(i, t, h, m + 1);
      } else {
        assert q in Visits(i, t, h, m + 1) <==> q in Visits(i, t, h, m);
      }
    }
  }

  /** One pass of the `for i in range(gcd(times, height))` loop of
      `cycle_area_down` on the column (x, z): the juggling cycle that starts
      at offset i. It walks i, Step(i), Step(Step(i)), ... until the next
      step would return to i, moving each visited cell's successor into it
      and the saved start cell into the last one; the walk covers exactly
      i's residue class modulo gcd(t, h), and no cell outside the column
      changes. */
  method JuggleCycle(sf: Schematic, x: int, z: int, yl: int, h: int, t: int, i: int)
    requires sf.Valid() && 0 <= t <= h && 0 <= i < Gcd(t, h) && i < h
    requires sf.InBounds(x, yl, z) && sf.InBounds(x, yl + h - 1, z)
    modifies sf.blocks, sf.data
    ensures Column(sf.blocks, x, z, yl, h) == ClassCycled(old(Column(sf.blocks, x, z, yl, h)), i, t, h)
    ensures Column(sf.data, x, z, yl, h) == ClassCycled(old(Column(sf.data, x, z, yl, h)), i, t, h)
    ensures forall x', y', z' {:trigger sf.blocks[y', z', x']} {:trigger sf.data[y', z', x']} |
        sf.InBounds(x', y', z') && !(x' == x && z' == z && yl <= y' < yl + h) ::
      sf.blocks[y', z', x'] == old(sf.blocks[y', z', x']) && sf.data[y', z', x'] == old(sf.data[y', z', x'])
  {
    ghost var B := Column(sf.blocks, x, z, yl, h);
    ghost var D := Column(sf.data, x, z, yl, h);
    ghost var L := FirstReturn(i, t, h);
    var tempBlock := sf.blocks[yl + i, z, x];
    var tempData := sf.data[yl + i, z, x];
    var j := i;
    ghost var m: nat := 0;  // the moves made so far
    while true
      invariant 0 <= m < L && j == Orbit(i, t, h, m)
      invariant Column(sf.blocks, x, z, yl, h) == Juggle(B, i, t, h, m)
      invariant Column(sf.data, x, z, yl, h) == Juggle(D, i, t, h, m)
      invariant forall x', y', z' {:trigger sf.blocks[y', z', x']} {:trigger sf.data[y', z', x']} |
          sf.InBounds(x', y', z') && !(x' == x && z' == z && yl <= y' < yl + h) ::
        sf.blocks[y', z', x'] == old(sf.blocks[y', z', x']) && sf.data[y', z', x'] == old(sf.data[y', z', x'])
      decreases L - m
    {
      var k := j + t;
      if k >= h {
        k := k - h;
      }
      if k == i {
        break;
      }
      assert k == Orbit(i, t, h, m + 1);
      ghost var PB, PD := Juggle(B, i, t, h, m), Juggle(D, i, t, h, m);
      JuggleStep(B, i, t, h, m);
      JuggleStep(D, i, t, h, m);
      PutCell(sf, x, z, yl, h, j, sf.blocks[yl + k, z, x], sf.data[yl + k, z, x]);
      m := m + 1;
      j := k;
    }
    JuggleClose(B, i, t, h, m);
    JuggleClose(D, i, t, h, m);
    PutCell(sf, x, z, yl, h, j, tempBlock, tempData);
  }

  /** What `cycle_area_down` does to one column c of height |c|: every cell
      takes the value of the cell t above it, and the top t cells those of
      the bottom t. */
  function RotateDown(c: seq<int>, t: nat): (r: seq<int>)
    requires t <= |c|
    ensures |r| == |c|
  {
    c[t..] + c[..t]
  }

  /** Cell q of the rotated column is cell (q + t) mod |c| of the original. */
  lemma RotateDownIndex(c: seq<int>, t: nat)
    requires t <= |c|
    ensures forall q | 0 <= q < |c| :: RotateDown(c, t)[q] == c[(q + t) % |c|]
  {
    forall q | 0 <= q < |c|
      ensures RotateDown(c, t)[q] == c[(q + t) % |c|]
    {
      ModSmall(q + t, |c|);
    }
  }

  /** Rotating keeps every value: the result is a permutation of the column. */
  lemma RotateDownPermutes(c: seq<int>, t: nat)
    requires t <= |c|
    ensures multiset(RotateDown(c, t)) == multiset(c)
  {
    assert c == c[..t] + c[t..];
  }

  /** Rotating down by t and then by |c| - t gives the column back. */
  lemma RotateDownInverse(c: seq<int>, t: nat)
    requires t <= |c|
    ensures RotateDown(RotateDown(c, t), |c| - t) == c
  {
    var r := RotateDown(c, t);
    assert r[|c| - t..] == c[..t];
    assert r[..|c| - t] == c[t..];
  }

  /** Two rotations compose into one by the sum of their distances, taken
      modulo the height. */
  lemma RotateDownCompose(c: seq<int>, a: nat, b: nat)
    requires a <= |c| && b <= |c|
    ensures RotateDown(RotateDown(c, a), b) == RotateDown(c, if a + b >= |c| then a + b - |c| else a + b)
  {
    var h := |c|;
    var s := if a + b >= h then a + b - h else a + b;
    RotateDownIndex(c, a);
    RotateDownIndex(RotateDown(c, a), b);
    RotateDownIndex(c, s);
    forall q | 0 <= q < h
      ensures RotateDown(RotateDown(c, a), b)[q] == RotateDown(c, s)[q]
    {
      ModAddReduce(q + b, a, h);
      ModShift(q + a + b, -1, h);
    }
  }

  /** Column c after the juggling cycles of the residue classes 0 .. k - 1
      modulo gcd(t, |c|). */
  ghost function Cycled(c: seq<int>, t: nat, k: int): (r: seq<int>)
    requires t <= |c|
    ensures |r| == |c|
    ensures forall q | 0 <= q < |c| :: r[q] == c[if q % Gcd(t, |c|) < k then Step(q, t, |c|) else q]
  {
    seq(|c|, q requires 0 <= q < |c| => c[if q % Gcd(t, |c|) < k then Step(q, t, |c|) else q])
  }

  /** Before any cycle the column is untouched. */
  lemma CycledNone(c: seq<int>, t: nat)
    requires t <= |c|
    ensures Cycled(c, t, 0) == c
  {
  }

  /** The cycle of class i reads only cells of class i, which the earlier
      cycles left alone; so it extends the classes done by one. */
  lemma CycledNext(c: seq<int>, t: nat, i: int)
    requires t <= |c| && 0 <= i < Gcd(t, |c|)
    ensures ClassCycled(Cycled(c, t, i), i, t, |c|) == Cycled(c, t, i + 1)
  {
    var h := |c|;
    GcdDivides(t, h);
    forall q | 0 <= q < h
      ensures ClassCycled(Cycled(c, t, i), i, t, h)[q] == Cycled(c, t, i + 1)[q]
    {
      StepClass(q, t, h, Gcd(t, h));
    }
  }

  /** Once every class has had its cycle, the column is rotated down by t. */
  lemma CycledAll(c: seq<int>, t: nat)
    requires t <= |c|
    ensures Cycled(c, t, Gcd(t, |c|)) == RotateDown(c, t)
  {
    var h := |c|;
    forall q | 0 <= q < h
      ensures Cycled(c, t, Gcd(t, h))[q] == RotateDown(c, t)[q]
    {
      assert q % Gcd(t, h) < Gcd(t, h);
      assert Step(q, t, h) == if q < h - t then q + t else q + t - h;
    }
  }

  /** The `for i in range(gcd(times, height))` loop of `cycle_area_down` on
      the column (x, z) from yl: the column is rotated down by t, and no
      cell outside it changes. */
  method RotateColumn(sf: Schematic, x: int, z: int, yl: int, h: int, t: int)
    requires sf.Valid() && 0 <= t <= h
    requires sf.InBounds(x, yl, z) && sf.InBounds(x, yl + h - 1, z)
    modifies sf.blocks, sf.data
    ensures Column(sf.blocks, x, z, yl, h) == RotateDown(old(Column(sf.blocks, x, z, yl, h)), t)
    ensures Column(sf.data, x, z, yl, h) == RotateDown(old(Column(sf.data, x, z, yl, h)), t)
    ensures forall y {:trigger sf.blocks[y, z, x]} {:trigger sf.data[y, z, x]} | yl <= y < yl + h ::
      sf.blocks[y, z, x] == old(sf.blocks[yl + (y - yl + t) % h, z, x]) &&
      sf.data[y, z, x] == old(sf.data[yl + (y - yl + t) % h, z, x])
    ensures forall x', y', z' {:trigger sf.blocks[y', z', x']} {:trigger sf.data[y', z', x']} |
        sf.InBounds(x', y', z') && !(x' == x && z' == z && yl <= y' < yl + h) ::
      sf.blocks[y', z', x'] == old(sf.blocks[y', z', x']) && sf.data[y', z', x'] == old(sf.data[y', z', x'])
  {
    ghost var B := Column(sf.blocks, x, z, yl, h);
    ghost var D := Column(sf.data, x, z, yl, h);
    CycledNone(B, t);
    CycledNone(D, t);
    if h > 0 {
      GcdDivides(t, h);
      DivisorAtMost(Gcd(t, h), h);
    }
    for i := 0 to Gcd(t, h)
      invariant Column(sf.blocks, x, z, yl, h) == Cycled(B, t, i)
      invariant Column(sf.data, x, z, yl, h) == Cycled(D, t, i)
      invariant forall x', y', z' {:trigger sf.blocks[y', z', x']} {:trigger sf.data[y', z', x']} |
          sf.InBounds(x', y', z') && !(x' == x && z' == z && yl <= y' < yl + h) ::
        sf.blocks[y', z', x'] == old(sf.blocks[y', z', x']) && sf.data[y', z', x'] == old(sf.data[y', z', x'])
    {
      JuggleCycle(sf, x, z, yl, h, t, i);
      CycledNext(B, t, i);
      CycledNext(D, t, i);
    }
    CycledAll(B, t);
    CycledAll(D, t);
    RotateDownIndex(B, t);
    RotateDownIndex(D, t);
    forall y | yl <= y < yl + h
      ensures sf.blocks[y, z, x] == B[(y - yl + t) % h] && sf.data[y, z, x] == D[(y - yl + t) % h]
    {
      assert sf.blocks[y, z, x] == Column(sf.blocks, x, z, yl, h)[y - yl];
      assert sf.data[y, z, x] == Column(sf.data, x, z, yl, h)[y - yl];
    }
  }

  /** The `for z in range(z_lo, z_hi + 1)` loop of `cycle_area_down` at one
      x: every column of the strip is rotated down by t, and no cell outside
      the strip changes. */
  method RotateStrip(sf: Schematic, x: int, yl: int, zl: int, zh: int, h: int, t: int)
    requires sf.Valid() && 0 <= t <= h && h >= 1
    requires zl > zh || (sf.InBounds(x, yl, zl) && sf.InBounds(x, yl + h - 1, zh))
    modifies sf.blocks, sf.data
    ensures forall y, z {:trigger sf.blocks[y, z, x]} {:trigger sf.data[y, z, x]} |
        yl <= y < yl + h && zl <= z <= zh ::
      sf.blocks[y, z, x] == old(sf.blocks[yl + (y - yl + t) % h, z, x]) &&
      sf.data[y, z, x] == old(sf.data[yl + (y - yl + t) % h, z, x])
    ensures forall x', y', z' {:trigger sf.blocks[y', z', x']} {:trigger sf.data[y', z', x']} |
        sf.InBounds(x', y', z') && !(x' == x && zl <= z' <= zh && yl <= y' < yl + h) ::
      sf.blocks[y', z', x'] == old(sf.blocks[y', z', x']) && sf.data[y', z', x'] == old(sf.data[y', z', x'])
  {
    var z := zl;
    while z <= zh
      invariant z == zl || zl <= z <= zh + 1
      invariant forall y, z' {:trigger sf.blocks[y, z', x]} {:trigger sf.data[y, z', x]} |
          yl <= y < yl + h && zl <= z' < z ::
        sf.blocks[y, z', x] == old(sf.blocks[yl + (y - yl + t) % h, z', x]) &&
        sf.data[y, z', x] == old(sf.data[yl + (y - yl + t) % h, z', x])
      invariant forall x', y', z' {:trigger sf.blocks[y', z', x']} {:trigger sf.data[y', z', x']} |
          sf.InBounds(x', y', z') && !(x' == x && zl <= z' < z && yl <= y' < yl + h) ::
        sf.blocks[y', z', x'] == old(sf.blocks[y', z', x']) && sf.data[y', z', x'] == old(sf.data[y', z', x'])
    {
      RotateColumn(sf, x, z, yl, h, t);
      z := z + 1;
    }
  }

  /** `cycle_area_down`: every column (x, z) of the box is rotated down by
      `times` over the box's height, each cell taking the value of the cell
      `times` above it modulo the height, and no cell outside the box
      changes. */
  method CycleAreaDown(sf: Schematic, xl: int, yl: int, zl: int, xh: int, yh: int, zh: int, times: int)
    requires sf.Valid() && yl <= yh && 0 <= times <= yh - yl + 1
    requires BoxOnCanvas(sf, xl, yl, zl, Extent(xl, xh), yh - yl + 1, Extent(zl, zh))
    modifies sf.blocks, sf.data
    ensures forall x, y, z {:trigger sf.blocks[y, z, x]} {:trigger sf.data[y, z, x]} |
        xl <= x <= xh && yl <= y <= yh && zl <= z <= zh ::
      sf.blocks[y, z, x] == old(sf.blocks[yl + (y - yl + times) % (yh - yl + 1), z, x]) &&
      sf.data[y, z, x] == old(sf.data[yl + (y - yl + times) % (yh - yl + 1), z, x])
    ensures forall x, y, z {:trigger sf.blocks[y, z, x]} {:trigger sf.data[y, z, x]} |
        sf.InBounds(x, y, z) && !(xl <= x <= xh && yl <= y <= yh && zl <= z <= zh) ::
      sf.blocks[y, z, x] == old(sf.blocks[y, z, x]) && sf.data[y, z, x] == old(sf.data[y, z, x])
  {
    var height := yh - yl + 1;
    var x := xl;
    while x <= xh
      invariant x == xl || xl <= x <= xh + 1
      invariant forall x', y, z {:trigger sf.blocks[y, z, x']} {:trigger sf.data[y, z, x']} |
          xl <= x' < x && yl <= y <= yh && zl <= z <= zh ::
        sf.blocks[y, z, x'] == old(sf.blocks[yl + (y - yl + times) % height, z, x']) &&
        sf.data[y, z, x'] == old(sf.data[yl + (y - yl + times) % height, z, x'])
      invariant forall x', y, z {:trigger sf.blocks[y, z, x']} {:trigger sf.data[y, z, x']} |
          sf.InBounds(x', y, z) && !(xl <= x' < x && yl <= y <= yh && zl <= z <= zh) ::
        sf.blocks[y, z, x'] == old(sf.blocks[y, z, x']) && sf.data[y, z, x'] == old(sf.data[y, z, x'])
    {
      RotateStrip(sf, x, yl, zl, zh, height, times);
      x := x + 1;
    }
  }
}
