/** What a tile layer holds after the writers have run. */
module TileLayer {
  import opened Common
  import opened PpuDriver
  import opened PpuKernel
  import opened VramOps
  import opened TileWriters

  predicate InCell(layer: nat, x: nat, y: nat, a: nat)
    requires Start(x, y)
  {
    CellAddr(layer, x, y) <= a < CellAddr(layer, x, y) + 2
  }

  /** Cell i of a run of cells along a row, wrapping at the edge. */
  function RowCell(layer: nat, x: nat, y: nat, i: nat): nat
    requires Start(x, y)
  {
    CellAddr(layer, (x + i) % 64, y)
  }

  /** Address a lies in one of the first n cells of the run. */
  predicate InRow(layer: nat, x: nat, y: nat, n: nat, a: nat)
    requires Start(x, y)
  {
    exists i :: 0 <= i < n && RowCell(layer, x, y, i) <= a < RowCell(layer, x, y, i) + 2
  }

  predicate InColumn(layer: nat, x: nat, y: nat, n: nat, a: nat)
    requires Start(x, y)
  {
    exists i :: 0 <= i < n && ColumnCell(layer, x, y, i) <= a < ColumnCell(layer, x, y, i) + 2
  }

  /** Distinct cells of a layer share no byte. */
  lemma CellsApart(layer: nat, x: nat, y: nat, x': nat, y': nat, a: nat)
    requires Start(x, y) && Start(x', y') && InCell(layer, x, y, a) && InCell(layer, x', y', a)
    ensures x == x' && y == y'
  {
  }

  lemma RunByte(ts: seq<Tile>, i: nat, h: nat)
    requires i < |ts| && h < 2
    ensures 2 * i + h < |TilesBytes(ts)| && TilesBytes(ts)[2 * i + h] == TileBytes(ts[i])[h]
  {
    assert (2 * i + h) / 2 == i && (2 * i + h) % 2 == h;
  }

  lemma CellStep(layer: nat, x: nat, y: nat, i: nat)
    requires x + i < 64 && y < 64
    ensures CellAddr(layer, x + i, y) == CellAddr(layer, x, y) + 2 * i
  {
  }

  /** Byte h of tile i of a run written at a cell of row y. */
  lemma RunAt(layer: nat, x: nat, y: nat, ts: seq<Tile>, i: nat, h: nat)
    requires x + i < 64 && y < 64 && i < |ts| && h < 2
    ensures var op := Op(CellAddr(layer, x, y), TilesBytes(ts));
            var a := CellAddr(layer, x + i, y) + h;
            Covers(op, a) && op.data[a - op.offset] == TileBytes(ts[i])[h]
  {
    CellStep(layer, x, y, i);
    RunByte(ts, i, h);
  }

  /** ops write the source along a row: in one piece, or up to the right edge and on from the left. */
  predicate IsRow(ops: seq<Op>, source: seq<Tile>, layer: nat, x: nat, y: nat) {
    && Start(x, y) && |source| <= 64
    && (if x + |source| <= 64 then ops == [Op(CellAddr(layer, x, y), TilesBytes(source))]
        else ops == [Op(CellAddr(layer, x, y), TilesBytes(source[..64 - x])),
                     Op(CellAddr(layer, 0, y), TilesBytes(source[64 - x..]))])
  }

  lemma RowOpsAreRow(tiles: seq<Tile>, layer: nat, x: nat, y: nat, count: nat)
    requires Start(x, y) && tiles != [] && count > 0
    ensures IsRow(RowOps(tiles, layer, x, y, count), Repeated(tiles, count), layer, x, y)
  {
    var source := Repeated(tiles, count);
    if x + |source| <= 64 { assert source[..|source|] == source; }
  }

  /** Write k is the last to cover byte a, and puts b there. */
  predicate Puts(ops: seq<Op>, k: nat, a: nat, b: byte) {
    && k < |ops|
    && Covers(ops[k], a)
    && ops[k].data[a - ops[k].offset] == b
    && (forall j :: k < j < |ops| ==> !Covers(ops[j], a))
  }

  lemma RowPutsWhole(ops: seq<Op>, source: seq<Tile>, layer: nat, x: nat, y: nat, i: nat, h: nat)
    requires IsRow(ops, source, layer, x, y) && i < |source| && h < 2 && x + |source| <= 64
    ensures Puts(ops, 0, RowCell(layer, x, y, i) + h, TileBytes(source[i])[h])
  {
    RunAt(layer, x, y, source, i, h);
  }

  lemma RowPutsFirst(ops: seq<Op>, source: seq<Tile>, layer: nat, x: nat, y: nat, i: nat, h: nat)
    requires IsRow(ops, source, layer, x, y) && i < |source| && h < 2 && x + i < 64 < x + |source|
    ensures Puts(ops, 0, RowCell(layer, x, y, i) + h, TileBytes(source[i])[h])
  {
    RunAt(layer, x, y, source[..64 - x], i, h);
    CellStep(layer, 0, y, x + i);
  }

  lemma RowPutsSecond(ops: seq<Op>, source: seq<Tile>, layer: nat, x: nat, y: nat, i: nat, h: nat)
    requires IsRow(ops, source, layer, x, y) && i < |source| && h < 2 && x + i >= 64
    ensures Puts(ops, 1, RowCell(layer, x, y, i) + h, TileBytes(source[i])[h])
  {
    RunAt(layer, 0, y, source[64 - x..], x + i - 64, h);
  }

  lemma RowByte(v: seq<byte>, ops: seq<Op>, source: seq<Tile>, layer: nat, x: nat, y: nat, i: nat, h: nat)
    requires |v| == VRAM_SIZE && InBounds(ops) && IsRow(ops, source, layer, x, y) && i < |source| && h < 2
    ensures Apply(v, ops)[RowCell(layer, x, y, i) + h] == TileBytes(source[i])[h]
  {
    var k := if x + i < 64 then 0 else 1;
    if x + |source| <= 64 {
      RowPutsWhole(ops, source, layer, x, y, i, h);
    } else if x + i < 64 {
      RowPutsFirst(ops, source, layer, x, y, i, h);
    } else {
      RowPutsSecond(ops, source, layer, x, y, i, h);
    }
    LastWriteWins(v, ops, k, RowCell(layer, x, y, i) + h);
  }

  /** A byte of a run written at cell (x, y) lies in one of its cells. */
  lemma CellOfRun(layer: nat, x: nat, y: nat, n: nat, a: nat) returns (i: nat)
    requires Start(x, y) && x + n <= 64 && CellAddr(layer, x, y) <= a < CellAddr(layer, x, y) + 2 * n
    ensures i < n && CellAddr(layer, x + i, y) <= a < CellAddr(layer, x + i, y) + 2
  {
    i := (a - CellAddr(layer, x, y)) / 2;
    CellStep(layer, x, y, i);
  }

  /** Every byte a horizontal write covers belongs to one of its cells. */
  lemma RowCoversOnlyCells(ops: seq<Op>, source: seq<Tile>, layer: nat, x: nat, y: nat, j: nat, a: nat) returns (i: nat)
    requires IsRow(ops, source, layer, x, y) && j < |ops| && Covers(ops[j], a)
    ensures i < |source| && RowCell(layer, x, y, i) <= a < RowCell(layer, x, y, i) + 2
  {
    if j == 0 {
      i := CellOfRun(layer, x, y, Min(64 - x, |source|), a);
      assert (x + i) % 64 == x + i;
    } else {
      var k := CellOfRun(layer, 0, y, |source| - (64 - x), a);
      i := 64 - x + k;
      assert (x + i) % 64 == k;
    }
  }

  lemma RowElsewhere(v: seq<byte>, ops: seq<Op>, source: seq<Tile>, layer: nat, x: nat, y: nat, a: nat)
    requires |v| == VRAM_SIZE && InBounds(ops) && IsRow(ops, source, layer, x, y) && a < VRAM_SIZE
    requires !InRow(layer, x, y, |source|, a)
    ensures Apply(v, ops)[a] == v[a]
  {
    forall j | 0 <= j < |ops|
      ensures !Covers(ops[j], a)
    {
      if Covers(ops[j], a) {
        var i := RowCoversOnlyCells(ops, source, layer, x, y, j, a);
      }
    }
    UncoveredUnchanged(v, ops, a);
  }

  // ----- columns -----

  lemma ColumnCellsApart(layer: nat, x: nat, y: nat, i: nat, j: nat, a: nat)
    requires Start(x, y) && i < 64 && j < 64
    requires ColumnCell(layer, x, y, i) <= a < ColumnCell(layer, x, y, i) + 2
    requires ColumnCell(layer, x, y, j) <= a < ColumnCell(layer, x, y, j) + 2
    ensures i == j
  {
    CellsApart(layer, x, (y + i) % 64, x, (y + j) % 64, a);
  }

  lemma ColumnByte(v: seq<byte>, ops: seq<Op>, source: seq<Tile>, layer: nat, x: nat, y: nat, i: nat, h: nat)
    requires |v| == VRAM_SIZE && InBounds(ops) && IsColumn(ops, source, layer, x, y) && i < |source| && h < 2
    ensures Apply(v, ops)[ColumnCell(layer, x, y, i) + h] == TileBytes(source[i])[h]
  {
    var a := ColumnCell(layer, x, y, i) + h;
    forall j | i < j < |ops|
      ensures !Covers(ops[j], a)
    {
      if Covers(ops[j], a) { ColumnCellsApart(layer, x, y, i, j, a); }
    }
    LastWriteWins(v, ops, i, a);
  }

  lemma ColumnElsewhere(v: seq<byte>, ops: seq<Op>, source: seq<Tile>, layer: nat, x: nat, y: nat, a: nat)
    requires |v| == VRAM_SIZE && InBounds(ops) && IsColumn(ops, source, layer, x, y) && a < VRAM_SIZE
    requires !InColumn(layer, x, y, |source|, a)
    ensures Apply(v, ops)[a] == v[a]
  {
    UncoveredUnchanged(v, ops, a);
  }

  // ----- what the writers leave in the layer -----

  /** The tile in the cell at an address. */
  function TileAt(v: seq<byte>, a: nat): Tile
    requires a + 2 <= |v|
  {
    v[a] as int + 256 * v[a + 1] as int
  }

  lemma TileOfBytes(v: seq<byte>, a: nat, t: Tile)
    requires a + 2 <= |v| && v[a] == TileBytes(t)[0] && v[a + 1] == TileBytes(t)[1]
    ensures TileAt(v, a) == t
  {
  }

  /** The tiles a writer writes: tile i is source tile i mod min(len, 64), for each i below min(count, 64). */
  function Source(tiles: seq<Tile>, count: nat): seq<Tile> {
    if tiles == [] then [] else Repeated(tiles, count)
  }

  /** r has the source in the cells ((x + i) mod 64, y), and is otherwise v. */
  ghost predicate RowHolds(v: seq<byte>, r: seq<byte>, source: seq<Tile>, layer: nat, x: nat, y: nat)
    requires Start(x, y) && |v| == |r| == VRAM_SIZE
  {
    && (forall i :: 0 <= i < |source| ==> TileAt(r, RowCell(layer, x, y, i)) == source[i])
    && (forall a :: 0 <= a < VRAM_SIZE && !InRow(layer, x, y, |source|, a) ==> r[a] == v[a])
  }

  /** r has the source in the cells (x, (y + i) mod 64), and is otherwise v. */
  ghost predicate ColumnHolds(v: seq<byte>, r: seq<byte>, source: seq<Tile>, layer: nat, x: nat, y: nat)
    requires Start(x, y) && |v| == |r| == VRAM_SIZE
  {
    && (forall i :: 0 <= i < |source| ==> TileAt(r, ColumnCell(layer, x, y, i)) == source[i])
    && (forall a :: 0 <= a < VRAM_SIZE && !InColumn(layer, x, y, |source|, a) ==> r[a] == v[a])
  }

  lemma RowTile(v: seq<byte>, ops: seq<Op>, source: seq<Tile>, layer: nat, x: nat, y: nat, i: nat)
    requires |v| == VRAM_SIZE && InBounds(ops) && IsRow(ops, source, layer, x, y) && i < |source|
    ensures TileAt(Apply(v, ops), RowCell(layer, x, y, i)) == source[i]
  {
    RowByte(v, ops, source, layer, x, y, i, 0);
    RowByte(v, ops, source, layer, x, y, i, 1);
    TileOfBytes(Apply(v, ops), RowCell(layer, x, y, i), source[i]);
  }

  lemma ColumnTile(v: seq<byte>, ops: seq<Op>, source: seq<Tile>, layer: nat, x: nat, y: nat, i: nat)
    requires |v| == VRAM_SIZE && InBounds(ops) && IsColumn(ops, source, layer, x, y) && i < |source|
    ensures TileAt(Apply(v, ops), ColumnCell(layer, x, y, i)) == source[i]
  {
    ColumnByte(v, ops, source, layer, x, y, i, 0);
    ColumnByte(v, ops, source, layer, x, y, i, 1);
    TileOfBytes(Apply(v, ops), ColumnCell(layer, x, y, i), source[i]);
  }

  lemma RowWritten(v: seq<byte>, ops: seq<Op>, source: seq<Tile>, layer: nat, x: nat, y: nat)
    requires |v| == VRAM_SIZE && InBounds(ops) && IsRow(ops, source, layer, x, y)
    ensures RowHolds(v, Apply(v, ops), source, layer, x, y)
  {
    forall i | 0 <= i < |source|
      ensures TileAt(Apply(v, ops), RowCell(layer, x, y, i)) == source[i]
    {
      RowTile(v, ops, source, layer, x, y, i);
    }
    forall a | 0 <= a < VRAM_SIZE && !InRow(layer, x, y, |source|, a)
      ensures Apply(v, ops)[a] == v[a]
    {
      RowElsewhere(v, ops, source, layer, x, y, a);
    }
  }

  lemma ColumnWritten(v: seq<byte>, ops: seq<Op>, source: seq<Tile>, layer: nat, x: nat, y: nat)
    requires |v| == VRAM_SIZE && InBounds(ops) && IsColumn(ops, source, layer, x, y)
    ensures ColumnHolds(v, Apply(v, ops), source, layer, x, y)
  {
    forall i | 0 <= i < |source|
      ensures TileAt(Apply(v, ops), ColumnCell(layer, x, y, i)) == source[i]
    {
      ColumnTile(v, ops, source, layer, x, y, i);
    }
    forall a | 0 <= a < VRAM_SIZE && !InColumn(layer, x, y, |source|, a)
      ensures Apply(v, ops)[a] == v[a]
    {
      ColumnElsewhere(v, ops, source, layer, x, y, a);
    }
  }

  /** Cells ((x + i) mod 64, y) of r hold tile i mod m for each i below n, and r is otherwise v. */
  ghost predicate RowRepeats(v: seq<byte>, r: seq<byte>, tiles: seq<Tile>, layer: nat, x: nat, y: nat, n: nat, m: nat)
    requires Start(x, y) && |v| == |r| == VRAM_SIZE && m <= |tiles| && (n > 0 ==> m > 0)
  {
    && (forall i :: 0 <= i < n ==> TileAt(r, RowCell(layer, x, y, i)) == tiles[i % m])
    && (forall a :: 0 <= a < VRAM_SIZE && !InRow(layer, x, y, n, a) ==> r[a] == v[a])
  }

  /** The same of cells (x, (y + i) mod 64). */
  ghost predicate ColumnRepeats(v: seq<byte>, r: seq<byte>, tiles: seq<Tile>, layer: nat, x: nat, y: nat,
                                n: nat, m: nat)
    requires Start(x, y) && |v| == |r| == VRAM_SIZE && m <= |tiles| && (n > 0 ==> m > 0)
  {
    && (forall i :: 0 <= i < n ==> TileAt(r, ColumnCell(layer, x, y, i)) == tiles[i % m])
    && (forall a :: 0 <= a < VRAM_SIZE && !InColumn(layer, x, y, n, a) ==> r[a] == v[a])
  }

  lemma SourceRepeats(tiles: seq<Tile>, count: nat, n: nat, m: nat)
    requires n == (if tiles == [] then 0 else if count < 64 then count else 64)
    requires m == if |tiles| < 64 then |tiles| else 64
    ensures |Source(tiles, count)| == n
    ensures forall i :: 0 <= i < n ==> Source(tiles, count)[i] == tiles[i % m]
  {
    if tiles != [] {
      assert Clamp(count) == n && Clamp(|tiles|) == m;
      forall i | 0 <= i < n
        ensures Source(tiles, count)[i] == tiles[i % m]
      {
        assert Repeated(tiles, count)[i] == tiles[i % m];
      }
    }
  }

  lemma RowOfSource(v: seq<byte>, r: seq<byte>, source: seq<Tile>, tiles: seq<Tile>, layer: nat, x: nat, y: nat,
                    n: nat, m: nat)
    requires Start(x, y) && |v| == |r| == VRAM_SIZE && m <= |tiles| && (n > 0 ==> m > 0)
    requires |source| == n && RowHolds(v, r, source, layer, x, y)
    requires forall i :: 0 <= i < n ==> source[i] == tiles[i % m]
    ensures RowRepeats(v, r, tiles, layer, x, y, n, m)
  {
  }

  lemma ColumnOfSource(v: seq<byte>, r: seq<byte>, source: seq<Tile>, tiles: seq<Tile>, layer: nat, x: nat, y: nat,
                       n: nat, m: nat)
    requires Start(x, y) && |v| == |r| == VRAM_SIZE && m <= |tiles| && (n > 0 ==> m > 0)
    requires |source| == n && ColumnHolds(v, r, source, layer, x, y)
    requires forall i :: 0 <= i < n ==> source[i] == tiles[i % m]
    ensures ColumnRepeats(v, r, tiles, layer, x, y, n, m)
  {
  }

  /**
   * The horizontal writer: cell ((x + i) mod 64, y) of the layer gets tile i mod min(len, 64) for each i below
   * min(count, 64), and no other byte of VRAM changes.
   */
  lemma HorizontalWritesRow(v: seq<byte>, tiles: seq<Tile>, layer: nat, x: nat, y: nat, count: nat)
    requires |v| == VRAM_SIZE && Start(x, y)
    ensures RowRepeats(v, Apply(v, RowOps(tiles, layer, x, y, count)), tiles, layer, x, y,
                       if tiles == [] then 0 else if count < 64 then count else 64,
                       if |tiles| < 64 then |tiles| else 64)
  {
    var n := if tiles == [] then 0 else if count < 64 then count else 64;
    var m := if |tiles| < 64 then |tiles| else 64;
    var ops, source := RowOps(tiles, layer, x, y, count), Source(tiles, count);
    if n > 0 {
      RowOpsAreRow(tiles, layer, x, y, count);
      RowWritten(v, ops, source, layer, x, y);
    }
    SourceRepeats(tiles, count, n, m);
    RowOfSource(v, Apply(v, ops), source, tiles, layer, x, y, n, m);
  }

  /** The vertical writer: the same of the cells (x, (y + i) mod 64). */
  lemma VerticalWritesColumn(v: seq<byte>, tiles: seq<Tile>, layer: nat, x: nat, y: nat, count: nat)
    requires |v| == VRAM_SIZE && Start(x, y)
    ensures ColumnRepeats(v, Apply(v, ColumnOps(tiles, layer, x, y, count)), tiles, layer, x, y,
                          if tiles == [] then 0 else if count < 64 then count else 64,
                          if |tiles| < 64 then |tiles| else 64)
  {
    var n := if tiles == [] then 0 else if count < 64 then count else 64;
    var m := if |tiles| < 64 then |tiles| else 64;
    var ops, source := ColumnOps(tiles, layer, x, y, count), Source(tiles, count);
    if n > 0 {
      ColumnOpsAreColumn(tiles, layer, x, y, count);
      ColumnWritten(v, ops, source, layer, x, y);
    }
    SourceRepeats(tiles, count, n, m);
    ColumnOfSource(v, Apply(v, ops), source, tiles, layer, x, y, n, m);
  }

  /** Where the cells are: 128 bytes a row, two a cell, the foreground 0x2000 bytes after the background. */
  lemma CellsLie(layer: nat, x: nat, y: nat, i: nat)
    requires Start(x, y)
    ensures RowCell(layer, x, y, i) == (if layer == 2 then 0x2000 else 0) + 128 * y + 2 * ((x + i) % 64)
    ensures ColumnCell(layer, x, y, i) == (if layer == 2 then 0x2000 else 0) + 128 * ((y + i) % 64) + 2 * x
  {
  }
}
