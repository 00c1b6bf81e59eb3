/** Filling a block of cells row by row and column by column. */
module TileBlock {
  import opened Arithmetic
  import opened Common
  import opened PpuDriver
  import opened VramOps
  import opened TileWriters
  import opened TileLayer

  /** A rectangular block of at most 64 by 64 tiles, row by row. */
  predicate IsBlock(block: seq<seq<Tile>>, w: nat, h: nat) {
    && w <= 64 && |block| == h <= 64
    && (forall j :: 0 <= j < h ==> |block[j]| == w)
  }

  function Column(block: seq<seq<Tile>>, w: nat, h: nat, i: nat): (c: seq<Tile>)
    requires IsBlock(block, w, h) && i < w
    ensures |c| == h
  {
    seq(h, j requires 0 <= j < h => block[j][i])
  }

  /** The rows of the block from the top, each written with the horizontal writer. */
  function RowCalls(block: seq<seq<Tile>>, w: nat, h: nat, layer: nat, x: nat, y: nat): (calls: seq<seq<Op>>)
    requires IsBlock(block, w, h) && Start(x, y)
    ensures |calls| == h && CallsInBounds(calls)
  {
    seq(h, j requires 0 <= j < h => RowOps(block[j], layer, x, (y + j) % 64, w))
  }

  /** The columns of the block from the left, each written with the vertical writer. */
  function ColumnCalls(block: seq<seq<Tile>>, w: nat, h: nat, layer: nat, x: nat, y: nat): (calls: seq<seq<Op>>)
    requires IsBlock(block, w, h) && Start(x, y)
    ensures |calls| == w && CallsInBounds(calls)
  {
    seq(w, i requires 0 <= i < w => ColumnOps(Column(block, w, h, i), layer, (x + i) % 64, y, h))
  }

  // ----- coordinates of a byte -----

  predicate InLayer(layer: nat, a: nat) {
    if layer == LAYER_FG then 0x2000 <= a < 0x4000 else a < 0x2000
  }

  function CellX(a: nat): (x: nat)
    ensures x < 64
  {
    (a / 2) % 64
  }

  function CellY(a: nat): (y: nat)
    ensures y < 64
  {
    (a / 128) % 64
  }

  /** How far cell coordinate c is from a start, going up and wrapping at 64. */
  function Along(start: nat, c: nat): (i: nat)
    requires start < 64 && c < 64
    ensures i < 64
  {
    if c >= start then c - start else c + 64 - start
  }

  lemma AlongInverts(start: nat, c: nat, i: nat)
    requires start < 64 && c < 64 && i < 64
    ensures (start + i) % 64 == c <==> i == Along(start, c)
  {
  }

  lemma HalfRow(b: nat)
    ensures b == 128 * (b / 128) + 2 * ((b / 2) % 64) + b % 2
  {
  }

  lemma Coordinates(layer: nat, a: nat)
    requires InLayer(layer, a)
    ensures InCell(layer, CellX(a), CellY(a), a) && a == CellAddr(layer, CellX(a), CellY(a)) + a % 2
  {
    HalfRow(a);
    if layer == LAYER_FG {
      assert a / 128 == 64 + CellY(a);
    } else {
      assert a / 128 == CellY(a);
    }
  }

  lemma CoordinatesOf(layer: nat, x: nat, y: nat, a: nat)
    requires Start(x, y) && InCell(layer, x, y, a)
    ensures InLayer(layer, a) && CellX(a) == x && CellY(a) == y
  {
    Coordinates(layer, a);
    CellsApart(layer, x, y, CellX(a), CellY(a), a);
  }

  // ----- one row, one column, byte by byte -----

  /** Byte a once the source lies in row y from column x on: b if a is outside. */
  function RowByteAt(source: seq<Tile>, layer: nat, x: nat, y: nat, a: nat, b: byte): byte
    requires Start(x, y)
  {
    if InLayer(layer, a) && CellY(a) == y && Along(x, CellX(a)) < |source|
    then TileBytes(source[Along(x, CellX(a))])[a % 2] else b
  }

  function ColumnByteAt(source: seq<Tile>, layer: nat, x: nat, y: nat, a: nat, b: byte): byte
    requires Start(x, y)
  {
    if InLayer(layer, a) && CellX(a) == x && Along(y, CellY(a)) < |source|
    then TileBytes(source[Along(y, CellY(a))])[a % 2] else b
  }

  lemma RowInside(layer: nat, x: nat, y: nat, n: nat, a: nat)
    requires Start(x, y) && n <= 64 && InRow(layer, x, y, n, a)
    ensures InLayer(layer, a) && CellY(a) == y && Along(x, CellX(a)) < n
  {
    var i :| 0 <= i < n && RowCell(layer, x, y, i) <= a < RowCell(layer, x, y, i) + 2;
    CoordinatesOf(layer, (x + i) % 64, y, a);
    AlongInverts(x, CellX(a), i);
  }

  lemma ColumnInside(layer: nat, x: nat, y: nat, n: nat, a: nat)
    requires Start(x, y) && n <= 64 && InColumn(layer, x, y, n, a)
    ensures InLayer(layer, a) && CellX(a) == x && Along(y, CellY(a)) < n
  {
    var i :| 0 <= i < n && ColumnCell(layer, x, y, i) <= a < ColumnCell(layer, x, y, i) + 2;
    CoordinatesOf(layer, x, (y + i) % 64, a);
    AlongInverts(y, CellY(a), i);
  }

  lemma RowAtInside(v: seq<byte>, ops: seq<Op>, source: seq<Tile>, layer: nat, x: nat, y: nat, a: nat, i: nat)
    requires |v| == VRAM_SIZE && InBounds(ops) && IsRow(ops, source, layer, x, y) && a < VRAM_SIZE
    requires InLayer(layer, a) && CellY(a) == y && i == Along(x, CellX(a)) && i < |source|
    ensures Apply(v, ops)[a] == TileBytes(source[i])[a % 2]
  {
    AlongInverts(x, CellX(a), i);
    Coordinates(layer, a);
    assert RowCell(layer, x, y, i) + a % 2 == a;
    RowByte(v, ops, source, layer, x, y, i, a % 2);
  }

  lemma RowAt(v: seq<byte>, ops: seq<Op>, source: seq<Tile>, layer: nat, x: nat, y: nat, a: nat)
    requires |v| == VRAM_SIZE && InBounds(ops) && IsRow(ops, source, layer, x, y) && a < VRAM_SIZE
    ensures Apply(v, ops)[a] == RowByteAt(source, layer, x, y, a, v[a])
  {
    if InLayer(layer, a) && CellY(a) == y && Along(x, CellX(a)) < |source| {
      RowAtInside(v, ops, source, layer, x, y, a, Along(x, CellX(a)));
    } else {
      if InRow(layer, x, y, |source|, a) {
        RowInside(layer, x, y, |source|, a);
        assert false;
      }
      RowElsewhere(v, ops, source, layer, x, y, a);
    }
  }

  lemma ColumnAtInside(v: seq<byte>, ops: seq<Op>, source: seq<Tile>, layer: nat, x: nat, y: nat, a: nat, i: nat)
    requires |v| == VRAM_SIZE && InBounds(ops) && IsColumn(ops, source, layer, x, y) && a < VRAM_SIZE
    requires InLayer(layer, a) && CellX(a) == x && i == Along(y, CellY(a)) && i < |source|
    ensures Apply(v, ops)[a] == TileBytes(source[i])[a % 2]
  {
    AlongInverts(y, CellY(a), i);
    Coordinates(layer, a);
    assert ColumnCell(layer, x, y, i) + a % 2 == a;
    ColumnByte(v, ops, source, layer, x, y, i, a % 2);
  }

  lemma ColumnAt(v: seq<byte>, ops: seq<Op>, source: seq<Tile>, layer: nat, x: nat, y: nat, a: nat)
    requires |v| == VRAM_SIZE && InBounds(ops) && IsColumn(ops, source, layer, x, y) && a < VRAM_SIZE
    ensures Apply(v, ops)[a] == ColumnByteAt(source, layer, x, y, a, v[a])
  {
    if InLayer(layer, a) && CellX(a) == x && Along(y, CellY(a)) < |source| {
      ColumnAtInside(v, ops, source, layer, x, y, a, Along(y, CellY(a)));
    } else {
      if InColumn(layer, x, y, |source|, a) {
        ColumnInside(layer, x, y, |source|, a);
        assert false;
      }
      ColumnElsewhere(v, ops, source, layer, x, y, a);
    }
  }

  lemma SmallMod(i: nat, n: nat)
    requires i < n
    ensures i % n == i
  {
    DivModOf(n, 0, i);
  }

  lemma RepeatedWhole(tiles: seq<Tile>, n: nat)
    requires 0 < n == |tiles| <= 64
    ensures Repeated(tiles, n) == tiles
  {
    forall i | 0 <= i < n
      ensures Repeated(tiles, n)[i] == tiles[i]
    {
      SmallMod(i, n);
    }
  }

  /** The same of the horizontal writer, given as many tiles as it is to write. */
  lemma RowOpsAt(v: seq<byte>, row: seq<Tile>, layer: nat, x: nat, y: nat, a: nat)
    requires |v| == VRAM_SIZE && |row| <= 64 && Start(x, y) && a < VRAM_SIZE
    ensures Apply(v, RowOps(row, layer, x, y, |row|))[a] == RowByteAt(row, layer, x, y, a, v[a])
  {
    if row != [] {
      RepeatedWhole(row, |row|);
      RowOpsAreRow(row, layer, x, y, |row|);
      RowAt(v, RowOps(row, layer, x, y, |row|), row, layer, x, y, a);
    }
  }

  lemma ColumnOpsAt(v: seq<byte>, column: seq<Tile>, layer: nat, x: nat, y: nat, a: nat)
    requires |v| == VRAM_SIZE && |column| <= 64 && Start(x, y) && a < VRAM_SIZE
    ensures Apply(v, ColumnOps(column, layer, x, y, |column|))[a] == ColumnByteAt(column, layer, x, y, a, v[a])
  {
    if column != [] {
      RepeatedWhole(column, |column|);
      ColumnOpsAreColumn(column, layer, x, y, |column|);
      ColumnAt(v, ColumnOps(column, layer, x, y, |column|), column, layer, x, y, a);
    }
  }

  // ----- the block -----

  /** Byte a once the part of the block left of column w' and above row h' is in place: b if a lies outside. */
  function BlockByte(block: seq<seq<Tile>>, w: nat, h: nat, layer: nat, x: nat, y: nat, w': nat, h': nat, a: nat,
                     b: byte): byte
    requires IsBlock(block, w, h) && Start(x, y) && w' <= w && h' <= h
  {
    if InLayer(layer, a) && Along(x, CellX(a)) < w' && Along(y, CellY(a)) < h'
    then TileBytes(block[Along(y, CellY(a))][Along(x, CellX(a))])[a % 2]
    else b
  }

  lemma RowStep(block: seq<seq<Tile>>, w: nat, h: nat, layer: nat, x: nat, y: nat, k: nat, a: nat, b: byte)
    requires IsBlock(block, w, h) && Start(x, y) && k < h
    ensures RowByteAt(block[k], layer, x, (y + k) % 64, a, BlockByte(block, w, h, layer, x, y, w, k, a, b))
         == BlockByte(block, w, h, layer, x, y, w, k + 1, a, b)
  {
    AlongInverts(y, CellY(a), k);
  }

  lemma ColumnStep(block: seq<seq<Tile>>, w: nat, h: nat, layer: nat, x: nat, y: nat, k: nat, a: nat, b: byte)
    requires IsBlock(block, w, h) && Start(x, y) && k < w
    ensures ColumnByteAt(Column(block, w, h, k), layer, (x + k) % 64, y, a,
                         BlockByte(block, w, h, layer, x, y, k, h, a, b))
         == BlockByte(block, w, h, layer, x, y, k + 1, h, a, b)
  {
    AlongInverts(x, CellX(a), k);
  }

  /** The values byte a takes as the rows are written. */
  function RowValues(block: seq<seq<Tile>>, w: nat, h: nat, layer: nat, x: nat, y: nat, a: nat, b: byte): (s: seq<byte>)
    requires IsBlock(block, w, h) && Start(x, y)
    ensures |s| == h + 1
  {
    seq(h + 1, k requires 0 <= k <= h => BlockByte(block, w, h, layer, x, y, w, k, a, b))
  }

  function ColumnValues(block: seq<seq<Tile>>, w: nat, h: nat, layer: nat, x: nat, y: nat, a: nat,
                        b: byte): (s: seq<byte>)
    requires IsBlock(block, w, h) && Start(x, y)
    ensures |s| == w + 1
  {
    seq(w + 1, k requires 0 <= k <= w => BlockByte(block, w, h, layer, x, y, k, h, a, b))
  }

  lemma RowTurns(block: seq<seq<Tile>>, w: nat, h: nat, layer: nat, x: nat, y: nat, a: nat, b: byte, k: nat,
                 call: seq<Op>, from: byte, to: byte)
    requires IsBlock(block, w, h) && Start(x, y) && a < VRAM_SIZE && k < h
    requires call == RowOps(block[k], layer, x, (y + k) % 64, w)
    requires from == BlockByte(block, w, h, layer, x, y, w, k, a, b)
    requires to == BlockByte(block, w, h, layer, x, y, w, k + 1, a, b)
    ensures InBounds(call) && Turns(call, a, from, to)
  {
    RowStep(block, w, h, layer, x, y, k, a, b);
    forall u: seq<byte> | |u| == VRAM_SIZE {
      RowOpsAt(u, block[k], layer, x, (y + k) % 64, a);
    }
  }

  lemma ColumnTurns(block: seq<seq<Tile>>, w: nat, h: nat, layer: nat, x: nat, y: nat, a: nat, b: byte, k: nat,
                    call: seq<Op>, from: byte, to: byte)
    requires IsBlock(block, w, h) && Start(x, y) && a < VRAM_SIZE && k < w
    requires call == ColumnOps(Column(block, w, h, k), layer, (x + k) % 64, y, h)
    requires from == BlockByte(block, w, h, layer, x, y, k, h, a, b)
    requires to == BlockByte(block, w, h, layer, x, y, k + 1, h, a, b)
    ensures InBounds(call) && Turns(call, a, from, to)
  {
    ColumnStep(block, w, h, layer, x, y, k, a, b);
    forall u: seq<byte> | |u| == VRAM_SIZE {
      ColumnOpsAt(u, Column(block, w, h, k), layer, (x + k) % 64, y, a);
    }
  }

  lemma RowsTake(block: seq<seq<Tile>>, w: nat, h: nat, layer: nat, x: nat, y: nat, a: nat, b: byte)
    requires IsBlock(block, w, h) && Start(x, y) && a < VRAM_SIZE
    ensures Takes(RowCalls(block, w, h, layer, x, y), a, RowValues(block, w, h, layer, x, y, a, b))
  {
    var calls, values := RowCalls(block, w, h, layer, x, y), RowValues(block, w, h, layer, x, y, a, b);
    forall k | 0 <= k < |calls|
      ensures Turns(calls[k], a, values[k], values[k + 1])
    {
      RowTurns(block, w, h, layer, x, y, a, b, k, calls[k], values[k], values[k + 1]);
    }
  }

  lemma ColumnsTake(block: seq<seq<Tile>>, w: nat, h: nat, layer: nat, x: nat, y: nat, a: nat, b: byte)
    requires IsBlock(block, w, h) && Start(x, y) && a < VRAM_SIZE
    ensures Takes(ColumnCalls(block, w, h, layer, x, y), a, ColumnValues(block, w, h, layer, x, y, a, b))
  {
    var calls, values := ColumnCalls(block, w, h, layer, x, y), ColumnValues(block, w, h, layer, x, y, a, b);
    forall k | 0 <= k < |calls|
      ensures Turns(calls[k], a, values[k], values[k + 1])
    {
      ColumnTurns(block, w, h, layer, x, y, a, b, k, calls[k], values[k], values[k + 1]);
    }
  }

  lemma SameByte(v: seq<byte>, block: seq<seq<Tile>>, w: nat, h: nat, layer: nat, x: nat, y: nat, a: nat)
    requires |v| == VRAM_SIZE && IsBlock(block, w, h) && Start(x, y) && a < VRAM_SIZE
    ensures Perform(v, RowCalls(block, w, h, layer, x, y))[a] == Perform(v, ColumnCalls(block, w, h, layer, x, y))[a]
  {
    RowsTake(block, w, h, layer, x, y, a, v[a]);
    ColumnsTake(block, w, h, layer, x, y, a, v[a]);
    PerformedByte(v, RowCalls(block, w, h, layer, x, y), a, RowValues(block, w, h, layer, x, y, a, v[a]));
    PerformedByte(v, ColumnCalls(block, w, h, layer, x, y), a, ColumnValues(block, w, h, layer, x, y, a, v[a]));
  }

  /** Writing the block row by row and writing it column by column leave the same VRAM. */
  lemma RowsEqualColumns(v: seq<byte>, block: seq<seq<Tile>>, w: nat, h: nat, layer: nat, x: nat, y: nat)
    requires |v| == VRAM_SIZE && x < 64 && y < 64
    requires w <= 64 && |block| == h <= 64 && (forall j :: 0 <= j < h ==> |block[j]| == w)
    ensures Perform(v, RowCalls(block, w, h, layer, x, y)) == Perform(v, ColumnCalls(block, w, h, layer, x, y))
  {
    var rows, columns := RowCalls(block, w, h, layer, x, y), ColumnCalls(block, w, h, layer, x, y);
    forall a | 0 <= a < VRAM_SIZE
      ensures Perform(v, rows)[a] == Perform(v, columns)[a]
    {
      SameByte(v, block, w, h, layer, x, y, a);
    }
  }

  lemma RowsByte(v: seq<byte>, block: seq<seq<Tile>>, w: nat, h: nat, layer: nat, x: nat, y: nat, a: nat)
    requires |v| == VRAM_SIZE && IsBlock(block, w, h) && Start(x, y) && a < VRAM_SIZE
    ensures Perform(v, RowCalls(block, w, h, layer, x, y))[a] == BlockByte(block, w, h, layer, x, y, w, h, a, v[a])
  {
    RowsTake(block, w, h, layer, x, y, a, v[a]);
    PerformedByte(v, RowCalls(block, w, h, layer, x, y), a, RowValues(block, w, h, layer, x, y, a, v[a]));
  }

  /** The cell of tile i of row j. */
  function BlockCell(layer: nat, x: nat, y: nat, i: nat, j: nat): (a: nat)
    requires Start(x, y)
    ensures a + 2 <= 0x4000
  {
    CellAddr(layer, (x + i) % 64, (y + j) % 64)
  }

  /** r has the block from cell (x, y) on, and is otherwise v. */
  ghost predicate BlockHeld(v: seq<byte>, r: seq<byte>, block: seq<seq<Tile>>, w: nat, h: nat,
                            layer: nat, x: nat, y: nat)
    requires |v| == |r| == VRAM_SIZE && IsBlock(block, w, h) && Start(x, y)
  {
    && (forall i, j :: 0 <= i < w && 0 <= j < h ==> TileAt(r, BlockCell(layer, x, y, i, j)) == block[j][i])
    && (forall a :: 0 <= a < VRAM_SIZE && r[a] != v[a] ==>
          exists i, j :: 0 <= i < w && 0 <= j < h
                         && BlockCell(layer, x, y, i, j) <= a < BlockCell(layer, x, y, i, j) + 2)
  }

  lemma BlockCellByte(block: seq<seq<Tile>>, w: nat, h: nat, layer: nat, x: nat, y: nat, i: nat, j: nat, k: nat,
                      b: byte)
    requires IsBlock(block, w, h) && Start(x, y) && i < w && j < h && k < 2
    ensures BlockByte(block, w, h, layer, x, y, w, h, BlockCell(layer, x, y, i, j) + k, b) == TileBytes(block[j][i])[k]
  {
    var a := BlockCell(layer, x, y, i, j) + k;
    CoordinatesOf(layer, (x + i) % 64, (y + j) % 64, a);
    AlongInverts(x, CellX(a), i);
    AlongInverts(y, CellY(a), j);
    assert BlockCell(layer, x, y, i, j) % 2 == 0;
  }

  lemma BlockCellOf(block: seq<seq<Tile>>, w: nat, h: nat, layer: nat, x: nat, y: nat, a: nat, b: byte)
    returns (i: nat, j: nat)
    requires IsBlock(block, w, h) && Start(x, y) && BlockByte(block, w, h, layer, x, y, w, h, a, b) != b
    ensures i < w && j < h && BlockCell(layer, x, y, i, j) <= a < BlockCell(layer, x, y, i, j) + 2
  {
    i, j := Along(x, CellX(a)), Along(y, CellY(a));
    Coordinates(layer, a);
    AlongInverts(x, CellX(a), i);
    AlongInverts(y, CellY(a), j);
  }

  lemma HeldByBytes(v: seq<byte>, r: seq<byte>, block: seq<seq<Tile>>, w: nat, h: nat, layer: nat, x: nat, y: nat)
    requires |v| == |r| == VRAM_SIZE && IsBlock(block, w, h) && Start(x, y)
    requires forall a :: 0 <= a < VRAM_SIZE ==> r[a] == BlockByte(block, w, h, layer, x, y, w, h, a, v[a])
    ensures BlockHeld(v, r, block, w, h, layer, x, y)
  {
    forall i, j | 0 <= i < w && 0 <= j < h
      ensures TileAt(r, BlockCell(layer, x, y, i, j)) == block[j][i]
    {
      var a := BlockCell(layer, x, y, i, j);
      BlockCellByte(block, w, h, layer, x, y, i, j, 0, v[a]);
      BlockCellByte(block, w, h, layer, x, y, i, j, 1, v[a + 1]);
      TileOfBytes(r, a, block[j][i]);
    }
    forall a | 0 <= a < VRAM_SIZE && r[a] != v[a]
      ensures exists i, j :: 0 <= i < w && 0 <= j < h
                             && BlockCell(layer, x, y, i, j) <= a < BlockCell(layer, x, y, i, j) + 2
    {
      var i, j := BlockCellOf(block, w, h, layer, x, y, a, v[a]);
    }
  }

  /**
   * And it is the block that they leave: cell ((x + i) mod 64, (y + j) mod 64) holds tile i of row j, and no other
   * byte has changed.
   */
  lemma BlockIsFilled(v: seq<byte>, block: seq<seq<Tile>>, w: nat, h: nat, layer: nat, x: nat, y: nat)
    requires |v| == VRAM_SIZE && x < 64 && y < 64
    requires w <= 64 && |block| == h <= 64 && (forall j :: 0 <= j < h ==> |block[j]| == w)
    ensures BlockHeld(v, Perform(v, RowCalls(block, w, h, layer, x, y)), block, w, h, layer, x, y)
  {
    var r := Perform(v, RowCalls(block, w, h, layer, x, y));
    forall a | 0 <= a < VRAM_SIZE
      ensures r[a] == BlockByte(block, w, h, layer, x, y, w, h, a, v[a])
    {
      RowsByte(v, block, w, h, layer, x, y, a);
    }
    HeldByBytes(v, r, block, w, h, layer, x, y);
  }
}
