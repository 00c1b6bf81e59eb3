/** Writing a block of 8 by 8 tile patterns into pattern RAM, 32 by 32 cells that wrap in both directions. */
module PatternWriter {
  import opened Arithmetic
  import opened Common
  import opened PpuDriver
  import opened PpuKernel
  import opened VramOps

  /** One 8 by 8 tile at 4 bits a pixel. */
  type Pattern = p: seq<byte> | |p| == 32 witness Zeros(32)

  /** The address of a pattern cell. */
  function PatternAddr(x: nat, y: nat): (addr: nat)
    requires x < 32 && y < 32
    ensures addr < 1024
  {
    y * 32 + x
  }

  /** Where source tile p of a block goes, the block's first tile going to (x, y). */
  function TargetCell(width: nat, x: nat, y: nat, p: nat): (addr: nat)
    requires width > 0
    ensures addr < 1024
  {
    PatternAddr((x + p % width) % 32, (y + p / width) % 32)
  }

  function PatternOp(width: nat, x: nat, y: nat, p: nat, tile: Pattern): Op
    requires width > 0
  {
    Op(0x4000 + 32 * TargetCell(width, x, y, p), tile)
  }

  /** The pwrites of a block of patterns, row by row. */
  function PatternOps(pattern: seq<Pattern>, width: nat, x: nat, y: nat): (ops: seq<Op>)
    requires width > 0
    ensures |ops| == |pattern| && InBounds(ops)
  {
    seq(|pattern|, p requires 0 <= p < |pattern| => PatternOp(width, x, y, p, pattern[p]))
  }

  /** Where the tiles of a row of the block, the source tiles from base on, are written. */
  predicate RowInPlace(pattern: seq<Pattern>, width: nat, x: nat, y: nat, row: nat, base: nat, ops: seq<Op>)
    requires x < 32 && y < 32
  {
    && base + width <= |ops| == |pattern|
    && (forall p :: base <= p < base + width ==>
          ops[p] == Op(0x4000 + 32 * PatternAddr((x + (p - base)) % 32, (y + row) % 32), pattern[p]))
  }

  lemma TargetOf(width: nat, x: nat, y: nat, row: nat, col: nat)
    requires x < 32 && y < 32 && col < width
    ensures TargetCell(width, x, y, width * row + col) == PatternAddr((x + col) % 32, (y + row) % 32)
  {
    DivModOf(width, row, col);
  }

  lemma RowOfBlock(pattern: seq<Pattern>, width: nat, height: nat, x: nat, y: nat, row: nat, base: nat)
    requires |pattern| == width * height && row < height && width > 0 && x < 32 && y < 32 && base == width * row
    ensures RowInPlace(pattern, width, x, y, row, base, PatternOps(pattern, width, x, y))
  {
    MultiplesApart(width, row, height);
    forall p | base <= p < base + width
      ensures TargetCell(width, x, y, p) == PatternAddr((x + (p - base)) % 32, (y + row) % 32)
    {
      TargetOf(width, x, y, row, p - base);
    }
  }

  /** The inner loop. */
  method WritePatternRow(dev: Device, pattern: seq<Pattern>, width: nat, x: nat, y: nat, row: nat, base: nat,
                         ghost from: nat, ghost before: seq<byte>, ghost ops: seq<Op>)
    returns (ok: bool, ghost written: nat)
    requires dev.Valid() && |before| == VRAM_SIZE && InBounds(ops) && x < 32 && y < 32
    requires RowInPlace(pattern, width, x, y, row, base, ops) && dev.Made(from, before, ops, base)
    modifies dev, dev.kernel, dev.kernel.vram
    ensures if ok then dev.Made(from, before, ops, base + width)
            else base <= written < base + width && dev.Refused(from, before, ops, written)
  {
    var yf := (y + row) % 32;
    written := base;
    for col := 0 to width
      invariant dev.Made(from, before, ops, base + col)
    {
      var xf := (x + col) % 32;
      var srcAddr := col + base;
      assert ops[srcAddr] == Op(0x4000 + 32 * PatternAddr(xf, yf), pattern[srcAddr]);
      ok := dev.PwriteNext(pattern[srcAddr], 0x4000 + 32 * PatternAddr(xf, yf), from, before, ops, srcAddr);
      if !ok { return false, srcAddr; }
    }
    ok := true;
  }

  /** One run of the inner loop. */
  method WriteBlockRow(dev: Device, pattern: seq<Pattern>, width: nat, height: nat, x: nat, y: nat,
                       row: nat, base: nat, ghost from: nat, ghost before: seq<byte>, ghost ops: seq<Op>)
    returns (ok: bool, ghost written: nat)
    requires dev.Valid() && |before| == VRAM_SIZE && x < 32 && y < 32 && width > 0 && row < height
    requires |pattern| == width * height && base == width * row && ops == PatternOps(pattern, width, x, y)
    requires base <= |ops| && dev.Made(from, before, ops, base)
    modifies dev, dev.kernel, dev.kernel.vram
    ensures base + width == width * (row + 1) && base + width <= |ops|
    ensures if ok then dev.Made(from, before, ops, base + width)
            else base <= written < base + width && dev.Refused(from, before, ops, written)
  {
    RowOfBlock(pattern, width, height, x, y, row, base);
    Next(width, row);
    ok, written := WritePatternRow(dev, pattern, width, x, y, row, base, from, before, ops);
  }

  /** The outer loop. */
  method WritePatternRows(dev: Device, pattern: seq<Pattern>, width: nat, height: nat, x: nat, y: nat,
                          ghost from: nat, ghost before: seq<byte>)
    returns (ok: bool)
    requires dev.Valid() && width > 0 && |pattern| == width * height && x < 32 && y < 32
    requires from == dev.attempts && before == dev.Vram()
    modifies dev, dev.kernel, dev.kernel.vram
    ensures Wrote(dev.locked, from, dev.attempts, if ok then Done else EBusy,
                  before, PatternOps(pattern, width, x, y), dev.Vram())
  {
    ghost var ops := PatternOps(pattern, width, x, y);
    var base := 0;
    for row := 0 to height
      invariant base == width * row && base <= |ops|
      invariant dev.Made(from, before, ops, base)
    {
      ghost var written;
      ok, written := WriteBlockRow(dev, pattern, width, height, x, y, row, base, from, before, ops);
      if !ok { return; }
      base := base + width;
    }
    ApplyAll(before, ops);
    ok := true;
  }

  method WritePattern(dev: Device, pattern: seq<Pattern>, width: nat, height: nat, patternAddr: nat)
    returns (status: Status)
    requires dev.Valid() && |pattern| >= width * height
    modifies dev, dev.kernel, dev.kernel.vram
    ensures status == Aborted <==> patternAddr > 1023 || width == 0 || height == 0
    ensures status == Aborted ==> dev.attempts == old(dev.attempts) && dev.Vram() == old(dev.Vram())
    ensures status != Aborted ==>
              Wrote(dev.locked, old(dev.attempts), dev.attempts, status, old(dev.Vram()),
                    PatternOps(pattern[..width * height], width, patternAddr % 32, patternAddr / 32), dev.Vram())
  {
    if patternAddr > 1023 || width == 0 || height == 0 { return Aborted; }
    var x, y := patternAddr % 32, patternAddr / 32 % 32;
    assert y == patternAddr / 32;
    var ok := WritePatternRows(dev, pattern[..width * height], width, height, x, y, dev.attempts, dev.Vram());
    status := if ok then Done else EBusy;
  }

  // ----- what pattern RAM holds afterwards -----

  /** How far coordinate c is from a start, going up and wrapping at 32. */
  function Distance(start: nat, c: nat): (d: nat)
    requires start < 32 && c < 32
    ensures d < 32
  {
    if c >= start then c - start else c + 32 - start
  }

  /** The largest of 0 .. n-1 that lands on coordinate c when counting up from start and wrapping at 32. */
  function Latest(n: nat, start: nat, c: nat): (i: nat)
    requires start < 32 && c < 32 && Distance(start, c) < n
    ensures i < n
  {
    var d := Distance(start, c);
    d + 32 * ((n - 1 - d) / 32)
  }

  /** It is the first that lands there. */
  lemma DistanceLands(start: nat, c: nat)
    requires start < 32 && c < 32
    ensures (start + Distance(start, c)) % 32 == c
  {
  }

  lemma Reaches(start: nat, c: nat, i: nat)
    requires start < 32 && c < 32 && (start + i) % 32 == c
    ensures i >= Distance(start, c)
  {
  }

  lemma LatestLands(n: nat, start: nat, c: nat)
    requires start < 32 && c < 32 && Distance(start, c) < n
    ensures (start + Latest(n, start, c)) % 32 == c
  {
  }

  lemma LatestIsLast(n: nat, start: nat, c: nat, i: nat)
    requires start < 32 && c < 32 && Distance(start, c) < n && Latest(n, start, c) < i < n
    ensures (start + i) % 32 != c
  {
  }

  /** The source tile at a column and a row of the block that is the last to go to a cell. */
  function LastSource(width: nat, height: nat, x: nat, y: nat, cx: nat, cy: nat): int
    requires x < 32 && y < 32 && cx < 32 && cy < 32 && Distance(x, cx) < width && Distance(y, cy) < height
  {
    width * Latest(height, y, cy) + Latest(width, x, cx)
  }

  lemma SameCell(x: nat, y: nat, x': nat, y': nat)
    requires x < 32 && y < 32 && x' < 32 && y' < 32 && PatternAddr(x, y) == PatternAddr(x', y')
    ensures x == x' && y == y'
  {
  }

  lemma LaterTile(width: nat, row: nat, col: nat, row': nat, col': nat)
    requires col < width && col' < width && width * row + col < width * row' + col'
    ensures row < row' || (row == row' && col < col')
  {
    if row' < row { MultiplesApart(width, row', row); }
  }

  /** No later tile of the block goes to the cell. */
  lemma LastSourceIsLast(width: nat, height: nat, x: nat, y: nat, cx: nat, cy: nat, row: nat, col: nat)
    requires x < 32 && y < 32 && cx < 32 && cy < 32 && Distance(x, cx) < width && Distance(y, cy) < height
    requires row < height && col < width
    requires LastSource(width, height, x, y, cx, cy) < width * row + col
    ensures PatternAddr((x + col) % 32, (y + row) % 32) != PatternAddr(cx, cy)
  {
    LaterTile(width, Latest(height, y, cy), Latest(width, x, cx), row, col);
    if row > Latest(height, y, cy) {
      LatestIsLast(height, y, cy, row);
    } else {
      LatestIsLast(width, x, cx, col);
    }
    if PatternAddr((x + col) % 32, (y + row) % 32) == PatternAddr(cx, cy) {
      SameCell((x + col) % 32, (y + row) % 32, cx, cy);
      assert false;
    }
  }

  /** The row and the column of tile p of the block. */
  lemma RowAndColumn(width: nat, height: nat, x: nat, y: nat, p: nat) returns (row: nat, col: nat)
    requires width > 0 && p < width * height && x < 32 && y < 32
    ensures row < height && col < width && p == width * row + col
    ensures TargetCell(width, x, y, p) == PatternAddr((x + col) % 32, (y + row) % 32)
  {
    row, col := p / width, p % width;
    QuotientBelow(width, height, p);
  }

  lemma LaterElsewhere(width: nat, height: nat, x: nat, y: nat, cx: nat, cy: nat, q: nat)
    requires x < 32 && y < 32 && cx < 32 && cy < 32 && Distance(x, cx) < width && Distance(y, cy) < height
    requires LastSource(width, height, x, y, cx, cy) < q < width * height
    ensures TargetCell(width, x, y, q) != PatternAddr(cx, cy)
  {
    var row, col := RowAndColumn(width, height, x, y, q);
    LastSourceIsLast(width, height, x, y, cx, cy, row, col);
  }

  lemma LastSourceIsNat(width: nat, height: nat, x: nat, y: nat, cx: nat, cy: nat)
    requires x < 32 && y < 32 && cx < 32 && cy < 32 && Distance(x, cx) < width && Distance(y, cy) < height
    ensures LastSource(width, height, x, y, cx, cy) >= 0
  {
    NoMultipleNegative(width, Latest(height, y, cy));
  }

  lemma LastSourceHits(width: nat, height: nat, x: nat, y: nat, cx: nat, cy: nat)
    requires x < 32 && y < 32 && cx < 32 && cy < 32 && Distance(x, cx) < width && Distance(y, cy) < height
    ensures 0 <= LastSource(width, height, x, y, cx, cy) < width * height
    ensures TargetCell(width, x, y, LastSource(width, height, x, y, cx, cy)) == PatternAddr(cx, cy)
  {
    var col, row := Latest(width, x, cx), Latest(height, y, cy);
    LastSourceIsNat(width, height, x, y, cx, cy);
    DivModOf(width, row, col);
    MultiplesApart(width, row, height);
    LatestLands(width, x, cx);
    LatestLands(height, y, cy);
  }

  lemma NeverHitAt(width: nat, height: nat, x: nat, y: nat, cx: nat, cy: nat, row: nat, col: nat)
    requires x < 32 && y < 32 && cx < 32 && cy < 32 && (Distance(x, cx) >= width || Distance(y, cy) >= height)
    requires row < height && col < width
    ensures PatternAddr((x + col) % 32, (y + row) % 32) != PatternAddr(cx, cy)
  {
    if PatternAddr((x + col) % 32, (y + row) % 32) == PatternAddr(cx, cy) {
      SameCell((x + col) % 32, (y + row) % 32, cx, cy);
      Reaches(x, cx, col);
      Reaches(y, cy, row);
      assert false;
    }
  }

  lemma NeverHit(width: nat, height: nat, x: nat, y: nat, cx: nat, cy: nat, p: nat)
    requires x < 32 && y < 32 && cx < 32 && cy < 32 && (Distance(x, cx) >= width || Distance(y, cy) >= height)
    requires width > 0 && p < width * height
    ensures TargetCell(width, x, y, p) != PatternAddr(cx, cy)
  {
    var row, col := RowAndColumn(width, height, x, y, p);
    NeverHitAt(width, height, x, y, cx, cy, row, col);
  }

  /** Byte h of a cell. */
  lemma CoversCell(width: nat, x: nat, y: nat, p: nat, tile: Pattern, cell: nat, h: nat)
    requires width > 0 && cell < 1024 && h < 32
    ensures Covers(PatternOp(width, x, y, p, tile), 0x4000 + 32 * cell + h) <==> TargetCell(width, x, y, p) == cell
  {
  }

  /** Source tile p of n is the last to go to the cell. */
  predicate LastTo(width: nat, x: nat, y: nat, n: nat, cell: nat, p: nat)
    requires width > 0
  {
    && p < n && TargetCell(width, x, y, p) == cell
    && (forall q :: p < q < n ==> TargetCell(width, x, y, q) != cell)
  }

  predicate NoneTo(width: nat, x: nat, y: nat, n: nat, cell: nat)
    requires width > 0
  {
    forall p :: 0 <= p < n ==> TargetCell(width, x, y, p) != cell
  }

  lemma CellHolds(v: seq<byte>, pattern: seq<Pattern>, width: nat, x: nat, y: nat, cell: nat, p: nat, h: nat)
    requires |v| == VRAM_SIZE && width > 0 && cell < 1024 && h < 32 && LastTo(width, x, y, |pattern|, cell, p)
    ensures Apply(v, PatternOps(pattern, width, x, y))[0x4000 + 32 * cell + h] == pattern[p][h]
  {
    var ops, a := PatternOps(pattern, width, x, y), 0x4000 + 32 * cell + h;
    CoversCell(width, x, y, p, pattern[p], cell, h);
    forall q | p < q < |ops|
      ensures !Covers(ops[q], a)
    {
      CoversCell(width, x, y, q, pattern[q], cell, h);
    }
    LastWriteWins(v, ops, p, a);
  }

  lemma CellKept(v: seq<byte>, pattern: seq<Pattern>, width: nat, x: nat, y: nat, cell: nat, h: nat)
    requires |v| == VRAM_SIZE && width > 0 && cell < 1024 && h < 32 && NoneTo(width, x, y, |pattern|, cell)
    ensures Apply(v, PatternOps(pattern, width, x, y))[0x4000 + 32 * cell + h] == v[0x4000 + 32 * cell + h]
  {
    var ops, a := PatternOps(pattern, width, x, y), 0x4000 + 32 * cell + h;
    forall q | 0 <= q < |ops|
      ensures !Covers(ops[q], a)
    {
      CoversCell(width, x, y, q, pattern[q], cell, h);
    }
    UncoveredUnchanged(v, ops, a);
  }

  lemma LastSourceIsLastTo(width: nat, height: nat, x: nat, y: nat, cx: nat, cy: nat, n: nat) returns (p: nat)
    requires x < 32 && y < 32 && cx < 32 && cy < 32 && Distance(x, cx) < width && Distance(y, cy) < height
    requires n == width * height
    ensures p == width * Latest(height, y, cy) + Latest(width, x, cx)
    ensures LastTo(width, x, y, n, PatternAddr(cx, cy), p)
  {
    LastSourceIsNat(width, height, x, y, cx, cy);
    p := LastSource(width, height, x, y, cx, cy);
    LastSourceHits(width, height, x, y, cx, cy);
    forall q | p < q < n
      ensures TargetCell(width, x, y, q) != PatternAddr(cx, cy)
    {
      LaterElsewhere(width, height, x, y, cx, cy, q);
    }
  }

  lemma NoneReaches(width: nat, height: nat, x: nat, y: nat, cx: nat, cy: nat, n: nat)
    requires x < 32 && y < 32 && cx < 32 && cy < 32 && (Distance(x, cx) >= width || Distance(y, cy) >= height)
    requires width > 0 && n == width * height
    ensures NoneTo(width, x, y, n, PatternAddr(cx, cy))
  {
    forall p | 0 <= p < n
      ensures TargetCell(width, x, y, p) != PatternAddr(cx, cy)
    {
      NeverHit(width, height, x, y, cx, cy, p);
    }
  }

  /**
   * For blocks of any size: a cell holds the source tile in the last column that lands on its column and the last
   * row that lands on its row, modulo 32.
   */
  lemma PatternCell(v: seq<byte>, pattern: seq<Pattern>, width: nat, height: nat, x: nat, y: nat,
                    cx: nat, cy: nat, h: nat) returns (p: nat)
    requires |v| == VRAM_SIZE && width > 0 && |pattern| == width * height
    requires x < 32 && y < 32 && cx < 32 && cy < 32 && h < 32
    requires Distance(x, cx) < width && Distance(y, cy) < height
    ensures p == width * Latest(height, y, cy) + Latest(width, x, cx) && p < |pattern|
    ensures Apply(v, PatternOps(pattern, width, x, y))[0x4000 + 32 * (32 * cy + cx) + h] == pattern[p][h]
  {
    p := LastSourceIsLastTo(width, height, x, y, cx, cy, |pattern|);
    CellHolds(v, pattern, width, x, y, PatternAddr(cx, cy), p, h);
  }

  /** And it keeps what it held if no column or no row of the block lands there. */
  lemma PatternMissed(v: seq<byte>, pattern: seq<Pattern>, width: nat, height: nat, x: nat, y: nat,
                      cx: nat, cy: nat, h: nat)
    requires |v| == VRAM_SIZE && width > 0 && |pattern| == width * height && x < 32 && y < 32 && h < 32
    requires cx < 32 && cy < 32
    requires Distance(x, cx) >= width || Distance(y, cy) >= height
    ensures Apply(v, PatternOps(pattern, width, x, y))[0x4000 + 32 * (32 * cy + cx) + h]
         == v[0x4000 + 32 * (32 * cy + cx) + h]
  {
    NoneReaches(width, height, x, y, cx, cy, |pattern|);
    CellKept(v, pattern, width, x, y, PatternAddr(cx, cy), h);
  }

  /** The pattern writer touches nothing outside pattern RAM. */
  lemma PatternElsewhere(v: seq<byte>, pattern: seq<Pattern>, width: nat, x: nat, y: nat, a: nat)
    requires |v| == VRAM_SIZE && width > 0 && (a < 0x4000 || 0xC000 <= a < VRAM_SIZE)
    ensures Apply(v, PatternOps(pattern, width, x, y))[a] == v[a]
  {
    UncoveredUnchanged(v, PatternOps(pattern, width, x, y), a);
  }

  lemma LatestInWindow(n: nat, start: nat, i: nat)
    requires start < 32 && i < n <= i + 32
    ensures Distance(start, (start + i) % 32) < n && Latest(n, start, (start + i) % 32) == i
  {
    var c := (start + i) % 32;
    Reaches(start, c, i);
    LatestLands(n, start, c);
    SameResidue(start, i, Latest(n, start, c));
  }

  lemma SameResidue(start: nat, i: nat, k: nat)
    requires (start + i) % 32 == (start + k) % 32
    ensures i % 32 == k % 32
  {
  }

  /**
   * By coordinates: a source tile with none 32 columns to its right or 32 rows below it ends up whole in pattern cell
   * ((x + col) mod 32, (y + row) mod 32). In a block of at most 32 by 32 that is every tile.
   */
  lemma PatternLands(v: seq<byte>, pattern: seq<Pattern>, width: nat, height: nat, x: nat, y: nat,
                     row: nat, col: nat, h: nat) returns (p: nat)
    requires |v| == VRAM_SIZE && |pattern| == width * height && x < 32 && y < 32 && h < 32
    requires col < width <= col + 32 && row < height <= row + 32
    ensures p == width * row + col && p < |pattern|
    ensures Apply(v, PatternOps(pattern, width, x, y))[0x4000 + 32 * (32 * ((y + row) % 32) + (x + col) % 32) + h]
         == pattern[p][h]
  {
    LatestInWindow(width, x, col);
    LatestInWindow(height, y, row);
    p := PatternCell(v, pattern, width, height, x, y, (x + col) % 32, (y + row) % 32, h);
  }

  lemma SmallBlockLast(width: nat, height: nat, x: nat, y: nat, n: nat, p: nat) returns (cell: nat)
    requires 0 < width <= 32 && height <= 32 && n == width * height && x < 32 && y < 32 && p < n
    ensures cell == TargetCell(width, x, y, p) && LastTo(width, x, y, n, cell, p)
  {
    var row, col := RowAndColumn(width, height, x, y, p);
    LatestInWindow(width, x, col);
    LatestInWindow(height, y, row);
    var q := LastSourceIsLastTo(width, height, x, y, (x + col) % 32, (y + row) % 32, n);
    cell := TargetCell(width, x, y, p);
  }

  /** A block of at most 32 by 32 does not overwrite itself: every source tile ends up in the cell it goes to. */
  lemma SmallBlockIsWhole(v: seq<byte>, pattern: seq<Pattern>, width: nat, height: nat, x: nat, y: nat, p: nat, h: nat)
    returns (cell: nat)
    requires |v| == VRAM_SIZE && 0 < width <= 32 && height <= 32 && |pattern| == width * height
    requires x < 32 && y < 32 && p < |pattern| && h < 32
    ensures cell == TargetCell(width, x, y, p)
    ensures Apply(v, PatternOps(pattern, width, x, y))[0x4000 + 32 * cell + h] == pattern[p][h]
  {
    cell := SmallBlockLast(width, height, x, y, |pattern|, p);
    CellHolds(v, pattern, width, x, y, cell, p, h);
  }
}
