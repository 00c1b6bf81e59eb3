/** Writing runs of tiles: along a row, along a column, and what the layer holds afterwards. */
module TileWriters {
  import opened Arithmetic
  import opened Common
  import opened PpuDriver
  import opened PpuKernel
  import opened VramOps

  const LAYER_BG: nat := 1
  const LAYER_FG: nat := 2

  /** A tile word and its bytes in memory, low byte first. */
  type Tile = t: int | 0 <= t < 0x1_0000

  function TileBytes(t: Tile): (b: seq<byte>)
    ensures |b| == 2
  {
    [t % 256, t / 256]
  }

  function TilesBytes(ts: seq<Tile>): (b: seq<byte>)
    ensures |b| == 2 * |ts|
  {
    seq(2 * |ts|, i requires 0 <= i < 2 * |ts| => TileBytes(ts[i / 2])[i % 2])
  }

  /** The byte address of a tile cell. */
  function CellAddr(layer: nat, x: nat, y: nat): (a: nat)
    requires x < 64 && y < 64
    ensures a + 2 <= 0x4000 <= VRAM_SIZE
  {
    (if layer == LAYER_FG then 0x2000 else 0) + (y * 64 + x) * 2
  }

  /** How many tiles are written, and after how many source tiles the source repeats. */
  function Clamp(n: nat): nat { Min(n, 64) }

  /** The source tiles repeated to the length of the write. */
  function Repeated(tiles: seq<Tile>, count: nat): (r: seq<Tile>)
    requires tiles != []
    ensures |r| == Clamp(count)
  {
    seq(Clamp(count), i requires 0 <= i < Clamp(count) => tiles[i % Clamp(|tiles|)])
  }

  predicate Start(x: nat, y: nat) { x < 64 && y < 64 }

  // ----- rows -----

  /** The one or two pwrites of a horizontal run: up to the right edge, then from the left edge. */
  function RowOps(tiles: seq<Tile>, layer: nat, x: nat, y: nat, count: nat): (ops: seq<Op>)
    requires Start(x, y)
    ensures InBounds(ops)
  {
    if count == 0 || tiles == [] then []
    else
      var source := Repeated(tiles, count);
      var first := Min(64 - x, |source|);
      [Op(CellAddr(layer, x, y), TilesBytes(source[..first]))]
      + (if first < |source| then [Op(CellAddr(layer, 0, y), TilesBytes(source[first..]))] else [])
  }

  /** The buffer of tiles to write: the source, started again each time it runs out. */
  method RepeatTiles(tiles: seq<Tile>, count: nat) returns (buffer: array<Tile>)
    requires tiles != []
    ensures fresh(buffer) && buffer[..] == Repeated(tiles, count)
    ensures buffer.Length == if count < 64 then count else 64
    ensures forall i :: 0 <= i < buffer.Length ==> buffer[i] == tiles[i % (if |tiles| < 64 then |tiles| else 64)]
  {
    var n, len := Clamp(count), Clamp(|tiles|);
    buffer := new Tile[n];
    var next := 0;
    for i := 0 to n
      invariant next == i % len
      invariant forall j :: 0 <= j < i ==> buffer[j] == Repeated(tiles, count)[j]
    {
      buffer[i] := tiles[next];
      NextMod(i, len);
      next := if next == len - 1 then 0 else next + 1;
    }
  }

  method WriteTilesHorizontal(dev: Device, tiles: seq<Tile>, layer: nat, x: nat, y: nat, count: nat)
    returns (status: Status)
    requires dev.Valid()
    modifies dev, dev.kernel, dev.kernel.vram
    ensures status == Aborted <==> x >= 64 || y >= 64 || (layer != 1 && layer != 2)
    ensures status == Aborted ==> dev.attempts == old(dev.attempts) && dev.Vram() == old(dev.Vram())
    ensures Start(x, y) ==>
              Wrote(dev.locked, old(dev.attempts), dev.attempts, status,
                    old(dev.Vram()), RowOps(tiles, layer, x, y, count), dev.Vram())
  {
    if x >= 64 || y >= 64 || (layer != LAYER_BG && layer != LAYER_FG) { return Aborted; }
    if count == 0 || tiles == [] { return Done; }
    ghost var from, before := dev.attempts, dev.Vram();
    ghost var ops := RowOps(tiles, layer, x, y, count);

    var buffer := RepeatTiles(tiles, count);
    var offset := if layer == LAYER_FG then 0x2000 else 0;
    var startAddr := offset + (y * 64 + x) * 2;
    var toWrite := Min(64 - x, buffer.Length);

    var ok := dev.PwriteNext(TilesBytes(buffer[..toWrite]), startAddr, from, before, ops, 0);
    if !ok { return EBusy; }
    var written := toWrite;
    toWrite := buffer.Length - written;
    if toWrite == 0 {
      ApplyAll(before, ops);
      return Done;
    }

    startAddr := offset + (y * 64) * 2;
    ok := dev.PwriteNext(TilesBytes(buffer[written..]), startAddr, from, before, ops, 1);
    if !ok { return EBusy; }
    ApplyAll(before, ops);
    return Done;
  }

  // ----- columns -----

  /** The pwrites of a vertical run, one tile each. */
  function ColumnOps(tiles: seq<Tile>, layer: nat, x: nat, y: nat, count: nat): (ops: seq<Op>)
    requires Start(x, y)
    ensures InBounds(ops)
  {
    if count == 0 || tiles == [] then []
    else
      seq(Clamp(count), i requires 0 <= i < Clamp(count) =>
        Op(CellAddr(layer, x, (y + i) % 64), TileBytes(Repeated(tiles, count)[i])))
  }

  /** Writes from .. from + n - 1 put the tiles of the buffer one row below the other, from an address on. */
  predicate Downwards(ops: seq<Op>, buffer: seq<Tile>, from: nat, n: nat, addr: nat) {
    && from + n <= |buffer| == |ops|
    && (forall i :: from <= i < from + n ==> ops[i] == Op(addr + 128 * (i - from), TileBytes(buffer[i])))
  }

  /** The inner loop: n tiles of the buffer, one pwrite and one row each, downwards from an address. */
  method WriteDown(dev: Device, buffer: seq<Tile>, first: nat, n: nat, addr: nat,
                   ghost from: nat, ghost before: seq<byte>, ghost ops: seq<Op>)
    returns (ok: bool, ghost written: nat)
    requires dev.Valid() && |before| == VRAM_SIZE && InBounds(ops)
    requires Downwards(ops, buffer, first, n, addr) && dev.Made(from, before, ops, first)
    modifies dev, dev.kernel, dev.kernel.vram
    ensures if ok then dev.Made(from, before, ops, first + n)
            else first <= written < first + n && dev.Refused(from, before, ops, written)
  {
    var toWrite, next := n, addr;
    var done := first;
    written := done;
    while toWrite != 0 && done < |buffer|
      invariant 0 <= toWrite && first <= done && done + toWrite == first + n
      invariant next == addr + 128 * (done - first)
      invariant dev.Made(from, before, ops, done)
    {
      ok := dev.PwriteNext(TileBytes(buffer[done]), next, from, before, ops, done);
      if !ok { return false, done; }
      done := done + 1;
      toWrite := toWrite - 1;
      next := next + 128;
    }
    ok := true;
  }

  /** Cell i of a run of cells down a column, wrapping at the bottom edge. */
  function ColumnCell(layer: nat, x: nat, y: nat, i: nat): (a: nat)
    requires Start(x, y)
    ensures a + 2 <= 0x4000
  {
    CellAddr(layer, x, (y + i) % 64)
  }

  /** ops write the source down a column, one cell each. */
  predicate IsColumn(ops: seq<Op>, source: seq<Tile>, layer: nat, x: nat, y: nat) {
    && Start(x, y) && |ops| == |source| <= 64
    && (forall i :: 0 <= i < |ops| ==> ops[i] == Op(ColumnCell(layer, x, y, i), TileBytes(source[i])))
  }

  lemma ColumnOpsAreColumn(tiles: seq<Tile>, layer: nat, x: nat, y: nat, count: nat)
    requires Start(x, y) && tiles != [] && count > 0
    ensures IsColumn(ColumnOps(tiles, layer, x, y, count), Repeated(tiles, count), layer, x, y)
  {
  }

  /** Rows lie 128 bytes apart until the bottom edge, and again beyond it. */
  lemma RowsApart(layer: nat, x: nat, y: nat, from: nat, i: nat)
    requires Start(x, y) && from <= i < 64 && (y + i < 64 || y + from >= 64)
    ensures ColumnCell(layer, x, y, i) == ColumnCell(layer, x, y, from) + 128 * (i - from)
  {
    assert (y + i) % 64 == (y + from) % 64 + (i - from);
  }

  lemma ColumnStretch(ops: seq<Op>, source: seq<Tile>, layer: nat, x: nat, y: nat, from: nat, n: nat, addr: nat)
    requires IsColumn(ops, source, layer, x, y) && from + n <= |ops| && (y + from + n <= 64 || y + from >= 64)
    requires n > 0 ==> addr == ColumnCell(layer, x, y, from)
    ensures Downwards(ops, source, from, n, addr)
  {
    forall i | from <= i < from + n
      ensures ops[i] == Op(addr + 128 * (i - from), TileBytes(source[i]))
    {
      RowsApart(layer, x, y, from, i);
    }
  }

  /** The first cell of the column, and the cell at the top edge that comes after the bottom one. */
  lemma ColumnWraps(layer: nat, x: nat, y: nat)
    requires Start(x, y)
    ensures ColumnCell(layer, x, y, 0) == (if layer == LAYER_FG then 0x2000 else 0) + (y * 64 + x) * 2
    ensures ColumnCell(layer, x, y, 64 - y) == (if layer == LAYER_FG then 0x2000 else 0) + x * 2
  {
  }

  /** One run of the inner loop, along a stretch of the column that does not cross the edge. */
  method WriteStretch(dev: Device, layer: nat, x: nat, y: nat, source: seq<Tile>, done: nat, n: nat, addr: nat,
                      ghost from: nat, ghost before: seq<byte>, ghost ops: seq<Op>)
    returns (ok: bool, ghost written: nat)
    requires dev.Valid() && |before| == VRAM_SIZE && InBounds(ops) && IsColumn(ops, source, layer, x, y)
    requires done + n <= |ops| && (y + done + n <= 64 || y + done >= 64) && dev.Made(from, before, ops, done)
    requires n > 0 ==> addr == ColumnCell(layer, x, y, done)
    modifies dev, dev.kernel, dev.kernel.vram
    ensures if ok then dev.Made(from, before, ops, done + n)
            else done <= written < done + n && dev.Refused(from, before, ops, written)
  {
    ColumnStretch(ops, source, layer, x, y, done, n, addr);
    ok, written := WriteDown(dev, source, done, n, addr, from, before, ops);
  }

  /** The outer loop: down to the bottom edge, then on from row 0. */
  method WriteWrapped(dev: Device, layer: nat, x: nat, y: nat, source: seq<Tile>,
                      ghost from: nat, ghost before: seq<byte>, ghost ops: seq<Op>)
    returns (ok: bool, ghost written: nat, ghost passes: nat)
    requires dev.Valid() && |before| == VRAM_SIZE && InBounds(ops) && IsColumn(ops, source, layer, x, y)
    requires dev.Made(from, before, ops, 0)
    modifies dev, dev.kernel, dev.kernel.vram
    ensures if ok then dev.Made(from, before, ops, |ops|)
            else written < |ops| && dev.Refused(from, before, ops, written)
    ensures passes <= 2
  {
    var n := |source|;
    var offset := if layer == LAYER_FG then 0x2000 else 0;
    var startAddr := offset + (y * 64 + x) * 2;
    var toWrite := Min(64 - y, n);
    var done := 0;
    written, passes, ok := 0, 0, true;
    ColumnWraps(layer, x, y);
    while done < n
      invariant done <= n && passes <= 2 && ok
      invariant if passes == 0 then done == 0 else done + toWrite == n
      invariant passes == 0 ==> toWrite == Min(64 - y, n)
      invariant passes == 1 ==> done == Min(64 - y, n)
      invariant passes == 2 ==> done == n
      invariant done < n ==> startAddr == ColumnCell(layer, x, y, done)
      invariant dev.Made(from, before, ops, done)
    {
      ok, written := WriteStretch(dev, layer, x, y, source, done, toWrite, startAddr, from, before, ops);
      if !ok { return; }
      done := done + toWrite;
      toWrite := n - done;
      startAddr := offset + x * 2;
      passes := passes + 1;
    }
  }

  method WriteTilesVertical(dev: Device, tiles: seq<Tile>, layer: nat, x: nat, y: nat, count: nat)
    returns (status: Status, ghost passes: nat)
    requires dev.Valid()
    modifies dev, dev.kernel, dev.kernel.vram
    ensures status == Aborted <==> x >= 64 || y >= 64
    ensures status == Aborted ==> dev.attempts == old(dev.attempts) && dev.Vram() == old(dev.Vram())
    ensures Start(x, y) ==>
              Wrote(dev.locked, old(dev.attempts), dev.attempts, status,
                    old(dev.Vram()), ColumnOps(tiles, layer, x, y, count), dev.Vram())
    ensures passes <= 2
  {
    if x >= 64 || y >= 64 { return Aborted, 0; }
    if count == 0 || tiles == [] { return Done, 0; }
    ghost var from, before := dev.attempts, dev.Vram();
    ghost var ops := ColumnOps(tiles, layer, x, y, count);
    var buffer := RepeatTiles(tiles, count);
    ColumnOpsAreColumn(tiles, layer, x, y, count);
    var ok, written, n := WriteWrapped(dev, layer, x, y, buffer[..], from, before, ops);
    if !ok { return EBusy, n; }
    ApplyAll(before, ops);
    return Done, n;
  }
}
