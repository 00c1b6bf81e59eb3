/** Any sequence of calls to the VRAM writers, seen as edits of objects and followed into the hardware's memories. */
module LibraryCalls {
  import opened Arithmetic
  import opened Common
  import opened PpuDriver
  import opened PpuKernel
  import opened VramOps
  import opened VramMap
  import opened VramObjects
  import TileWriters
  import TileLayer
  import PatternWriter
  import ObjectWriters

  type Tile = TileWriters.Tile

  // ----- runs -----

  lemma {:induction false} ApplyConcat(v: seq<byte>, a: seq<Op>, b: seq<Op>)
    requires |v| == VRAM_SIZE && InBounds(a) && InBounds(b)
    ensures InBounds(a + b) && Apply(v, a + b) == Apply(Apply(v, a), b)
    decreases |b|
  {
    if b == [] {
      assert a + b == a;
    } else {
      var last := |b| - 1;
      ApplyConcat(v, a, b[..last]);
      var ab := a + b;
      assert ab[..|ab| - 1] == a + b[..last] && ab[|ab| - 1] == b[last];
    }
  }

  /** Writing two pieces in one go is writing them one after the other. */
  lemma SpliceTwo(v: seq<byte>, offset: nat, a: seq<byte>, b: seq<byte>)
    requires offset + |a| + |b| <= |v|
    ensures Splice(Splice(v, offset, a), offset + |a|, b) == Splice(v, offset, a + b)
  {
  }

  /** Tiles side by side, one write each. */
  function TileOps(offset: nat, ts: seq<Tile>): (ops: seq<Op>)
    requires offset + 2 * |ts| <= VRAM_SIZE
    ensures |ops| == |ts| && InBounds(ops)
  {
    seq(|ts|, i requires 0 <= i < |ts| => Op(offset + 2 * i, TileWriters.TileBytes(ts[i])))
  }

  lemma LastTile(ts: seq<Tile>)
    requires ts != []
    ensures TileWriters.TilesBytes(ts) ==
            TileWriters.TilesBytes(ts[..|ts| - 1]) + TileWriters.TileBytes(ts[|ts| - 1])
  {
  }

  /** A run of tiles in one pwrite is the same as one pwrite a tile. */
  lemma {:induction false} TileRun(v: seq<byte>, offset: nat, ts: seq<Tile>)
    requires |v| == VRAM_SIZE && offset + 2 * |ts| <= VRAM_SIZE
    ensures Splice(v, offset, TileWriters.TilesBytes(ts)) == Apply(v, TileOps(offset, ts))
    decreases |ts|
  {
    if ts != [] {
      var init := ts[..|ts| - 1];
      TileRun(v, offset, init);
      LastTile(ts);
      SpliceTwo(v, offset, TileWriters.TilesBytes(init), TileWriters.TileBytes(ts[|ts| - 1]));
      assert TileOps(offset, ts)[..|ts| - 1] == TileOps(offset, init);
    }
  }

  function WordOps(offset: nat, ws: seq<ObjectWriters.Word>): (ops: seq<Op>)
    requires offset + 4 * |ws| <= VRAM_SIZE
    ensures |ops| == |ws| && InBounds(ops)
  {
    seq(|ws|, i requires 0 <= i < |ws| => Op(offset + 4 * i, ObjectWriters.WordBytes(ws[i])))
  }

  lemma LastWord(ws: seq<ObjectWriters.Word>)
    requires ws != []
    ensures ObjectWriters.WordsBytes(ws) ==
            ObjectWriters.WordsBytes(ws[..|ws| - 1]) + ObjectWriters.WordBytes(ws[|ws| - 1])
  {
  }

  lemma {:induction false} WordRun(v: seq<byte>, offset: nat, ws: seq<ObjectWriters.Word>)
    requires |v| == VRAM_SIZE && offset + 4 * |ws| <= VRAM_SIZE
    ensures Splice(v, offset, ObjectWriters.WordsBytes(ws)) == Apply(v, WordOps(offset, ws))
    decreases |ws|
  {
    if ws != [] {
      var init := ws[..|ws| - 1];
      WordRun(v, offset, init);
      LastWord(ws);
      SpliceTwo(v, offset, ObjectWriters.WordsBytes(init), ObjectWriters.WordBytes(ws[|ws| - 1]));
      assert WordOps(offset, ws)[..|ws| - 1] == WordOps(offset, init);
    }
  }

  lemma WordRunOps(v: seq<byte>, offset: nat, ws: seq<ObjectWriters.Word>)
    requires |v| == VRAM_SIZE && offset + 4 * |ws| <= VRAM_SIZE
    ensures var ops := [Op(offset, ObjectWriters.WordsBytes(ws))];
            InBounds(ops) && Apply(v, ops) == Apply(v, WordOps(offset, ws))
  {
    ObjectWriters.OneWrite(v, Op(offset, ObjectWriters.WordsBytes(ws)));
    WordRun(v, offset, ws);
  }

  // ----- calls -----

  /** A call of one of the writers. */
  datatype Call =
    | Row(tiles: seq<Tile>, layer: nat, x: nat, y: nat, count: nat)
    | Column(tiles: seq<Tile>, layer: nat, x: nat, y: nat, count: nat)
    | Patterns(patterns: seq<PatternWriter.Pattern>, width: nat, height: nat, addr: nat)
    | SetPalette(palette: seq<ObjectWriters.Word>, layer: nat, id: nat)
    | Sprites(sprites: seq<ObjectWriters.Sprite>, id: nat)

  /** The calls that are not aborted. */
  predicate Accepted(c: Call) {
    match c
    case Row(_, layer, x, y, _) =>
      TileWriters.Start(x, y) && (layer == TileWriters.LAYER_BG || layer == TileWriters.LAYER_FG)
    case Column(_, _, x, y, _) => TileWriters.Start(x, y)
    case Patterns(patterns, width, height, addr) =>
      addr <= 1023 && width > 0 && height > 0 && |patterns| == width * height
    case SetPalette(palette, layer, id) =>
      |palette| == 15 && Exists(Palette(ObjectWriters.PaletteSource(layer), id))
    case Sprites(sprites, id) => id + |sprites| <= 64 && ObjectWriters.AllWellFormed(sprites)
  }

  /** The pwrites a successful call makes. */
  function Ops(c: Call): (ops: seq<Op>)
    requires Accepted(c)
    ensures InBounds(ops)
  {
    match c
    case Row(tiles, layer, x, y, count) => TileWriters.RowOps(tiles, layer, x, y, count)
    case Column(tiles, layer, x, y, count) => TileWriters.ColumnOps(tiles, layer, x, y, count)
    case Patterns(patterns, width, height, addr) => PatternWriter.PatternOps(patterns, width, addr % 32, addr / 32)
    case SetPalette(palette, layer, id) => EditOps([ObjectWriters.PaletteEdit(palette, layer, id)])
    case Sprites(sprites, id) => ObjectWriters.SpriteOps(sprites, id)
  }

  function LayerOf(layer: nat): Layer { if layer == TileWriters.LAYER_FG then Fg else Bg }

  function TileEdit(layer: nat, x: nat, y: nat, t: Tile): Edit {
    Edit(TileCell(LayerOf(layer), x, y), TileWriters.TileBytes(t))
  }

  function PatternEdit(width: nat, x: nat, y: nat, p: nat, tile: PatternWriter.Pattern): Edit
    requires width > 0
  {
    Edit(PatternTile((x + p % width) % 32, (y + p / width) % 32), tile)
  }

  function SpriteEdit(id: nat, s: ObjectWriters.Sprite): Edit
    requires ObjectWriters.WellFormed(s)
  {
    Edit(SpriteWord(id), ObjectWriters.WordBytes(ObjectWriters.Pack(s)))
  }

  function RowEdits(source: seq<Tile>, layer: nat, x: nat, y: nat): (edits: seq<Edit>)
    requires TileWriters.Start(x, y)
    ensures |edits| == |source| && Proper(edits)
  {
    seq(|source|, i requires 0 <= i < |source| => TileEdit(layer, (x + i) % 64, y, source[i]))
  }

  function SpriteEdits(sprites: seq<ObjectWriters.Sprite>, id: nat): (edits: seq<Edit>)
    requires ObjectWriters.AllWellFormed(sprites) && id + |sprites| <= 64
    ensures |edits| == |sprites| && Proper(edits)
  {
    seq(|sprites|, i requires 0 <= i < |sprites| => SpriteEdit(id + i, sprites[i]))
  }

  /** The objects a successful call writes, in order. */
  function Edits(c: Call): (edits: seq<Edit>)
    requires Accepted(c)
    ensures Proper(edits)
  {
    match c
    case Row(tiles, layer, x, y, count) =>
      RowEdits(TileLayer.Source(tiles, count), layer, x, y)
    case Column(tiles, layer, x, y, count) =>
      var source := TileLayer.Source(tiles, count);
      seq(|source|, i requires 0 <= i < |source| => TileEdit(layer, x, (y + i) % 64, source[i]))
    case Patterns(patterns, width, height, addr) =>
      seq(|patterns|, p requires 0 <= p < |patterns| => PatternEdit(width, addr % 32, addr / 32, p, patterns[p]))
    case SetPalette(palette, layer, id) => [ObjectWriters.PaletteEdit(palette, layer, id)]
    case Sprites(sprites, id) => SpriteEdits(sprites, id)
  }

  /** A row in two pieces is the tiles of the first and then those of the second. */
  lemma TwoRuns(v: seq<byte>, ops: seq<Op>, a: nat, s: seq<Tile>, b: nat, t: seq<Tile>)
    requires |v| == VRAM_SIZE && a + 2 * |s| <= VRAM_SIZE && b + 2 * |t| <= VRAM_SIZE
    requires ops == [Op(a, TileWriters.TilesBytes(s)), Op(b, TileWriters.TilesBytes(t))] && InBounds(ops)
    ensures Apply(v, ops) == Apply(v, TileOps(a, s) + TileOps(b, t))
  {
    var w := Splice(v, a, TileWriters.TilesBytes(s));
    assert ops[..1] == [ops[0]];
    ObjectWriters.OneWrite(v, ops[0]);
    TileRun(v, a, s);
    TileRun(w, b, t);
    ApplyConcat(v, TileOps(a, s), TileOps(b, t));
  }

  lemma RowEditsInOneRun(source: seq<Tile>, layer: nat, x: nat, y: nat)
    requires TileWriters.Start(x, y) && x + |source| <= 64
    ensures EditOps(RowEdits(source, layer, x, y)) == TileOps(TileWriters.CellAddr(layer, x, y), source)
  {
  }

  lemma RowEditsInTwoRuns(source: seq<Tile>, layer: nat, x: nat, y: nat)
    requires TileWriters.Start(x, y) && 64 - x < |source| <= 64
    ensures EditOps(RowEdits(source, layer, x, y))
         == TileOps(TileWriters.CellAddr(layer, x, y), source[..64 - x])
          + TileOps(TileWriters.CellAddr(layer, 0, y), source[64 - x..])
  {
  }

  lemma RowIsEdits(v: seq<byte>, ops: seq<Op>, source: seq<Tile>, layer: nat, x: nat, y: nat)
    requires |v| == VRAM_SIZE && InBounds(ops) && TileLayer.IsRow(ops, source, layer, x, y)
    ensures Apply(v, ops) == Apply(v, EditOps(RowEdits(source, layer, x, y)))
  {
    var here, edge := TileWriters.CellAddr(layer, x, y), TileWriters.CellAddr(layer, 0, y);
    if x + |source| <= 64 {
      ObjectWriters.OneWrite(v, ops[0]);
      TileRun(v, here, source);
      RowEditsInOneRun(source, layer, x, y);
    } else {
      TwoRuns(v, ops, here, source[..64 - x], edge, source[64 - x..]);
      RowEditsInTwoRuns(source, layer, x, y);
    }
  }

  lemma RowCallIsEdits(v: seq<byte>, c: Call)
    requires |v| == VRAM_SIZE && c.Row? && Accepted(c)
    ensures Apply(v, Ops(c)) == Apply(v, EditOps(Edits(c)))
  {
    if c.tiles != [] && c.count > 0 {
      TileLayer.RowOpsAreRow(c.tiles, c.layer, c.x, c.y, c.count);
      RowIsEdits(v, Ops(c), TileLayer.Source(c.tiles, c.count), c.layer, c.x, c.y);
    }
  }

  lemma SpriteEditsAreWords(sprites: seq<ObjectWriters.Sprite>, id: nat)
    requires ObjectWriters.AllWellFormed(sprites) && id + |sprites| <= 64
    ensures EditOps(SpriteEdits(sprites, id)) == WordOps(0xD000 + id * 4, ObjectWriters.SpriteWords(sprites))
  {
  }

  lemma SpritesAreEdits(v: seq<byte>, sprites: seq<ObjectWriters.Sprite>, id: nat)
    requires |v| == VRAM_SIZE && ObjectWriters.AllWellFormed(sprites) && id + |sprites| <= 64
    ensures Apply(v, ObjectWriters.SpriteOps(sprites, id)) == Apply(v, EditOps(SpriteEdits(sprites, id)))
  {
    WordRunOps(v, 0xD000 + id * 4, ObjectWriters.SpriteWords(sprites));
    SpriteEditsAreWords(sprites, id);
  }

  /** Every successful call edits objects and does nothing else. */
  lemma CallIsEdits(v: seq<byte>, c: Call)
    requires |v| == VRAM_SIZE && Accepted(c)
    ensures Apply(v, Ops(c)) == Apply(v, EditOps(Edits(c)))
  {
    match c
    case Row(_, _, _, _, _) => RowCallIsEdits(v, c);
    case Column(_, _, _, _, _) => assert Ops(c) == EditOps(Edits(c));
    case Patterns(_, _, _, _) => assert Ops(c) == EditOps(Edits(c));
    case SetPalette(_, _, _) =>
    case Sprites(sprites, id) => SpritesAreEdits(v, sprites, id);
  }

  lemma WholePattern(patterns: seq<PatternWriter.Pattern>, n: nat)
    requires n == |patterns|
    ensures patterns[..n] == patterns
  {
  }

  /**
   * A call of a writer. It is aborted exactly if it is not accepted; otherwise it makes all its pwrites, or those
   * before the first that finds the lock held.
   */
  method Make(dev: Device, c: Call) returns (status: Status)
    requires dev.Valid()
    requires c.Patterns? ==> |c.patterns| == c.width * c.height
    requires c.SetPalette? ==> |c.palette| == 15
    modifies dev, dev.kernel, dev.kernel.vram
    ensures status == Aborted <==> !Accepted(c)
    ensures status == Aborted ==> dev.attempts == old(dev.attempts) && dev.Vram() == old(dev.Vram())
    ensures Accepted(c) ==>
              Wrote(dev.locked, old(dev.attempts), dev.attempts, status, old(dev.Vram()), Ops(c), dev.Vram())
  {
    match c
    case Row(tiles, layer, x, y, count) =>
      status := TileWriters.WriteTilesHorizontal(dev, tiles, layer, x, y, count);
    case Column(tiles, layer, x, y, count) =>
      ghost var passes;
      status, passes := TileWriters.WriteTilesVertical(dev, tiles, layer, x, y, count);
    case Patterns(patterns, width, height, addr) =>
      WholePattern(patterns, width * height);
      status := PatternWriter.WritePattern(dev, patterns, width, height, addr);
    case SetPalette(palette, layer, id) =>
      status := ObjectWriters.WritePalette(dev, palette, layer, id);
    case Sprites(sprites, id) =>
      status := ObjectWriters.WriteSpriteWords(dev, sprites, id);
  }

  // ----- sequences of calls -----

  predicate AllAccepted(calls: seq<Call>) {
    forall i :: 0 <= i < |calls| ==> Accepted(calls[i])
  }

  function CallOps(calls: seq<Call>): (ops: seq<seq<Op>>)
    requires AllAccepted(calls)
    ensures |ops| == |calls| && CallsInBounds(ops)
  {
    seq(|calls|, i requires 0 <= i < |calls| => Ops(calls[i]))
  }

  function AllEdits(calls: seq<Call>): (edits: seq<Edit>)
    requires AllAccepted(calls)
    ensures Proper(edits)
  {
    if calls == [] then [] else AllEdits(calls[..|calls| - 1]) + Edits(calls[|calls| - 1])
  }

  lemma EditOpsConcat(a: seq<Edit>, b: seq<Edit>)
    requires Proper(a) && Proper(b)
    ensures EditOps(a + b) == EditOps(a) + EditOps(b)
  {
  }

  lemma PerformLast(v: seq<byte>, calls: seq<Call>)
    requires |v| == VRAM_SIZE && AllAccepted(calls) && calls != []
    ensures Perform(v, CallOps(calls)) == Apply(Perform(v, CallOps(calls[..|calls| - 1])), Ops(calls[|calls| - 1]))
  {
    assert CallOps(calls)[..|calls| - 1] == CallOps(calls[..|calls| - 1]);
  }

  lemma {:induction false} CallsAreEdits(v: seq<byte>, calls: seq<Call>)
    requires |v| == VRAM_SIZE && AllAccepted(calls)
    ensures Perform(v, CallOps(calls)) == Apply(v, EditOps(AllEdits(calls)))
    decreases |calls|
  {
    if calls != [] {
      var init, last := calls[..|calls| - 1], calls[|calls| - 1];
      CallsAreEdits(v, init);
      PerformLast(v, calls);
      CallIsEdits(Perform(v, CallOps(init)), last);
      EditOpsConcat(AllEdits(init), Edits(last));
      ApplyConcat(v, EditOps(AllEdits(init)), EditOps(Edits(last)));
    }
  }

  /**
   * After any sequence of successful calls and a transfer, the hardware finds in each object's home the last data
   * any of the calls wrote to it, and in the homes of the objects they did not write what was there before.
   */
  lemma CallsReachHardware(r: Rams, v: seq<byte>, calls: seq<Call>, order: seq<nat>, o: Object, h: nat)
    requires r.Valid() && |v| == VRAM_SIZE && AllAccepted(calls) && Whole(order) && Exists(o) && h < Size(o)
    ensures Home(o) + h < 16 * Words(HomeRam(o)) && Address(o) + h < VRAM_SIZE
    ensures var written := LastEdit(AllEdits(calls), o);
            && (written.Some? ==> |written.value| == Size(o))
            && Transfer(r, Perform(v, CallOps(calls)), order).Byte(HomeRam(o), Home(o) + h) ==
               match written case Some(data) => data[h] case None => v[Address(o) + h]
  {
    CallsAreEdits(v, calls);
    EditsReachHardware(r, v, AllEdits(calls), order, o, h);
  }

  /** No sequence of calls touches colour 0 of a palette. */
  lemma ColourZeroUntouched(v: seq<byte>, calls: seq<Call>, source: Layer, id: nat, a: nat)
    requires |v| == VRAM_SIZE && AllAccepted(calls) && Exists(Palette(source, id))
    requires Address(Palette(source, id)) - 4 <= a < Address(Palette(source, id))
    ensures a < VRAM_SIZE && Perform(v, CallOps(calls))[a] == v[a]
  {
    OffsetsAgree(Palette(source, id));
    CallsAreEdits(v, calls);
    forall o | Exists(o) ensures !Within(o, a) { ColourZeroIsNobodys(source, id, o, a); }
    OthersUntouched(v, AllEdits(calls), a);
  }
}
