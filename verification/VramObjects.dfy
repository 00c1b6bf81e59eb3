/** The things a program puts in VRAM: where the library writes them and where the hardware looks for them. */
module VramObjects {
  import opened Common
  import opened PpuDriver
  import opened PpuKernel
  import opened VramOps
  import opened VramMap

  datatype Layer = Bg | Fg | Spr

  /** A tile of a tile layer, a tile pattern, the 15 opaque colours of a palette, the main word of a sprite. */
  datatype Object =
    | TileCell(layer: Layer, x: nat, y: nat)
    | PatternTile(px: nat, py: nat)
    | Palette(source: Layer, id: nat)
    | SpriteWord(sprite: nat)

  predicate Exists(o: Object) {
    match o
    case TileCell(layer, x, y) => layer != Spr && x < 64 && y < 64
    case PatternTile(x, y) => x < 32 && y < 32
    case Palette(source, id) => id < if source == Spr then 32 else 16
    case SpriteWord(sprite) => sprite < 64
  }

  function Size(o: Object): (n: nat)
    ensures n > 0
  {
    match o
    case TileCell(_, _, _) => 2
    case PatternTile(_, _) => 32
    case Palette(_, _) => 60
    case SpriteWord(_) => 4
  }

  /** The byte offset at which the library writes the object. */
  function Address(o: Object): nat {
    match o
    case TileCell(layer, x, y) => (if layer == Fg then 0x2000 else 0) + (y * 64 + x) * 2
    case PatternTile(x, y) => 0x4000 + 32 * (y * 32 + x)
    case Palette(source, id) => 0xC000 + (match source case Bg => 0 case Fg => 0x400 case Spr => 0x800) + id * 64 + 4
    case SpriteWord(sprite) => 0xD000 + sprite * 4
  }

  function HomeRam(o: Object): Ram {
    match o
    case TileCell(_, _, _) => TileRam
    case PatternTile(_, _) => PatternRam
    case Palette(_, _) => PaletteRam
    case SpriteWord(_) => SpriteRam
  }

  /**
   * The byte address within its memory at which the display hardware reads the object. Its memories are 64 bits wide:
   * a tile is a quarter of entry {layer, row, column / 4}, a pattern is the four entries {pattern, 0} to {pattern, 3},
   * a colour is half of entry {source, palette, colour / 2} and a sprite is half of entry sprite / 2.
   */
  function Home(o: Object): nat {
    match o
    case TileCell(layer, x, y) => 8 * ((if layer == Fg then 1024 else 0) + 16 * y + x / 4) + 2 * (x % 4)
    case PatternTile(x, y) => 8 * (4 * (32 * y + x))
    case Palette(source, id) => 4 * (16 * ((match source case Bg => 0 case Fg => 16 case Spr => 32) + id) + 1)
    case SpriteWord(sprite) => 8 * (sprite / 2) + 4 * (sprite % 2)
  }

  /** The library's offsets and the hardware's addresses name the same places, inside VRAM and inside the memory. */
  lemma OffsetsAgree(o: Object)
    requires Exists(o)
    ensures Address(o) == 16 * Base(HomeRam(o)) + Home(o)
    ensures Home(o) + Size(o) <= 16 * Words(HomeRam(o)) && Address(o) + Size(o) <= VRAM_SIZE
  {
  }

  predicate Within(o: Object, a: nat) { Address(o) <= a < Address(o) + Size(o) }

  lemma SameRegion(o: Object, p: Object, a: nat)
    requires Exists(o) && Exists(p) && Within(o, a) && Within(p, a)
    ensures HomeRam(o) == HomeRam(p)
  {
    OffsetsAgree(o);
    OffsetsAgree(p);
  }

  lemma TilesApart(o: Object, p: Object, a: nat)
    requires Exists(o) && Exists(p) && Within(o, a) && Within(p, a) && o.TileCell? && p.TileCell?
    ensures o == p
  {
  }

  lemma PatternsApart(o: Object, p: Object, a: nat)
    requires Exists(o) && Exists(p) && Within(o, a) && Within(p, a) && o.PatternTile? && p.PatternTile?
    ensures o == p
  {
  }

  lemma PalettesApart(o: Object, p: Object, a: nat)
    requires Exists(o) && Exists(p) && Within(o, a) && Within(p, a) && o.Palette? && p.Palette?
    ensures o == p
  {
  }

  /** Distinct objects share no byte. */
  lemma NeverAlias(o: Object, p: Object, a: nat)
    requires Exists(o) && Exists(p) && Within(o, a) && Within(p, a)
    ensures o == p
  {
    SameRegion(o, p, a);
    match HomeRam(o)
    case TileRam => TilesApart(o, p, a);
    case PatternRam => PatternsApart(o, p, a);
    case PaletteRam => PalettesApart(o, p, a);
    case SpriteRam =>
  }

  /** Colour 0 of a palette, the transparent one, belongs to no object. */
  lemma ColourZeroIsNobodys(source: Layer, id: nat, o: Object, a: nat)
    requires Exists(Palette(source, id)) && Exists(o)
    requires Address(Palette(source, id)) - 4 <= a < Address(Palette(source, id))
    ensures !Within(o, a)
  {
    OffsetsAgree(o);
  }

  // ----- edits -----

  /** One object written. */
  datatype Edit = Edit(o: Object, data: seq<byte>)

  predicate Proper(edits: seq<Edit>) {
    forall i :: 0 <= i < |edits| ==> Exists(edits[i].o) && |edits[i].data| == Size(edits[i].o)
  }

  function EditOps(edits: seq<Edit>): (ops: seq<Op>)
    requires Proper(edits)
    ensures |ops| == |edits| && InBounds(ops)
  {
    var ops := seq(|edits|, i requires 0 <= i < |edits| => Op(Address(edits[i].o), edits[i].data));
    assert InBounds(ops) by {
      forall i | 0 <= i < |edits| ensures ops[i].offset + |ops[i].data| <= VRAM_SIZE { OffsetsAgree(edits[i].o); }
    }
    ops
  }

  /** The last data written to an object, if any. */
  function LastEdit(edits: seq<Edit>, o: Object): Option<seq<byte>> {
    if edits == [] then None
    else
      var last := edits[|edits| - 1];
      if last.o == o then Some(last.data) else LastEdit(edits[..|edits| - 1], o)
  }

  lemma {:induction false} LastEditSize(edits: seq<Edit>, o: Object)
    requires Proper(edits) && LastEdit(edits, o).Some?
    ensures |LastEdit(edits, o).value| == Size(o)
  {
    if edits[|edits| - 1].o != o { LastEditSize(edits[..|edits| - 1], o); }
  }

  lemma {:induction false} EditedByte(v: seq<byte>, edits: seq<Edit>, o: Object, h: nat)
    requires |v| == VRAM_SIZE && Proper(edits) && Exists(o) && h < Size(o)
    ensures Address(o) + h < VRAM_SIZE
    ensures LastEdit(edits, o).Some? ==> |LastEdit(edits, o).value| == Size(o)
    ensures Apply(v, EditOps(edits))[Address(o) + h] ==
            match LastEdit(edits, o) case Some(data) => data[h] case None => v[Address(o) + h]
    decreases |edits|
  {
    OffsetsAgree(o);
    if edits != [] {
      var last := |edits| - 1;
      var ops := EditOps(edits);
      EditedByte(v, edits[..last], o, h);
      assert ops[..last] == EditOps(edits[..last]);
      SpliceAt(Apply(v, ops[..last]), ops[last], Address(o) + h);
      if Covers(ops[last], Address(o) + h) { NeverAlias(o, edits[last].o, Address(o) + h); }
    }
  }

  /** A byte of no object is left alone. */
  lemma OthersUntouched(v: seq<byte>, edits: seq<Edit>, a: nat)
    requires |v| == VRAM_SIZE && Proper(edits) && a < VRAM_SIZE
    requires forall o :: Exists(o) ==> !Within(o, a)
    ensures Apply(v, EditOps(edits))[a] == v[a]
  {
    UncoveredUnchanged(v, EditOps(edits), a);
  }

  /**
   * After any edits and a transfer, the hardware finds in each object's home the last data written to that object, or
   * what the kernel's VRAM held there before if it was not written.
   */
  lemma EditsReachHardware(r: Rams, v: seq<byte>, edits: seq<Edit>, order: seq<nat>, o: Object, h: nat)
    requires r.Valid() && |v| == VRAM_SIZE && Proper(edits) && Whole(order) && Exists(o) && h < Size(o)
    ensures Home(o) + h < 16 * Words(HomeRam(o)) && Address(o) + h < VRAM_SIZE
    ensures LastEdit(edits, o).Some? ==> |LastEdit(edits, o).value| == Size(o)
    ensures Transfer(r, Apply(v, EditOps(edits)), order).Byte(HomeRam(o), Home(o) + h) ==
            match LastEdit(edits, o) case Some(data) => data[h] case None => v[Address(o) + h]
  {
    OffsetsAgree(o);
    EditedByte(v, edits, o, h);
    TransferIsImage(r, Apply(v, EditOps(edits)), order, HomeRam(o), Home(o) + h);
  }
}
