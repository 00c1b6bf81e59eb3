/** Writing palettes and sprites, and the packing of the words that describe tiles and sprites. */
module ObjectWriters {
  import opened Common
  import opened PpuDriver
  import opened PpuKernel
  import opened VramOps
  import opened VramObjects

  type Word = w: int | 0 <= w < 0x1_0000_0000

  function WordBytes(w: Word): (b: seq<byte>)
    ensures |b| == 4
  {
    [w % 256, w / 0x100 % 256, w / 0x1_0000 % 256, w / 0x100_0000]
  }

  function WordsBytes(ws: seq<Word>): (b: seq<byte>)
    ensures |b| == 4 * |ws|
  {
    seq(4 * |ws|, i requires 0 <= i < 4 * |ws| => WordBytes(ws[i / 4])[i % 4])
  }

  /** Read back low byte first, the bytes are the word again. */
  lemma WordReadsBack(w: Word)
    ensures var b := WordBytes(w);
            b[0] as int + 0x100 * b[1] as int + 0x1_0000 * b[2] as int + 0x100_0000 * b[3] as int == w
  {
    var high := w / 0x100;
    assert w == 0x100 * high + w % 0x100;
    assert high == 0x100 * (high / 0x100) + high % 0x100 && high / 0x100 == w / 0x1_0000;
    assert w / 0x1_0000 == 0x100 * (w / 0x100_0000) + w / 0x1_0000 % 0x100;
  }

  /** The 32-bit word in memory at an address. */
  function WordAt(v: seq<byte>, a: nat): int
    requires a + 4 <= |v|
  {
    v[a] as int + 0x100 * v[a + 1] as int + 0x1_0000 * v[a + 2] as int + 0x100_0000 * v[a + 3] as int
  }

  lemma WordsByte(ws: seq<Word>, i: nat, h: nat)
    requires i < |ws| && h < 4
    ensures WordsBytes(ws)[4 * i + h] == WordBytes(ws[i])[h]
  {
    assert (4 * i + h) / 4 == i && (4 * i + h) % 4 == h;
  }

  lemma WordOfBytes(r: seq<byte>, a: nat, w: Word)
    requires a + 4 <= |r| && r[a..a + 4] == WordBytes(w)
    ensures WordAt(r, a) == w
  {
    WordReadsBack(w);
    var b := r[a..a + 4];
    assert r[a] == b[0] && r[a + 1] == b[1] && r[a + 2] == b[2] && r[a + 3] == b[3];
  }

  /** r has the words in memory from an address on, and is otherwise v. */
  ghost predicate WordsHeld(v: seq<byte>, r: seq<byte>, start: nat, ws: seq<Word>)
    requires |r| == |v| && start + 4 * |ws| <= |v|
  {
    && (forall i :: 0 <= i < |ws| ==> WordAt(r, start + 4 * i) == ws[i])
    && (forall a :: 0 <= a < |v| && !(start <= a < start + 4 * |ws|) ==> r[a] == v[a])
  }

  lemma WordInPlace(v: seq<byte>, offset: nat, ws: seq<Word>, i: nat)
    requires offset + 4 * |ws| <= |v| && i < |ws|
    ensures WordAt(Splice(v, offset, WordsBytes(ws)), offset + 4 * i) == ws[i]
  {
    var b, r, a := WordsBytes(ws), Splice(v, offset, WordsBytes(ws)), offset + 4 * i;
    forall h | 0 <= h < 4
      ensures r[a..a + 4][h] == WordBytes(ws[i])[h]
    {
      WordsByte(ws, i, h);
      assert r[offset + (4 * i + h)] == b[4 * i + h];
    }
    assert r[a..a + 4] == WordBytes(ws[i]);
    WordOfBytes(r, a, ws[i]);
  }

  lemma WordsInPlace(v: seq<byte>, offset: nat, ws: seq<Word>)
    requires offset + 4 * |ws| <= |v|
    ensures WordsHeld(v, Splice(v, offset, WordsBytes(ws)), offset, ws)
  {
    forall i | 0 <= i < |ws|
      ensures WordAt(Splice(v, offset, WordsBytes(ws)), offset + 4 * i) == ws[i]
    {
      WordInPlace(v, offset, ws, i);
    }
  }

  // ----- palettes -----

  const LAYER_FG: nat := 2
  const LAYER_SPR: nat := 4

  function PaletteSource(layer: nat): Layer {
    if layer == LAYER_SPR then Spr else if layer == LAYER_FG then Fg else Bg
  }

  function PaletteEdit(palette: seq<Word>, layer: nat, id: nat): Edit
    requires |palette| == 15
  {
    Edit(Palette(PaletteSource(layer), id), WordsBytes(palette))
  }

  method WritePalette(dev: Device, palette: seq<Word>, layer: nat, id: nat) returns (status: Status)
    requires dev.Valid() && |palette| == 15
    modifies dev, dev.kernel, dev.kernel.vram
    ensures status == Aborted <==> id >= if layer == 4 then 32 else 16
    ensures status == Aborted <==> !Exists(Palette(PaletteSource(layer), id))
    ensures status == Aborted ==> dev.attempts == old(dev.attempts) && dev.Vram() == old(dev.Vram())
    ensures status != Aborted ==>
              Wrote(dev.locked, old(dev.attempts), dev.attempts, status,
                    old(dev.Vram()), EditOps([PaletteEdit(palette, layer, id)]), dev.Vram())
  {
    var layerOffset;
    if layer == LAYER_SPR {
      if id >= 32 { return Aborted; }
      layerOffset := 0x800;
    } else {
      if id >= 16 { return Aborted; }
      layerOffset := if layer == LAYER_FG then 0x400 else 0;
    }
    ghost var from, before, ops := dev.attempts, dev.Vram(), EditOps([PaletteEdit(palette, layer, id)]);
    var ok := dev.PwriteNext(WordsBytes(palette), 0xC000 + layerOffset + id * 64 + 4, from, before, ops, 0);
    if !ok { return EBusy; }
    ApplyAll(before, ops);
    return Done;
  }

  // ----- sprites -----

  datatype Sprite = Sprite(patternAddr: nat, palette: nat, mirror: nat, prio: nat, x: nat, y: nat,
                           height: nat, width: nat)

  predicate WellFormed(s: Sprite) {
    && s.patternAddr <= 1023 && s.palette < 32 && s.y <= 255 && s.x <= 511 && s.mirror <= 3
    && 0 < s.height <= 4 && 0 < s.width <= 4 && s.prio <= 2
  }

  /** The main word of a sprite. Its fields have no bit in common, so their union is their sum. */
  function Pack(s: Sprite): Word
    requires WellFormed(s)
  {
    s.patternAddr * 0x40_0000 + s.palette * 0x2_0000 + s.y * 0x200 + s.x
  }

  /** The sprite engine's fields of the word: ten bits of pattern, five of palette, eight of y, nine of x. */
  lemma SpriteFields(s: Sprite)
    requires WellFormed(s)
    ensures Pack(s) / 0x40_0000 == s.patternAddr && Pack(s) / 0x2_0000 % 32 == s.palette
    ensures Pack(s) / 0x200 % 256 == s.y && Pack(s) % 0x200 == s.x
  {
    var yx := s.y * 0x200 + s.x;
    var low := s.palette * 0x2_0000 + yx;
    assert Pack(s) == s.patternAddr * 0x40_0000 + low && low < 0x40_0000;
    assert Pack(s) / 0x2_0000 == s.patternAddr * 32 + s.palette;
    assert Pack(s) / 0x200 == (s.patternAddr * 32 + s.palette) * 256 + s.y;
  }

  /** A tile word, and the tile engine's fields of it: ten bits of pattern, four of palette, two of mirroring. */
  function MakeTile(patternAddr: nat, palette: nat, mirror: nat): Option<nat> {
    if patternAddr > 1023 || palette >= 16 || mirror > 3 then None
    else Some(patternAddr * 64 + palette * 4 + mirror)
  }

  /** It is made exactly if the arguments fit, and then gives them back. */
  lemma TileFields(patternAddr: nat, palette: nat, mirror: nat)
    ensures var t := MakeTile(patternAddr, palette, mirror);
            && (t.Some? <==> patternAddr <= 1023 && palette < 16 && mirror <= 3)
            && (t.Some? ==> t.value < 0x1_0000)
            && (t.Some? ==> t.value / 64 == patternAddr && t.value / 4 % 16 == palette && t.value % 4 == mirror)
  {
  }

  predicate AllWellFormed(sprites: seq<Sprite>) {
    forall i :: 0 <= i < |sprites| ==> WellFormed(sprites[i])
  }

  function SpriteWords(sprites: seq<Sprite>): (ws: seq<Word>)
    requires AllWellFormed(sprites)
    ensures |ws| == |sprites|
  {
    seq(|sprites|, i requires 0 <= i < |sprites| => Pack(sprites[i]))
  }

  /** The one pwrite of the main words. */
  function SpriteOps(sprites: seq<Sprite>, id: nat): (ops: seq<Op>)
    requires AllWellFormed(sprites) && id + |sprites| <= 64
    ensures InBounds(ops)
  {
    [Op(0xD000 + id * 4, WordsBytes(SpriteWords(sprites)))]
  }

  method PackSprites(sprites: seq<Sprite>) returns (words: Option<seq<Word>>)
    ensures words.Some? <==> AllWellFormed(sprites)
    ensures words.Some? <==> forall i :: 0 <= i < |sprites| ==>
              && sprites[i].patternAddr <= 1023 && sprites[i].palette < 32 && sprites[i].mirror <= 3
              && sprites[i].x <= 511 && sprites[i].y <= 255 && sprites[i].prio <= 2
              && 1 <= sprites[i].height <= 4 && 1 <= sprites[i].width <= 4
    ensures words.Some? ==> words.value == SpriteWords(sprites)
  {
    var buffer := new Word[|sprites|];
    for i := 0 to |sprites|
      invariant forall j :: 0 <= j < i ==> WellFormed(sprites[j]) && buffer[j] == Pack(sprites[j])
    {
      if !WellFormed(sprites[i]) { return None; }
      buffer[i] := Pack(sprites[i]);
    }
    return Some(buffer[..]);
  }

  /** The sprite writer up to and including its write of the main words. */
  method WriteSpriteWords(dev: Device, sprites: seq<Sprite>, id: nat) returns (status: Status)
    requires dev.Valid()
    modifies dev, dev.kernel, dev.kernel.vram
    ensures status == Aborted <==> id + |sprites| > 64 || !AllWellFormed(sprites)
    ensures status == Aborted ==> dev.attempts == old(dev.attempts) && dev.Vram() == old(dev.Vram())
    ensures status != Aborted ==>
              Wrote(dev.locked, old(dev.attempts), dev.attempts, status,
                    old(dev.Vram()), SpriteOps(sprites, id), dev.Vram())
  {
    if id + |sprites| > 64 { return Aborted; }
    var words := PackSprites(sprites);
    if words.None? { return Aborted; }
    ghost var from, before, ops := dev.attempts, dev.Vram(), SpriteOps(sprites, id);
    var ok := dev.PwriteNext(WordsBytes(words.value), 0xD000 + id * 4, from, before, ops, 0);
    if !ok { return EBusy; }
    ApplyAll(before, ops);
    return Done;
  }

  // ----- what VRAM holds afterwards -----

  lemma OneWrite(v: seq<byte>, op: Op)
    requires |v| == VRAM_SIZE && op.offset + |op.data| <= VRAM_SIZE
    ensures InBounds([op]) && Apply(v, [op]) == Splice(v, op.offset, op.data)
  {
    assert [op][..0] == [];
  }

  lemma WordsWritten(v: seq<byte>, ops: seq<Op>, start: nat, ws: seq<Word>)
    requires |v| == VRAM_SIZE && start + 4 * |ws| <= VRAM_SIZE && ops == [Op(start, WordsBytes(ws))]
    ensures InBounds(ops) && WordsHeld(v, Apply(v, ops), start, ws)
  {
    OneWrite(v, ops[0]);
    WordsInPlace(v, start, ws);
  }

  /**
   * Palettes: background from 0xC000, foreground from 0xC400, sprites from 0xC800, 64 bytes each. Colour c + 1 of the
   * palette is the c-th given, and nothing else changes.
   */
  lemma PaletteHolds(v: seq<byte>, palette: seq<Word>, layer: nat, id: nat)
    requires |v| == VRAM_SIZE && |palette| == 15 && id < if layer == 4 then 32 else 16
    ensures Exists(Palette(PaletteSource(layer), id))
    ensures WordsHeld(v, Apply(v, EditOps([PaletteEdit(palette, layer, id)])),
                      (if layer == 4 then 0xC800 else if layer == 2 then 0xC400 else 0xC000) + 64 * id + 4, palette)
  {
    var start := (if layer == 4 then 0xC800 else if layer == 2 then 0xC400 else 0xC000) + 64 * id + 4;
    var ops := EditOps([PaletteEdit(palette, layer, id)]);
    assert ops == [Op(start, WordsBytes(palette))];
    WordsWritten(v, ops, start, palette);
  }

  /** Sprites: four bytes each from 0xD000, the first of the call at its id, and nothing else changes. */
  lemma SpritesHold(v: seq<byte>, sprites: seq<Sprite>, id: nat)
    requires |v| == VRAM_SIZE && AllWellFormed(sprites) && id + |sprites| <= 64
    ensures WordsHeld(v, Apply(v, SpriteOps(sprites, id)), 0xD000 + 4 * id, SpriteWords(sprites))
    ensures forall i :: 0 <= i < |sprites| ==> SpriteWords(sprites)[i] == Pack(sprites[i])
  {
    WordsWritten(v, SpriteOps(sprites, id), 0xD000 + 4 * id, SpriteWords(sprites));
  }
}
