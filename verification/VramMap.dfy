/** The CPU-facing VRAM: four memories behind one write address. */
module VramMap {
  import opened Common
  import opened PpuDriver

  /** A 128-bit word, the unit the DMA engine writes. */
  type Quad = q: seq<byte> | |q| == 16 witness Zeros(16)

  datatype Ram = TileRam | PatternRam | PaletteRam | SpriteRam

  /** How many words a memory has. */
  function Words(ram: Ram): nat {
    match ram
    case TileRam => 1024
    case PatternRam => 2048
    case PaletteRam => 256
    case SpriteRam => 20
  }

  /** Where in the write address space a memory starts. */
  function Base(ram: Ram): nat {
    match ram
    case TileRam => 0
    case PatternRam => 0x400
    case PaletteRam => 0xC00
    case SpriteRam => 0xD00
  }

  /** Which memory a 12-bit write address selects: bits 11, 10 and 8 decide. */
  function Choose(address: nat): Ram {
    if address / 0x800 % 2 == 1 then
      if address / 0x400 % 2 == 1 then
        if address / 0x100 % 2 == 1 then SpriteRam else PaletteRam
      else PatternRam
    else if address / 0x400 % 2 == 1 then PatternRam
    else TileRam
  }

  /** The address within the selected memory: a 12-bit subtraction cut to the width of its address bus. */
  function Local(address: nat): nat {
    var translation := (address + 0x1000 - Base(Choose(address))) % 0x1000;
    match Choose(address)
    case TileRam => translation % 0x400
    case PatternRam => translation % 0x800
    case PaletteRam => translation % 0x100
    case SpriteRam => translation % 0x20
  }

  /** Every address the DMA engine writes selects a word that exists: base plus local address of one memory. */
  lemma DecodeSplits(address: nat)
    requires address < 0xD14
    ensures Local(address) < Words(Choose(address)) && Base(Choose(address)) + Local(address) == address
  {
    if address < 0x400 {
      assert Choose(address) == TileRam;
    } else if address < 0xC00 {
      assert Choose(address) == PatternRam;
    } else if address < 0xD00 {
      assert Choose(address) == PaletteRam;
    } else {
      assert Choose(address) == SpriteRam;
    }
  }

  /** Every word of every memory is reached, and by one address only. */
  lemma DecodeReaches(ram: Ram, local: nat)
    requires local < Words(ram)
    ensures Base(ram) + local < 0xD14 && Choose(Base(ram) + local) == ram && Local(Base(ram) + local) == local
  {
    var address := Base(ram) + local;
    match ram
    case TileRam => assert address / 0x400 == 0;
    case PatternRam => assert address / 0x400 == 1 || address / 0x400 == 2;
    case PaletteRam => assert address / 0x100 == 12;
    case SpriteRam => assert address / 0x100 == 13;
  }

  /** The four memories are the VRAM, whole and end to end. */
  lemma MemoriesAreVram()
    ensures Base(TileRam) == 0
    ensures Base(PatternRam) == Base(TileRam) + Words(TileRam)
    ensures Base(PaletteRam) == Base(PatternRam) + Words(PatternRam)
    ensures Base(SpriteRam) == Base(PaletteRam) + Words(PaletteRam)
    ensures VRAM_SIZE == 16 * (Base(SpriteRam) + Words(SpriteRam))
  {
  }

  datatype Rams = Rams(tile: seq<Quad>, pattern: seq<Quad>, palette: seq<Quad>, sprite: seq<Quad>) {
    function Bank(ram: Ram): seq<Quad> {
      match ram
      case TileRam => tile
      case PatternRam => pattern
      case PaletteRam => palette
      case SpriteRam => sprite
    }

    predicate Valid() { forall ram :: |Bank(ram)| == Words(ram) }

    /** A write on the bus: one memory sees its write enable. */
    function Write(address: nat, data: Quad): (r: Rams)
      requires Valid() && address < 0xD14
    {
      DecodeSplits(address);
      match Choose(address)
      case TileRam => this.(tile := tile[Local(address) := data])
      case PatternRam => this.(pattern := pattern[Local(address) := data])
      case PaletteRam => this.(palette := palette[Local(address) := data])
      case SpriteRam => this.(sprite := sprite[Local(address) := data])
    }

    /** The byte a memory has at a local byte address. */
    function Byte(ram: Ram, a: nat): byte
      requires Valid() && a < 16 * Words(ram)
    {
      Bank(ram)[a / 16][a % 16]
    }
  }

  lemma WriteOne(r: Rams, address: nat, data: Quad, ram: Ram, local: nat)
    requires r.Valid() && address < 0xD14 && local < Words(ram)
    ensures r.Write(address, data).Valid()
    ensures r.Write(address, data).Bank(ram)[local] == if address == Base(ram) + local then data else r.Bank(ram)[local]
  {
    DecodeSplits(address);
    DecodeReaches(ram, local);
  }

  function QuadAt(v: seq<byte>, address: nat): Quad
    requires |v| == VRAM_SIZE && address < 0xD14
  {
    v[16 * address..16 * address + 16]
  }

  lemma QuadByte(v: seq<byte>, address: nat, h: nat)
    requires |v| == VRAM_SIZE && address < 0xD14 && h < 16
    ensures QuadAt(v, address)[h] == v[16 * address + h]
  {
  }

  /** The memories after the DMA engine has copied the words at these addresses, in this order. */
  function Transfer(r: Rams, v: seq<byte>, order: seq<nat>): (t: Rams)
    requires r.Valid() && |v| == VRAM_SIZE && forall i :: 0 <= i < |order| ==> order[i] < 0xD14
    ensures t.Valid()
  {
    if order == [] then r
    else
      var last := |order| - 1;
      var t := Transfer(r, v, order[..last]);
      WriteOne(t, order[last], QuadAt(v, order[last]), TileRam, 0);
      t.Write(order[last], QuadAt(v, order[last]))
  }

  lemma {:induction false} TransferWord(r: Rams, v: seq<byte>, order: seq<nat>, ram: Ram, local: nat)
    requires r.Valid() && |v| == VRAM_SIZE && forall i :: 0 <= i < |order| ==> order[i] < 0xD14
    requires local < Words(ram)
    ensures Base(ram) + local < 0xD14
    ensures Transfer(r, v, order).Bank(ram)[local] ==
            if Base(ram) + local in order then QuadAt(v, Base(ram) + local) else r.Bank(ram)[local]
    decreases |order|
  {
    DecodeReaches(ram, local);
    if order != [] {
      var last := |order| - 1;
      TransferWord(r, v, order[..last], ram, local);
      WriteOne(Transfer(r, v, order[..last]), order[last], QuadAt(v, order[last]), ram, local);
      assert order == order[..last] + [order[last]];
    }
  }

  /** The transfer writes every address it should and no other. */
  predicate Whole(order: seq<nat>) {
    && (forall i :: 0 <= i < |order| ==> order[i] < 0xD14)
    && (forall address: nat :: address < 0xD14 ==> address in order)
  }

  lemma InOrderIsWhole()
    ensures Whole(seq(0xD14, i => i))
  {
    var order := seq(0xD14, i => i);
    forall address: nat | address < 0xD14
      ensures address in order
    {
      assert order[address] == address;
    }
  }

  lemma ByteOf(t: Rams, ram: Ram, local: nat, h: nat)
    requires t.Valid() && local < Words(ram) && h < 16
    ensures t.Byte(ram, 16 * local + h) == t.Bank(ram)[local][h]
  {
  }

  lemma TransferByte(r: Rams, v: seq<byte>, order: seq<nat>, ram: Ram, local: nat, h: nat)
    requires r.Valid() && |v| == VRAM_SIZE && Whole(order) && local < Words(ram) && h < 16
    ensures 16 * (Base(ram) + local) + h < VRAM_SIZE
    ensures Transfer(r, v, order).Bank(ram)[local][h] == v[16 * (Base(ram) + local) + h]
  {
    TransferWord(r, v, order, ram, local);
    QuadByte(v, Base(ram) + local, h);
  }

  /** Once every word has been copied, in whatever order, each memory holds its part of the kernel's VRAM. */
  lemma TransferIsImage(r: Rams, v: seq<byte>, order: seq<nat>, ram: Ram, a: nat)
    requires r.Valid() && |v| == VRAM_SIZE && Whole(order) && a < 16 * Words(ram)
    ensures 16 * Base(ram) + a < VRAM_SIZE
    ensures Transfer(r, v, order).Byte(ram, a) == v[16 * Base(ram) + a]
  {
    TransferByte(r, v, order, ram, a / 16, a % 16);
    ByteOf(Transfer(r, v, order), ram, a / 16, a % 16);
  }
}
