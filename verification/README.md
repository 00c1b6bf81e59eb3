# FP-GAme: the audio path, the frame protocol and the VRAM writers, proved

FP-GAme is a game console on an FPGA board. Programs write memory through two kernel drivers; clocked hardware reads
it later. This project models the places where the two must agree, and proves that they do:

* **APU audio path.** `apu_write` fills the spare half of a double buffer and posts its address. The unit queues one
  address and interrupts when the queue is empty, the sample fetcher reads 64 words from each address, the chunk player
  steps through eight bytes of each word.
* **PPU frame protocol.** UPDATE leaves `vram_lock` held; the DMA engine copies the kernel's VRAM, the sync writer copies
  it on into the displayed VRAM during vertical blanking, and the interrupt frees the lock.
* **VRAM writers.** The user library's loops over tiles, patterns, palettes and sprites, with their wrap-arounds and
  their failures half way, down to the memories the display hardware reads.
* **Controller poller and I2S serialiser.** Two small clocked machines whose timing is the point.

## How it is modelled

Each clocked block is a class whose `Clock` method is one clock edge, and a `Next` function on its register values; the
method is proved to compute the function. Each driver call is a class method for the call on its own, and a step function
over program counters for the call among others; a lemma proves that the steps run alone come to the call's outcome.

`ApuSystem` and `PpuSystem` put these together as machines that take one event at a time: clock edges with free inputs,
steps of any number of threads, interrupt entry and handler steps, memory look-ups, copied bytes. A run is any sequence
of enabled events from reset. The theorems in `ApuSafety` and `PpuSafety` hold in every state any run reaches; they rest
on one invariant each (`ApuInvariant`, `PpuInvariant`). The DMA engine and the sync writer copy byte by byte in any
order, so that the lock and the FSM have something to protect; `SyncWriter` proves that the real sync writer is such a
copier.

Beside safety, `ApuProgress` and `PpuProgress` prove that the machines can always get on: from every reachable state the
hardware can play out or show what was asked for and the locks come free, and for every list of user buffers, and every
image and register setting, some run from reset plays or shows exactly that.

A VRAM writer is specified by the list of `pwrite`s it makes (`VramOps.Op`). Whether `vram_lock` is held is given for
each attempt; the method is proved to perform the whole list if the lock is free each time, and otherwise to stop at the
first attempt that finds it held and return -1. What the list means for the layer, for pattern RAM or for the hardware's
memories is proved about the list.

Assumed of the surroundings: memory answers each accepted APU read exactly once, in a later cycle; a sync ends before
`vblank_end_soon` (the comment at fpgame/src/ppu/ppu.sv:223); a file is released only when no call is inside it; the
PPU's interrupt is latched on its rising edge and the APU's is level-triggered
(Kernel/kern/dts/fpgame_int.dts:7-14); a register store takes one clock edge and stores arrive one at a time; the two
buffers are aligned as their allocator returns them.

Where the code and its comments disagree, the model follows the code:

* The PPU's address register is reset by its own `update_avail` (fpgame/fpgame.sv:190), not by the FSM's acknowledgement.
  `PpuSafety.NoRequestLost` shows that the two are the same signal in every reachable state.
* The comment above `apu_irq` says that it switches the active buffer; `apu_write` does.
* The vertical tile writer accepts any layer value and treats all but the foreground as background
  (Library/src/ppu.c:369); the horizontal one refuses other values (Library/src/ppu.c:249).
* The sync writer's comment speaks of one cycle of read latency; its address passes two registers, which matches the
  source memories, whose outputs are registered too.
* `copy_from_user` may fail half way. `apu_write` then clears the half and keeps the request it consumed; `ppu_write`
  leaves the bytes copied so far.

## Model

| member | source | states |
|---|---|---|
| ApuHardware.SampleFetcher.Clock | fpgame/src/apu/sample_fetcher.sv:48-96 | one clock edge of the fetch FSM, base handshake and chunk counter is the transition the system theorems use |
| ApuHardware.ChunkPlayer.Clock | fpgame/src/apu/chunk_player.sv:31-62 | one clock edge of the player: load, step, or hold the last byte and ask for more |
| ApuHardware.Apu.ClockQueue | fpgame/src/apu/apu.sv:90-125 | queued base, interrupt enable and interrupt line after an edge, a post winning over the fetcher's acknowledgement |
| ApuHardware.Apu.Clock | fpgame/src/apu/apu.sv:60-125 | all three blocks move together on the values held before the edge |
| ApuFetcher.ReadsEachBaseOnceInOrder | fpgame/src/apu/sample_fetcher.sv:48-96 | in every run: words base+0 to base+63 of each acknowledged base are read and delivered once each, in order, and none is read before the next base; no base held implies chunk counter 0 |
| ApuTiming.NoUnderrun | fpgame/src/apu/sample_fetcher.sv:58-75 | memory within d cycles, requests at least s >= 2 apart and d < 8s: after the first load no request finds the array invalid, however long the run |
| ApuTiming.NoUnderrunIff | fpgame/src/apu/chunk_player.sv:39-47 | the bound is exact: for every d that leaves a read its two cycles, no legal run underruns if and only if s >= 2 and d < 8s |
| ApuDriver.KernelDriver.Irq | Kernel/apu/apu.c:214-224 | the handler drops the interrupt and then raises the request flag, and changes nothing else |
| ApuDriver.KernelDriver.Ioctl | Kernel/apu/apu.c:251-259 | the one known command names the process and arms the interrupt; any other is refused without effect |
| ApuDriver.KernelDriver.Write | Kernel/apu/apu.c:276-318 | which result when; a refusal changes nothing; on success the spare half holds the user's bytes and then zeros to 512, becomes the active one and has its address posted before the interrupt is armed; on a fault it is silent; the other half is never touched |
| ApuDriver.KernelDriver.FillHalf | Kernel/apu/apu.c:295-303 | the target half holds the user's bytes and then silence, or silence alone after a fault; the other half is untouched |
| ApuDriver.KernelDriver.CopyFromUser | Kernel/apu/apu.c:296-296 | the bytes before the page fault are copied, in place |
| ApuDriver.KernelDriver.Clear | Kernel/apu/apu.c:297-302 | a half is zeroed from an offset to its end |
| ApuDriver.SoloIsOutcome | Kernel/apu/apu.c:276-318 | the interleavable steps of apu_write, run alone, come to exactly the outcome of the call |
| ApuDriver.SoloWritesWell | Kernel/apu/apu.c:276-318 | so they keep the promise of the call, byte by byte |
| ApuEdges.EdgeKeepsBoard | fpgame/src/apu/apu.sv:86-125 | every clock edge, with any inputs, keeps positions, contents, output and buffers of the whole unit right |
| ApuEdges.LookupKeepsBoard | fpgame/src/apu/sample_fetcher.sv:57-73 | the word memory finds at the read address is the next word of the accepted writes |
| ApuSafety.StepKeepsInv | Kernel/apu/apu.c:214-318 | every event of driver, interrupt, memory and hardware keeps the invariant |
| ApuSafety.PlaysAcceptedWritesInOrder | Kernel/apu/apu.c:276-318 | in every reachable state the bytes stepped through are at most seven reset zeros and then, by index, the bytes of the user buffers in order, zeros following each to 512; the output repeats the last |
| ApuSafety.NoByteLost | fpgame/src/apu/chunk_player.sv:31-48 | bytes posted are bytes shown plus bytes still in queue, fetcher and player |
| ApuSafety.DoubleBufferSafe | Kernel/apu/apu.c:290-311 | the half being copied or cleared is neither queued, nor being read, nor addressed by an outstanding read |
| ApuSafety.PostsIntoEmptyQueue | Kernel/apu/apu.c:286-316 | at most one refill permission exists anywhere, and a base is posted only into an empty queue |
| ApuSafety.WritersExclude | Kernel/apu/apu.c:287-293 | two writers are never inside the write lock |
| ApuProgress.InterruptRises | fpgame/src/apu/apu.sv:94-95 | armed and with no base queued, the unit raises its interrupt at the next edge |
| ApuProgress.NeverMuted | Kernel/apu/apu.c:217-316 | from SET_CALLBACK_PID on the output stays enabled, whatever the handler and the writers store |
| ApuProgress.PostedCanBePlayed | fpgame/src/apu/sample_fetcher.sv:48-76 | from every reachable state the hardware alone can play every byte posted |
| ApuProgress.EveryProgramCanPlay | Kernel/apu/apu.c:214-318 | for every list of user buffers some run from reset accepts them all, one call each, and plays exactly them |
| PpuHardware.PioWriteWithAvail.Clock | fpgame/src/pio_write_w_avail.sv:27-50 | a CPU write wins over the reader's reset |
| PpuHardware.PpuFsm.Clock | fpgame/src/ppu/ppu.sv:186-282 | one clock edge of the frame FSM, DMA start, sync pulse and interrupt |
| PpuKernel.KernelDriver.Open | Kernel/ppu/ppu.c:252-255 | succeeds exactly if nobody held ppu_lock, which is held afterwards |
| PpuKernel.KernelDriver.Write | Kernel/ppu/ppu.c:312-345 | result and new state of a call on its own, in every error case |
| PpuKernel.KernelDriver.CopyFromUser | Kernel/ppu/ppu.c:328-334 | the bytes before the page fault land at the offset and no other byte changes |
| PpuKernel.KernelDriver.Ioctl | Kernel/ppu/ppu.c:354-388 | each command's store and result; only an accepted UPDATE keeps the lock |
| PpuKernel.KernelDriver.Blank | Kernel/ppu/ppu.c:278-288 | between its two waits ppu_release zeroes VRAM and the four control registers and requests one transfer |
| PpuKernel.KernelDriver.Irq | Kernel/ppu/ppu.c:399-405 | frees the lock and changes nothing else |
| PpuKernel.SoloIsOutcome | Kernel/ppu/ppu.c:312-388 | the interleavable steps of a system call, run alone, come to exactly its outcome |
| PpuKernel.SoloWipes | Kernel/ppu/ppu.c:278-288 | so do the steps of ppu_release between its waits |
| PpuSafety.StepKeepsInv | Kernel/ppu/ppu.c:252-405 | every event of calls, release, interrupt, copiers and hardware keeps the invariant |
| PpuSafety.NoTornFrames | fpgame/src/ppu/ppu.sv:162-254 | outside a sync the displayed VRAM and control registers are the reset display or exactly one accepted UPDATE's, frames appear in the order asked for, none is skipped |
| PpuSafety.OneStartPerUpdate | fpgame/src/ppu/ppu.sv:219-252 | one DMA start per accepted UPDATE, one interrupt per completed sync, starts at most one ahead |
| PpuSafety.NoRequestLost | fpgame/fpgame.sv:188-190 | an available address is always taken at once, and no store comes while a request is on its way |
| PpuSafety.TransferIsUndisturbed | Kernel/ppu/ppu.c:359-405 | from an accepted UPDATE to the end of its interrupt no event changes kernel VRAM or control registers |
| PpuSafety.OneOwnerOfVram | Kernel/ppu/ppu.c:322-342 | vram_lock excludes calls, release and requests in flight |
| PpuSafety.CleanHandOver | Kernel/ppu/ppu.c:266-299 | when ppu_lock is given back, kernel VRAM, displayed VRAM and both sets of registers are zero and nothing is outstanding; no other open succeeded meanwhile |
| PpuSafety.CommandTakesEffect | Kernel/ppu/ppu.c:362-384 | each setting reaches its own register, cut to its width, and no other; UPDATE posts the frame as it stands |
| PpuProgress.SyncBegins | fpgame/src/ppu/ppu.sv:204-215 | in every reachable state with a transfer ready, the start of blanking begins the sync, and the display registers change with it |
| PpuProgress.FrameCanBeShown | fpgame/src/ppu/ppu.sv:186-282 | from every reachable state with a frame in flight some run of the hardware shows exactly that frame and, after the handler, leaves the lock free |
| PpuProgress.EveryFrameCanBeShown | Kernel/ppu/ppu.c:252-405 | for every image and register setting some run from reset opens, writes, sets, updates and ends with exactly them displayed |
| PpuProgress.ReleaseCanFinish | Kernel/ppu/ppu.c:266-299 | from every reachable state inside a release some run brings it to its end, blank and reopenable |
| VramOps.LastWriteWins | Library/src/ppu.c:97-110 | a byte holds what the last pwrite covering it put there |
| VramOps.UncoveredUnchanged | Library/src/ppu.c:97-110 | a byte no pwrite covers is unchanged |
| VramOps.RetryIsSafe | Library/usr/inc/fp-game/ppu.h:5-8 | any number of failures, each after any prefix of the pwrites, followed by a success equals one clean success |
| VramOps.RetryUntilDone | Library/src/ppu.c:377-397 | the same of a writer's outcomes: -1, -1, ..., 0 ends where a single 0 would have |
| VramOps.Device.Pwrite | Kernel/ppu/ppu.c:312-345 | a pwrite takes effect whole or not at all, and fails exactly when it is out of bounds or finds the lock held |
| VramOps.Device.PwriteNext | Library/src/ppu.c:294-320 | a writer that has made k of its pwrites has then made k + 1, or has been stopped after k by a held lock |
| TileWriters.RepeatTiles | Library/src/ppu.c:255-272 | element i of the buffer is tile i mod min(len, 64), for each i below min(count, 64) |
| TileWriters.WriteTilesHorizontal | Library/src/ppu.c:242-326 | aborts exactly on a bad start or layer; otherwise makes all its pwrites, or those before the first that finds the lock held |
| TileWriters.WriteDown | Library/src/ppu.c:379-393 | the inner loop writes one tile a row downwards and stops at the first failure |
| TileWriters.WriteWrapped | Library/src/ppu.c:375-397 | the outer loop covers the whole column, wrapping at the edge, in at most two passes |
| TileWriters.WriteTilesVertical | Library/src/ppu.c:328-402 | aborts exactly on a bad start; otherwise all its pwrites, or those before the first that finds the lock held; at most two outer passes |
| TileLayer.HorizontalWritesRow | Library/src/ppu.c:253-325 | cell ((x + i) mod 64, y) holds tile i mod min(len, 64) for every i below min(count, 64), and no other byte changes |
| TileLayer.VerticalWritesColumn | Library/src/ppu.c:345-401 | the same of the cells (x, (y + i) mod 64) |
| TileBlock.RowsEqualColumns | Library/src/ppu.c:242-402 | filling any block of up to 64 by 64 row by row or column by column leaves the same VRAM, from every start cell |
| TileBlock.BlockIsFilled | Library/src/ppu.c:242-402 | and it is the block: cell ((x + i) mod 64, (y + j) mod 64) holds tile i of row j, and no other byte has changed |
| PatternWriter.WritePatternRow | Library/src/ppu.c:419-433 | the inner loop writes one row of patterns and stops at the first failure |
| PatternWriter.WritePattern | Library/src/ppu.c:404-437 | aborts exactly on a bad address, width or height; otherwise all its pwrites, or those before the first that finds the lock held |
| PatternWriter.PatternCell | Library/src/ppu.c:414-434 | for any width and height a cell holds the source tile of the last column and last row that reach it modulo 32 |
| PatternWriter.PatternMissed | Library/src/ppu.c:414-434 | a cell that no column or no row reaches keeps what it held |
| PatternWriter.PatternLands | Library/src/ppu.c:414-434 | a source tile with none 32 columns right or 32 rows below ends up in cell ((x + col) mod 32, (y + row) mod 32) |
| PatternWriter.PatternElsewhere | Library/src/ppu.c:421-427 | nothing outside pattern RAM changes |
| PatternWriter.SmallBlockIsWhole | Library/src/ppu.c:414-434 | up to 32 by 32 no tile of the block overwrites another |
| ObjectWriters.WritePalette | Library/src/ppu.c:439-470 | aborts exactly on a palette that does not exist; otherwise writes its 15 opaque colours or nothing |
| ObjectWriters.WordReadsBack | Library/src/ppu.c:462-512 | the four bytes of a word, low byte first, are the word |
| ObjectWriters.PaletteHolds | Library/src/ppu.c:447-462 | colour c + 1 of the palette, at its layer's place in palette RAM, is the c-th given, and nothing else changes |
| ObjectWriters.PackSprites | Library/src/ppu.c:491-510 | yields the packed words exactly if every field of every sprite is within its bounds |
| ObjectWriters.SpritesHold | Library/src/ppu.c:488-512 | word id + i of sprite RAM is sprite i's, and nothing else changes |
| ObjectWriters.WriteSpriteWords | Library/src/ppu.c:472-517 | aborts exactly on too many or malformed sprites; otherwise writes all main words or nothing |
| ObjectWriters.SpriteFields | Library/src/ppu.c:505-505 | the hardware's fields of a packed word (sprite_defines.vh) are the sprite's pattern, palette, y and x |
| ObjectWriters.TileFields | Library/src/ppu.c:124-131 | a tile word is made exactly if its arguments fit, and the tile engine's fields of it are its pattern, palette and mirroring |
| VramMap.DecodeSplits | fpgame/src/ppu/vram_interconnect.sv:83-117 | every address in VRAM selects a word that exists in one memory, at base plus local address |
| VramMap.DecodeReaches | fpgame/src/ppu/vram_interconnect.sv:35-117 | every word of every memory is reached, by one address only |
| VramMap.MemoriesAreVram | fpgame/src/ppu/vram_interconnect.sv:35-55 | the four memories lie end to end and are the whole of the kernel's VRAM |
| VramMap.TransferIsImage | fpgame/src/ppu/vram_interconnect.sv:94-117 | after a transfer in any order each memory holds its part of the kernel's VRAM |
| VramObjects.OffsetsAgree | Library/usr/inc/fp-game/ppu.h:24-39 | library offsets and hardware read addresses name the same place of each object, inside VRAM and inside its memory |
| VramObjects.NeverAlias | fpgame/src/ppu/vram_interconnect.sv:83-117 | distinct objects share no byte |
| VramObjects.EditsReachHardware | fpgame/src/ppu/vram_interconnect.sv:83-117 | after any edits and a transfer the hardware finds the last data of each object in its home, or what was there before |
| LibraryCalls.Make | Library/src/ppu.c:242-517 | any writer call is aborted exactly if not accepted, and otherwise makes all its pwrites or those before the first that finds the lock held |
| LibraryCalls.CallIsEdits | Library/src/ppu.c:242-517 | every successful writer call is exactly a sequence of object edits |
| LibraryCalls.CallsReachHardware | Library/src/ppu.c:242-517 | after any sequence of calls and a transfer the hardware finds in each object's home the last data any call wrote to it |
| LibraryCalls.ColourZeroUntouched | Library/src/ppu.c:458-462 | no sequence of calls touches colour 0 of any palette |
| SyncWriter.Writer.Clock | fpgame/src/ppu/vram/vram_sync_writer/sync_writer.sv:42-98 | one clock edge of the sync writer |
| SyncWriter.CopiesAll | fpgame/src/ppu/vram/vram_sync_writer/sync_writer.sv:42-98 | it copies a memory of any size whole, and done comes with the last word and not before |
| SyncWriter.CycleIsCopierStep | fpgame/src/ppu/vram/vram_sync_writer/sync_writer.sv:78-95 | each of its cycles is a copier step of the frame protocol: two junk writes to word 0, then each word in turn |
| Clocking.Timer.Clock | fpgame/src/common/timer.sv:12-28 | one clock edge of the down counter |
| Clocking.TicksEveryPeriod | fpgame/src/common/timer.sv:12-28 | ticks come in the positive multiples of the period and in no other cycle |
| Clocking.ClockDiv.Clock | fpgame/src/common/clk_div.sv:19-31 | one clock edge of the divider and its timer |
| Clocking.LevelAfter | fpgame/src/common/clk_div.sv:21-31 | after its m-th change the level is held for one width, high for odd m |
| Clocking.EdgeAt | fpgame/src/common/clk_div.sv:21-23 | the m-th change is in cycle m times the width, upwards for odd m and downwards for even m |
| Clocking.QuietBetween | fpgame/src/common/clk_div.sv:21-23 | and there is no other |
| Clocking.ShiftReg.Clock | fpgame/src/common/shift_reg.sv:12-21 | one clock edge of the shift register |
| Clocking.ShiftedIs | fpgame/src/common/shift_reg.sv:12-21 | after up to 16 shifts the register ends with the bits shifted in, first one highest |
| SnesController.Controller.Clock | fpgame/src/ioss/controller.sv:20-82 | one clock edge of the poller with its timer, divider and shift register |
| SnesController.StateIsAWholePoll | fpgame/src/ioss/controller.sv:41-82 | in every run the shown state changes only at the end of a poll and is then the 16 values sampled in it, first in bit 15 |
| SnesController.SamplesAsClockFalls | fpgame/src/ioss/controller.sv:58-67 | a serial value is sampled exactly as the clock line to the controller falls |
| SnesController.PollPhases | fpgame/src/ioss/controller.sv:49-69 | from tick to last change the poller is busy, and its latch line is high for exactly one period of the divided clock |
| SnesController.PollEnds | fpgame/src/ioss/controller.sv:49-69 | a poll ends 34 changes after the first rise that follows its tick, with the serial values from the middle of each clock pulse |
| SnesController.NextTickServedIff | fpgame/src/ioss/controller.sv:49-69 | the next tick finds the poller idle if and only if that cycle comes before it |
| SnesController.EveryTickServedIff | fpgame/src/ioss/controller.sv:49-69 | no tick is missed if and only if every poll is over before the tick after it |
| SnesController.NoTickMissed | fpgame/src/ioss/controller.sv:1-69 | a period above 36 level widths is enough, wherever the ticks fall |
| I2s.I2sComm.Clock | fpgame/src/apu/i2s_comm.sv:46-81 | one clock edge of the serialiser |
| I2s.WordSelectLeads | fpgame/src/apu/i2s_comm.sv:58-63 | word select changes in the cycle before each most significant bit and in no other |
| I2s.ReceiverRecovers | fpgame/src/apu/i2s_comm.sv:46-81 | a receiver by section 3 of the I2S bus specification gets each captured sample twice, in order and without delay, after the word sent from reset |

## Left out

- More than one APU session: `apu_open`, `apu_release` and a second SET_CALLBACK_PID are not part of the machine.
- Progress of the audio after a failed copy, which consumes the request and does not re-arm the interrupt.
- Signal delivery to the user process, and the alert printed when a file that was not open is closed.
- The player's output between its clock domain and the serialiser's: debouncing, edge detection, the mute bit and the eight low zero bits of a sample (fpgame/src/apu/apu.sv:67-88).
- The branch for an unaligned VRAM base and the eight extra bytes cleared by `ppu_release` (Kernel/ppu/ppu.c:180-187, 279).
- The file offset advanced by `ppu_write`; the library passes an offset with every write.
- Fairness: that some run plays, shows or releases is proved from every reachable state; that every run does, whatever the scheduler, memory and blanking do, is not claimed.
- The inside of the DMA engine (a copier in any order here), the reading ports of vram_interconnect, the tile and sprite engines, the pixel mixer and video timing.
- PpuSafety.NoTornFrames: the memories are byte sequences of the whole VRAM; that they are four memories behind one decoder is the subject of VramMap.
- ObjectWriters.WriteSpriteWords: ends with the first pwrite; the second array has four-byte elements but is written as `len` bytes, so entries after the first do not land (Library/src/ppu.c:476, 519).
- ObjectWriters.WritePalette: the array has its 15 colours; a NULL pointer, here and in the other writers, is not a value of the model.
- PatternWriter.WritePattern: the caller's array is long enough for width times height, as the C function must trust.
- Sums and products of arguments are exact integers: the wrap-around of `sprite_id_i + len` and of `width * row` at 32 bits is not modelled.
- Buffers that the tile and sprite writers allocate and, when they fail, do not free.
- `ppu_load_tilemap`, `ppu_load_pattern` and `ppu_load_palette`, which read text files.
- `Library/src/con.c`, `Library/src/apu.c` and `Kernel/con/con.c`, which pass values through.
- SnesController.NoTickMissed: counts clock cycles; that 833333 of them are a sixtieth of a second is not part of the model.
