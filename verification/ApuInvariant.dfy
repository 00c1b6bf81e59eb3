/** What every reachable state of the APU machine satisfies. */
module ApuInvariant {
  import opened Common
  import opened Counting
  import opened ApuHardware
  import opened ApuDriver
  import opened ApuSystem

  // ----- the sample stream -----

  predicate Whole(accepted: seq<seq<byte>>) {
    forall i :: 0 <= i < |accepted| ==> |accepted[i]| == BUF_SIZE
  }

  /** The sample stream: the accepted writes one after the other. */
  function Stream(accepted: seq<seq<byte>>): (s: seq<byte>)
    requires Whole(accepted)
    ensures |s| == BUF_SIZE * |accepted|
  {
    seq(BUF_SIZE * |accepted|, i requires 0 <= i < BUF_SIZE * |accepted| => accepted[i / BUF_SIZE][i % BUF_SIZE])
  }

  /** Word number n of the stream. */
  function Word(accepted: seq<seq<byte>>, n: nat): Chunk
    requires Whole(accepted) && n < 64 * |accepted|
  {
    accepted[n / 64][8 * (n % 64)..8 * (n % 64) + 8]
  }

  /** samples are at most seven reset zeros followed by the first k bytes of the stream. */
  predicate Shows(samples: seq<byte>, stream: seq<byte>, k: nat) {
    && k <= |stream|
    && k <= |samples| <= k + 7
    && samples == Zeros(|samples| - k) + stream[..k]
  }

  // ----- hardware: positions and contents -----

  /** How many stream bytes the player has moved on to. */
  function Played(b: Board): nat {
    if b.log.chunks == 0 then 0 else 8 * (b.log.chunks - 1) + b.hw.player.idx + 1
  }

  /** Posted, taken over, delivered and loaded never differ by more than what the registers hold. */
  predicate Accounting(b: Board) {
    var f := b.hw.fetcher;
    && |b.log.accepted| == b.log.bases + B(b.hw.queue.baseValid)
    && (f.addrValid ==> b.log.bases > 0 && b.log.words == 64 * (b.log.bases - 1) + f.chunkAddr)
    && (!f.addrValid ==> b.log.words == 64 * b.log.bases && f.chunkAddr == 0)
    && b.log.words == b.log.chunks + B(f.chunkValid)
    && (f.ramState == ReadWait <==> b.read != NoRead)
    && (f.ramState == ReadWait ==> f.addrValid && !f.chunkValid)
  }

  predicate Counted(b: Board) { Whole(b.log.accepted) && Accounting(b) }

  /** The chunk offered to the player is the word delivered last. */
  predicate ChunkOk(b: Board)
    requires Counted(b)
  {
    b.hw.fetcher.chunkValid ==> b.hw.fetcher.chunk == Word(b.log.accepted, b.log.words - 1)
  }

  /** The outstanding read is for the word delivered next. */
  predicate ReadOk(b: Board)
    requires Counted(b)
  {
    && (b.read.Accepted? ==> b.read.addr == b.hw.fetcher.MemAddr())
    && (b.read.Fetched? ==> b.read.data == Word(b.log.accepted, b.log.words))
  }

  /** The player holds the word loaded last, and gives it up only on its last byte. */
  predicate PlayerOk(b: Board)
    requires Counted(b)
  {
    var p := b.hw.player;
    && (b.log.chunks == 0 ==> p.arr == NO_CHUNK && !p.arrValid)
    && (b.log.chunks > 0 ==> p.arr == Word(b.log.accepted, b.log.chunks - 1))
    && (b.log.chunks > 0 && !p.arrValid ==> p.idx == 7)
  }

  predicate SamplesOk(b: Board)
    requires Counted(b)
  {
    && Shows(b.log.samples, Stream(b.log.accepted), Played(b))
    && (b.log.chunks == 0 ==> |b.log.samples| == b.hw.player.idx)
  }

  // ----- the double buffer -----

  /** Post number n goes to half (n + 1) mod 2: the driver starts with half 0 active. */
  function HalfOfPost(n: nat): Half { (n + 1) % 2 }

  predicate BufferOk(dma: DmaAddr, mem: seq<byte>, b: Board, base: Addr, post: nat)
    requires |mem| == 2 * BUF_SIZE && post < |b.log.accepted|
  {
    && base == HalfBase(dma, HalfOfPost(post))
    && HalfOf(mem, HalfOfPost(post)) == b.log.accepted[post]
  }

  /** The queued half and the half being read hold the writes they were posted for. */
  predicate Buffers(dma: DmaAddr, mem: seq<byte>, b: Board)
    requires |mem| == 2 * BUF_SIZE && Counted(b)
  {
    && (b.hw.queue.baseValid ==> BufferOk(dma, mem, b, b.hw.queue.base, b.log.bases))
    && (b.hw.fetcher.addrValid ==> BufferOk(dma, mem, b, b.hw.fetcher.addr, b.log.bases - 1))
  }

  predicate BoardOk(dma: DmaAddr, mem: seq<byte>, b: Board)
    requires |mem| == 2 * BUF_SIZE
  {
    Counted(b) && ChunkOk(b) && ReadOk(b) && PlayerOk(b) && SamplesOk(b) && Buffers(dma, mem, b)
  }

  // ----- permissions -----

  /** Everything that may lead to one more posted buffer: the call that starts the session, the
      armed interrupt, a handler between acknowledging and raising sample.req, sample.req itself,
      and a thread that has consumed it. */
  function Permissions(q: Queue, irq: IrqPc, ioctl: IoctlPc, d: Driver, threads: seq<WriterPc>): nat {
    B(ioctl != Finished) + B(q.irqEn) + B(irq == Acked) + B(d.req) + Count(HoldsPermission, threads)
  }

  predicate Fills(pc: WriterPc) { pc.Copying? || pc.Wiping? || pc.Filled? }

  /** There is at most one permission, and one that has left the unit means its queue is empty. */
  predicate Handshake(q: Queue, irq: IrqPc, ioctl: IoctlPc, d: Driver, threads: seq<WriterPc>) {
    && Permissions(q, irq, ioctl, d, threads) <= 1
    && Count(HoldsLock, threads) == B(d.lock)
    && (q.bufIrq ==> q.irqEn && !q.baseValid)
    && (irq == Entered ==> q.bufIrq)
    && (irq == Acked || d.req || ioctl != Finished ==> !q.baseValid)
    && (forall t :: 0 <= t < |threads| && Fills(threads[t]) ==> !q.baseValid)
  }

  // ----- threads -----

  /** What a thread has put into its target half so far. */
  predicate ThreadOk(d: Driver, pc: WriterPc)
    requires DriverOk(d) && PcOk(pc)
  {
    && (pc.Copying? ==> HalfOf(d.mem, Other(d.active))[..pc.done] == Pad(pc.data)[..pc.done])
    && (pc.Filled? ==> HalfOf(d.mem, Other(d.active)) == Pad(pc.data))
  }

  predicate ThreadsOk(d: Driver, threads: seq<WriterPc>)
    requires DriverOk(d)
  {
    forall t :: 0 <= t < |threads| ==> PcOk(threads[t]) && ThreadOk(d, threads[t])
  }

  predicate IsPosted(pc: WriterPc) { pc.Posted? }

  /** active_buf names the half posted last, except between posting and flipping. */
  predicate Driving(d: Driver, threads: seq<WriterPc>, posts: nat)
    requires DriverOk(d)
  {
    && d.active == (posts + Count(IsPosted, threads)) % 2
    && ThreadsOk(d, threads)
  }

  predicate Inv(dma: DmaAddr, w: World) {
    && DriverOk(w.drv)
    && BoardOk(dma, w.drv.mem, w.board)
    && Handshake(w.board.hw.queue, w.irq, w.ioctl, w.drv, w.threads)
    && Driving(w.drv, w.threads, |w.board.log.accepted|)
  }
}

/** Clock edges keep the hardware part of the invariant. */
module ApuEdges {
  import opened Common
  import opened ApuHardware
  import opened ApuDriver
  import opened ApuSystem
  import opened ApuInvariant

  lemma WordGrows(a: seq<seq<byte>>, more: seq<seq<byte>>, n: nat)
    requires Whole(a + more) && n < 64 * |a|
    ensures Whole(a) && Word(a + more, n) == Word(a, n)
  {
    assert forall i :: 0 <= i < |a| ==> a[i] == (a + more)[i];
  }

  lemma EdgeKeepsAccounting(b: Board, bus: BusWrite, posted: seq<seq<byte>>, f: Free)
    requires Accounting(b) && EdgeAllowed(b, f)
    requires |posted| == B(bus.Buffer?)
    requires bus.Buffer? ==> !b.hw.queue.baseValid
    ensures Accounting(Edge(b, bus, posted, f))
  {
  }

  /** n follows b by a clock edge that posts a buffer only into an empty queue. */
  predicate EdgeTo(b: Board, bus: BusWrite, posted: seq<seq<byte>>, f: Free, n: Board) {
    && EdgeAllowed(b, f)
    && n == Edge(b, bus, posted, f)
    && |posted| == B(bus.Buffer?)
    && (bus.Buffer? ==> !b.hw.queue.baseValid)
    && Counted(b) && Counted(n)
  }

  lemma EdgeKeepsChunk(b: Board, bus: BusWrite, posted: seq<seq<byte>>, f: Free, n: Board)
    requires EdgeTo(b, bus, posted, f, n) && ChunkOk(b) && ReadOk(b)
    ensures ChunkOk(n)
  {
    if b.hw.fetcher.chunkValid { WordGrows(b.log.accepted, posted, b.log.words - 1); }
    if b.read.Fetched? { WordGrows(b.log.accepted, posted, b.log.words); }
  }

  lemma EdgeKeepsRead(b: Board, bus: BusWrite, posted: seq<seq<byte>>, f: Free, n: Board)
    requires EdgeTo(b, bus, posted, f, n) && ReadOk(b)
    ensures ReadOk(n)
  {
    if b.read.Fetched? { WordGrows(b.log.accepted, posted, b.log.words); }
  }

  lemma EdgeKeepsPlayer(b: Board, bus: BusWrite, posted: seq<seq<byte>>, f: Free, n: Board)
    requires EdgeAllowed(b, f) && n == Edge(b, bus, posted, f) && Counted(b) && Counted(n)
    requires ChunkOk(b) && PlayerOk(b)
    ensures PlayerOk(n)
  {
    var i := b.hw.ToPlayer(ToEdge(b, f));
    PlayerEdge(b, bus, posted, f, n);
    if b.hw.ChunkAck() {
      WordGrows(b.log.accepted, posted, b.log.words - 1);
    } else {
      PlayerHolds(b.hw.player, i);
      if b.log.chunks > 0 { WordGrows(b.log.accepted, posted, b.log.chunks - 1); }
    }
  }

  lemma PlayerEdge(b: Board, bus: BusWrite, posted: seq<seq<byte>>, f: Free, n: Board)
    requires EdgeAllowed(b, f) && n == Edge(b, bus, posted, f)
    ensures n.hw.player == b.hw.player.Next(b.hw.ToPlayer(ToEdge(b, f)))
    ensures n.log.chunks == b.log.chunks + B(b.hw.ChunkAck()) && n.log.accepted == b.log.accepted + posted
  {
  }

  lemma PlayerHolds(p: Player, i: PlayerIn)
    requires !p.ChunkAck(i.chunkValid)
    ensures var n := p.Next(i); n.arr == p.arr && (n.arrValid ==> p.arrValid)
    ensures var n := p.Next(i); !n.arrValid && (p.arrValid || p.idx == 7) ==> n.idx == 7
  {
  }

  /** Byte number k of the stream is byte k mod 8 of word k / 8. */
  lemma StreamByte(a: seq<seq<byte>>, k: nat)
    requires Whole(a) && k < BUF_SIZE * |a|
    ensures k / 8 < 64 * |a| && Stream(a)[k] == Word(a, k / 8)[k % 8]
  {
    assert (k / 8) / 64 == k / 512;
    assert 8 * ((k / 8) % 64) + k % 8 == k % 512;
  }

  lemma ShowsInLongerStream(a: seq<seq<byte>>, b: seq<seq<byte>>, samples: seq<byte>, k: nat)
    requires Whole(a) && Whole(b) && a <= b
    requires Shows(samples, Stream(a), k)
    ensures Shows(samples, Stream(b), k)
  {
    assert Stream(b)[..k] == Stream(a)[..k];
  }

  lemma ShowsNextByte(samples: seq<byte>, stream: seq<byte>, k: nat, x: byte)
    requires Shows(samples, stream, k) && k < |stream| && x == stream[k]
    ensures Shows(samples + [x], stream, k + 1)
  {
    assert stream[..k + 1] == stream[..k] + [x];
  }

  lemma ShowsNextZero(samples: seq<byte>, stream: seq<byte>)
    requires Shows(samples, stream, 0) && |samples| < 7
    ensures Shows(samples + [0], stream, 0)
  {
  }

  /** Once a chunk is loaded, the output is the stream byte counted last. */
  lemma OutputIsLastPlayed(b: Board)
    requires Counted(b) && PlayerOk(b) && b.log.chunks > 0
    ensures 0 < Played(b) <= BUF_SIZE * |b.log.accepted|
    ensures b.hw.player.Sample() == Stream(b.log.accepted)[Played(b) - 1]
  {
    assert b.log.chunks <= 64 * |b.log.accepted|;
    StreamByte(b.log.accepted, Played(b) - 1);
  }

  /** n shows one byte more than b: the stream byte after the last one, or one more reset zero. */
  predicate ShowsOneMore(b: Board, n: Board) {
    && b.log.accepted <= n.log.accepted
    && n.log.samples == b.log.samples + [n.hw.player.Sample()]
    && (n.log.chunks == 0 ==> b.log.chunks == 0 && n.hw.player.idx == b.hw.player.idx + 1)
    && (n.log.chunks > 0 ==> Played(n) == Played(b) + 1)
  }

  predicate ShowsNoMore(b: Board, n: Board) {
    && b.log.accepted <= n.log.accepted
    && n.log.samples == b.log.samples
    && n.log.chunks == b.log.chunks
    && n.hw.player.idx == b.hw.player.idx
  }

  lemma EdgeShowsAtMostOneMore(b: Board, bus: BusWrite, posted: seq<seq<byte>>, f: Free, n: Board)
    requires EdgeTo(b, bus, posted, f, n) && PlayerOk(b)
    ensures if PlayerAdvances(b, f) then ShowsOneMore(b, n) else ShowsNoMore(b, n)
  {
  }

  lemma ShowingKeepsSamples(b: Board, n: Board)
    requires Counted(b) && Counted(n) && PlayerOk(n)
    requires ShowsOneMore(b, n) || ShowsNoMore(b, n)
    requires SamplesOk(b)
    ensures SamplesOk(n)
  {
    var samples, stream, k := b.log.samples, Stream(n.log.accepted), Played(b);
    ShowsInLongerStream(b.log.accepted, n.log.accepted, samples, k);
    if ShowsOneMore(b, n) {
      if n.log.chunks > 0 {
        OutputIsLastPlayed(n);
        ShowsNextByte(samples, stream, k, n.hw.player.Sample());
      } else {
        ShowsNextZero(samples, stream);
      }
    }
  }

  /** A posted buffer is the right half, and holds the write it is posted for. */
  predicate PostsRightHalf(dma: DmaAddr, mem: seq<byte>, b: Board, bus: BusWrite, posted: seq<seq<byte>>)
    requires |mem| == 2 * BUF_SIZE && |posted| == B(bus.Buffer?)
  {
    var half := HalfOfPost(|b.log.accepted|);
    bus.Buffer? ==> !b.hw.queue.baseValid && bus.base == HalfBase(dma, half) && HalfOf(mem, half) == posted[0]
  }

  lemma EdgeKeepsBuffers(dma: DmaAddr, mem: seq<byte>, b: Board, bus: BusWrite, posted: seq<seq<byte>>, f: Free,
                         n: Board)
    requires |mem| == 2 * BUF_SIZE && EdgeTo(b, bus, posted, f, n) && Buffers(dma, mem, b)
    requires PostsRightHalf(dma, mem, b, bus, posted)
    ensures Buffers(dma, mem, n)
  {
    assert forall i :: 0 <= i < |b.log.accepted| ==> n.log.accepted[i] == b.log.accepted[i];
  }

  lemma EdgeKeepsBoard(dma: DmaAddr, mem: seq<byte>, b: Board, bus: BusWrite, posted: seq<seq<byte>>, f: Free)
    requires |mem| == 2 * BUF_SIZE && BoardOk(dma, mem, b) && EdgeAllowed(b, f)
    requires Whole(posted) && |posted| == B(bus.Buffer?)
    requires PostsRightHalf(dma, mem, b, bus, posted)
    ensures BoardOk(dma, mem, Edge(b, bus, posted, f))
  {
    var n := Edge(b, bus, posted, f);
    EdgeKeepsAccounting(b, bus, posted, f);
    EdgeKeepsChunk(b, bus, posted, f, n);
    EdgeKeepsRead(b, bus, posted, f, n);
    EdgeKeepsPlayer(b, bus, posted, f, n);
    EdgeShowsAtMostOneMore(b, bus, posted, f, n);
    ShowingKeepsSamples(b, n);
    EdgeKeepsBuffers(dma, mem, b, bus, posted, f, n);
  }

  lemma HalfAddresses(dma: DmaAddr, h: Half, ca: Index6)
    ensures 8 * ((HalfBase(dma, h) + ca) % ADDR_SPAN) == dma + 512 * h + 8 * ca
  {
    assert HalfBase(dma, h) + ca < ADDR_SPAN;
  }

  /** Word ca of half h, by its address. */
  lemma WordOfHalf(dma: DmaAddr, mem: seq<byte>, h: Half, ca: Index6, addr: Addr, junk: Chunk)
    requires |mem| == 2 * BUF_SIZE && 8 * addr == dma + 512 * h + 8 * ca
    ensures WordInMemory(dma, mem, addr, junk) == HalfOf(mem, h)[8 * ca..8 * ca + 8]
  {
    var lo, from := 512 * h, 512 * h + 8 * ca;
    assert WordInMemory(dma, mem, addr, junk) == mem[from..from + 8];
    SliceOfSlice(mem, lo, lo + 512, 8 * ca);
    assert HalfOf(mem, h) == mem[lo..lo + 512];
  }

  lemma SliceOfSlice(mem: seq<byte>, lo: nat, hi: nat, k: nat)
    requires lo + k + 8 <= hi <= |mem|
    ensures mem[lo..hi][k..k + 8] == mem[lo + k..lo + k + 8]
  {
    var part, there := mem[lo..hi][k..k + 8], mem[lo + k..lo + k + 8];
    assert forall i :: 0 <= i < 8 ==> part[i] == mem[lo + k + i] == there[i];
  }

  lemma WordAt(accepted: seq<seq<byte>>, post: nat, ca: Index6)
    requires Whole(accepted) && post < |accepted|
    ensures Word(accepted, 64 * post + ca) == accepted[post][8 * ca..8 * ca + 8]
  {
  }

  /** The word memory looks up is the stream word the fetcher is waiting for. */
  lemma LookupKeepsBoard(dma: DmaAddr, mem: seq<byte>, b: Board, junk: Chunk)
    requires |mem| == 2 * BUF_SIZE && BoardOk(dma, mem, b) && b.read.Accepted?
    ensures BoardOk(dma, mem, b.(read := Fetched(WordInMemory(dma, mem, b.read.addr, junk))))
  {
    var post: nat := b.log.bases - 1;
    HalfAddresses(dma, HalfOfPost(post), b.hw.fetcher.chunkAddr);
    WordOfHalf(dma, mem, HalfOfPost(post), b.hw.fetcher.chunkAddr, b.read.addr, junk);
    WordAt(b.log.accepted, post, b.hw.fetcher.chunkAddr);
    ReadChangesOnly(dma, mem, b, Fetched(WordInMemory(dma, mem, b.read.addr, junk)));
  }

  /** Everything else in the board is as it was. */
  lemma ReadChangesOnly(dma: DmaAddr, mem: seq<byte>, b: Board, read: ReadState)
    requires |mem| == 2 * BUF_SIZE && BoardOk(dma, mem, b) && b.read.Accepted? && read.Fetched?
    requires read.data == Word(b.log.accepted, b.log.words)
    ensures BoardOk(dma, mem, b.(read := read))
  {
  }

  /** Bytes changed outside the half posted last disturb nothing, provided the queue is empty. */
  lemma SpareHalfKeepsBoard(dma: DmaAddr, mem: seq<byte>, mem': seq<byte>, b: Board)
    requires |mem| == |mem'| == 2 * BUF_SIZE && BoardOk(dma, mem, b)
    requires !b.hw.queue.baseValid
    requires HalfOf(mem', |b.log.accepted| % 2) == HalfOf(mem, |b.log.accepted| % 2)
    ensures BoardOk(dma, mem', b)
  {
  }
}
