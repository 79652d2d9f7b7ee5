/** One buffer group and the stream that owns it, against a kernel that keeps rewriting the buffers
    it is given back. The history fields say what the group should mean. */
module Groups {
  import opened Bits
  import opened Outcomes
  import opened Windows
  import opened BufRings
  import opened Readers

  /** A completion not yet picked up: buffer `bid` holds `len` bytes. */
  datatype Posted = Posted(bid: nat, len: nat)

  /** `head` is the kernel's own 16-bit index. `taken` and `returned` count for ever; `received` is
      what the kernel got from the socket and `delivered` what reads have returned. */
  datatype Group = Group(
    ring: Ring, head: nat, queue: seq<Reader>, posted: seq<Posted>,
    received: seq<byte>, delivered: seq<byte>, taken: nat, returned: nat)

  /** 2^k buffers of `size` bytes from address `base`, registered under `bgid`. */
  datatype Params = Params(k: nat, base: nat, size: nat, bgid: nat)

  function Count(p: Params): nat { Pow2(p.k) }

  /** The address just past the group's allocation. */
  function End(p: Params): (end: nat)
    ensures p.base <= end
  {
    Block(p.base, p.size, Count(p))
  }

  // ---------- Steps ----------

  /** The entry the kernel reads next. */
  function NextEntry(p: Params, g: Group): Slot
    requires Sized(g.ring, p.k)
  {
    g.ring.slots[Mod(g.head, |g.ring.slots|)]
  }

  predicate CanReceive(p: Params, g: Group, data: seq<byte>) {
    && Sized(g.ring, p.k)
    && g.head != g.ring.tail
    && 0 < |data| <= NextEntry(p, g).len
  }

  function Receive(p: Params, mem: seq<byte>, g: Group, data: seq<byte>): Outcome<(seq<byte>, Group)>
    requires CanReceive(p, g, data)
  {
    var e := NextEntry(p, g);
    if e.addr + |data| > |mem| then Panic(KernelOutsideMemory)
    else Ok((Overwrite(mem, e.addr, data),
             g.(head := (g.head + 1) % 0x1_0000, posted := g.posted + [Posted(e.bid, |data|)],
                received := g.received + data, taken := g.taken + 1)))
  }

  function Pick(p: Params, g: Group): Outcome<Group>
    requires g.posted != []
  {
    match GetReadBuf(g.ring, p.bgid, g.posted[0].bid, g.posted[0].len)
    case Panic(site) => Panic(site)
    case Ok(buf) => Ok(g.(queue := g.queue + [Reader(buf, 0)], posted := g.posted[1..]))
  }

  function GiveBack(p: Params, g: Group, drained: Option<KernelBuffer>): Group
    requires Sized(g.ring, p.k)
  {
    match drained
    case None => g
    case Some(b) => g.(ring := Return(g.ring, p.k, b), returned := g.returned + 1)
  }

  function Read(p: Params, mem: seq<byte>, g: Group, want: nat): Outcome<Group>
    requires Sized(g.ring, p.k)
  {
    match VecRead(mem, g.queue, want)
    case Panic(site) => Panic(site)
    case Ok(WouldBlock) => Ok(g)
    case Ok(Got(bytes, queue, drained)) =>
      Ok(GiveBack(p, g.(queue := queue, delivered := g.delivered + bytes), drained))
  }

  // ---------- Invariant ----------

  predicate Counters(p: Params, g: Group) {
    && Sized(g.ring, p.k)
    && 0 < p.size < U32
    && Count(p) <= g.returned && g.taken <= g.returned
    && |g.queue| + |g.posted| + g.returned == g.taken + Count(p)
    && g.ring.tail == g.returned % 0x1_0000
    && g.head == g.taken % 0x1_0000
  }

  /** The j-th buffer out of the ring, oldest first, has the id of the j-th slot to be refilled. */
  function OutId(p: Params, g: Group, j: nat): nat { Mod(g.returned + j, Count(p)) }

  predicate Queued(p: Params, g: Group) {
    forall j :: 0 <= j < |g.queue| ==>
      && g.queue[j].buf == KernelBuffer(
           Block(p.base, p.size, OutId(p, g, j)), g.queue[j].buf.dataLen, OutId(p, g, j), p.bgid, p.size)
      && g.queue[j].claimed < g.queue[j].buf.dataLen <= p.size
  }

  predicate Waiting(p: Params, g: Group) {
    forall j :: 0 <= j < |g.posted| ==>
      g.posted[j].bid == OutId(p, g, |g.queue| + j) && 0 < g.posted[j].len <= p.size
  }

  function PostedChunks(p: Params, posted: seq<Posted>): (c: seq<Chunk>)
    ensures |c| == |posted|
    ensures forall i :: 0 <= i < |c| ==> c[i] == Chunk(Block(p.base, p.size, posted[i].bid), posted[i].len)
  {
    seq(|posted|, i requires 0 <= i < |posted| => Chunk(Block(p.base, p.size, posted[i].bid), posted[i].len))
  }

  function OutChunks(p: Params, g: Group): seq<Chunk> {
    QueueChunks(g.queue) + PostedChunks(p, g.posted)
  }

  /** Nothing is lost, duplicated, reordered or overwritten between the socket and the reads. */
  predicate Faithful(p: Params, mem: seq<byte>, g: Group) {
    g.delivered + Content(mem, OutChunks(p, g)) == g.received
  }

  /** The part of the invariant that does not look at memory. */
  predicate Layout(p: Params, g: Group) {
    Counters(p, g) && Identity(g.ring, p.base, p.size) && Queued(p, g) && Waiting(p, g)
  }

  predicate Inv(p: Params, mem: seq<byte>, g: Group) {
    Layout(p, g) && End(p) <= |mem| && Faithful(p, mem, g)
  }

  // ---------- Disjointness ----------

  /** Chunk j lies in the block of buffer OutId(j), inside the group's allocation. */
  lemma {:induction false} OutChunkBounds(p: Params, g: Group, j: nat)
    requires Counters(p, g) && Queued(p, g) && Waiting(p, g) && j < |OutChunks(p, g)|
    ensures var c, b := OutChunks(p, g)[j], OutId(p, g, j);
      && b < Count(p)
      && Block(p.base, p.size, b) <= c.lo
      && c.lo + c.len <= Block(p.base, p.size, b) + p.size <= End(p)
  {
    BlocksApart(p.base, p.size, OutId(p, g, j), Count(p));
    if j >= |g.queue| {
      assert OutChunks(p, g)[j] == PostedChunks(p, g.posted)[j - |g.queue|];
    }
  }

  lemma {:induction false} OutChunksInArea(p: Params, g: Group, hi: nat)
    requires Counters(p, g) && Queued(p, g) && Waiting(p, g) && hi == End(p)
    ensures forall i :: 0 <= i < |OutChunks(p, g)| ==>
      p.base <= OutChunks(p, g)[i].lo && OutChunks(p, g)[i].lo + OutChunks(p, g)[i].len <= hi
  {
    forall i | 0 <= i < |OutChunks(p, g)|
      ensures p.base <= OutChunks(p, g)[i].lo && OutChunks(p, g)[i].lo + OutChunks(p, g)[i].len <= hi
    {
      OutChunkBounds(p, g, i);
    }
  }

  /** Two of n consecutive ids have different blocks, and they do not overlap. */
  lemma {:induction false} OutBlocksDisjoint(p: Params, g: Group, i: nat, j: nat)
    requires i < j < Count(p)
    ensures var a, b := OutId(p, g, i), OutId(p, g, j);
      && a != b
      && (|| Block(p.base, p.size, a) + p.size <= Block(p.base, p.size, b)
          || Block(p.base, p.size, b) + p.size <= Block(p.base, p.size, a))
  {
    var a, b := OutId(p, g, i), OutId(p, g, j);
    ModDistinct(g.returned + i, g.returned + j, Count(p));
    if a < b { BlocksApart(p.base, p.size, a, b); } else { BlocksApart(p.base, p.size, b, a); }
  }

  lemma {:induction false} BlockApart(p: Params, g: Group, j: nat, b: nat)
    requires Counters(p, g) && Queued(p, g) && Waiting(p, g) && j < |OutChunks(p, g)|
    requires b != OutId(p, g, j)
    ensures var c := OutChunks(p, g)[j];
      c.lo + c.len <= Block(p.base, p.size, b) || Block(p.base, p.size, b) + p.size <= c.lo
  {
    var a := OutId(p, g, j);
    OutChunkBounds(p, g, j);
    if a < b { BlocksApart(p.base, p.size, a, b); } else { BlocksApart(p.base, p.size, b, a); }
  }

  // ---------- The steps keep the invariant ----------

  /** The kernel's next buffer is the one whose id follows the last buffer out. */
  lemma {:induction false} NextEntryIsHome(p: Params, g: Group)
    requires Counters(p, g) && Identity(g.ring, p.base, p.size)
    ensures NextEntry(p, g) == Home(p.base, p.size, Mod(g.taken, Count(p)))
    ensures Mod(g.taken, Count(p)) == OutId(p, g, |g.queue| + |g.posted|)
    ensures g.head != g.ring.tail ==> |g.queue| + |g.posted| < Count(p)
  {
    WrappedTail(g.taken, g.returned, p.k, 0);
  }

  lemma {:induction false} ReceiveKeeps(p: Params, mem: seq<byte>, g: Group, data: seq<byte>)
    requires Inv(p, mem, g) && CanReceive(p, g, data)
    ensures NextEntry(p, g).addr + |data| <= |mem|
    ensures Receive(p, mem, g, data).Ok?
    ensures var (mem', g') := Receive(p, mem, g, data).value; Inv(p, mem', g')
    ensures var (mem', g') := Receive(p, mem, g, data).value;
      && |mem'| == |mem|
      && forall i :: 0 <= i < |mem| && !(p.base <= i < End(p)) ==> mem'[i] == mem[i]
    ensures var (mem', g') := Receive(p, mem, g, data).value; var e := NextEntry(p, g);
      && e.addr + |data| <= |mem'| && mem'[e.addr..e.addr + |data|] == data
      && g'.received == g.received + data && g'.posted == g.posted + [Posted(e.bid, |data|)]
      && g'.taken == g.taken + 1 && g'.head == (g.head + 1) % 0x1_0000
      && g'.queue == g.queue && g'.ring == g.ring && g'.delivered == g.delivered && g'.returned == g.returned
  {
    hide Mod, Faithful, Queued, Waiting;
    NextEntryIsHome(p, g);
    var b := Mod(g.taken, Count(p));
    BlocksApart(p.base, p.size, b, Count(p));
    var (mem', g') := Receive(p, mem, g, data).value;
    ReceiveLayout(p, g, |data|, g');
    ReceiveFaithful(p, mem, g, data, g');
  }

  lemma {:induction false} ReceiveLayout(p: Params, g: Group, len: nat, g': Group)
    requires Layout(p, g) && |g.queue| + |g.posted| < Count(p) && 0 < len <= p.size
    requires g'.ring == g.ring && g'.queue == g.queue && g'.head == (g.head + 1) % 0x1_0000
    requires g'.posted == g.posted + [Posted(OutId(p, g, |g.queue| + |g.posted|), len)]
    requires g'.taken == g.taken + 1 && g'.returned == g.returned
    ensures Layout(p, g')
  {
    WrapAdd16(g.taken, 1);
    assert forall j :: OutId(p, g', j) == OutId(p, g, j);
  }

  lemma {:induction false} ReceiveFaithful(p: Params, mem: seq<byte>, g: Group, data: seq<byte>, g': Group)
    requires Inv(p, mem, g) && 0 < |data| <= p.size
    requires |g.queue| + |g.posted| < Count(p)
    requires g'.queue == g.queue
    requires g'.posted == g.posted + [Posted(OutId(p, g, |g.queue| + |g.posted|), |data|)]
    requires g'.delivered == g.delivered && g'.received == g.received + data
    requires Block(p.base, p.size, OutId(p, g, |g.queue| + |g.posted|)) + |data| <= |mem|
    ensures Faithful(p, Overwrite(mem, Block(p.base, p.size, OutId(p, g, |g.queue| + |g.posted|)), data), g')
  {
    var b := OutId(p, g, |g.queue| + |g.posted|);
    var lo := Block(p.base, p.size, b);
    assert OutChunks(p, g') == OutChunks(p, g) + [Chunk(lo, |data|)] by {
      assert PostedChunks(p, g'.posted) == PostedChunks(p, g.posted) + [Chunk(lo, |data|)];
    }
    forall i | 0 <= i < |OutChunks(p, g)|
      ensures var c := OutChunks(p, g)[i]; c.lo + c.len <= lo || lo + |data| <= c.lo
    {
      OutBlocksDisjointFromNext(p, g, i);
      BlockApart(p, g, i, b);
    }
    ContentAppendWritten(mem, OutChunks(p, g), lo, data);
    Regroup(g.delivered, Content(mem, OutChunks(p, g)), data);
  }

  lemma {:induction false} OutBlocksDisjointFromNext(p: Params, g: Group, i: nat)
    requires Counters(p, g) && i < |g.queue| + |g.posted| < Count(p)
    ensures OutId(p, g, i) != OutId(p, g, |g.queue| + |g.posted|)
  {
    ModDistinct(g.returned + i, g.returned + |g.queue| + |g.posted|, Count(p));
  }

  /** The lookup never aborts and queues the very memory the kernel wrote. */
  lemma {:induction false} PickKeeps(p: Params, mem: seq<byte>, g: Group)
    requires Inv(p, mem, g) && g.posted != []
    ensures Pick(p, g).Ok? && Inv(p, mem, Pick(p, g).value)
    ensures Pick(p, g).value.queue == g.queue + [Reader(KernelBuffer(
      Block(p.base, p.size, g.posted[0].bid), g.posted[0].len, g.posted[0].bid, p.bgid, p.size), 0)]
  {
    var front := g.posted[0];
    assert front.bid == OutId(p, g, |g.queue| + 0);
    LookupUnderIdentity(g.ring, p.base, p.size, p.bgid, front.bid, front.len);
    var g' := Pick(p, g).value;
    PickChunks(p, g, g');
    PickLayout(p, g, g');
  }

  lemma {:induction false} PickChunks(p: Params, g: Group, g': Group)
    requires g.posted != [] && g'.posted == g.posted[1..]
    requires g'.queue == g.queue + [Reader(KernelBuffer(
      Block(p.base, p.size, g.posted[0].bid), g.posted[0].len, g.posted[0].bid, p.bgid, p.size), 0)]
    ensures OutChunks(p, g') == OutChunks(p, g)
  {
    assert QueueChunks(g'.queue) == QueueChunks(g.queue) + [PostedChunks(p, g.posted)[0]];
    assert PostedChunks(p, g'.posted) == PostedChunks(p, g.posted)[1..];
  }

  lemma {:induction false} PickLayout(p: Params, g: Group, g': Group)
    requires Layout(p, g) && g.posted != []
    requires g' == g.(queue := g'.queue, posted := g.posted[1..])
    requires g'.queue == g.queue + [Reader(KernelBuffer(
      Block(p.base, p.size, g.posted[0].bid), g.posted[0].len, g.posted[0].bid, p.bgid, p.size), 0)]
    ensures Layout(p, g')
  {
    assert g.posted[0].bid == OutId(p, g, |g.queue| + 0);
    forall j | 0 <= j < |g'.posted|
      ensures g'.posted[j].bid == OutId(p, g', |g'.queue| + j) && 0 < g'.posted[j].len <= p.size
    {
      assert g'.posted[j] == g.posted[j + 1];
      assert |g'.queue| + j == |g.queue| + (j + 1);
    }
  }

  /** A read into a non-empty slice never aborts; it delivers the oldest undelivered bytes. */
  lemma {:induction false} ReadKeeps(p: Params, mem: seq<byte>, g: Group, want: nat)
    requires Inv(p, mem, g) && (want > 0 || g.queue == [])
    ensures Read(p, mem, g, want).Ok? && Inv(p, mem, Read(p, mem, g, want).value)
  {
    if g.queue != [] {
      QueueFrontInMemory(p, mem, g);
      VecReadIsFifo(mem, g.queue, want);
      var r := VecRead(mem, g.queue, want).value;
      var g1 := g.(queue := r.queue, delivered := g.delivered + r.bytes);
      ReadFaithful(p, mem, g, g1, r.bytes);
      if r.drained.Some? {
        ReturnOldest(p, mem, g, g1);
      } else {
        ClaimLayout(p, g, g1);
      }
    }
  }

  lemma {:induction false} ClaimLayout(p: Params, g: Group, g1: Group)
    requires Layout(p, g) && g.queue != [] && g1.queue != []
    requires g1 == g.(queue := g1.queue, delivered := g1.delivered)
    requires g1.queue == [g1.queue[0]] + g.queue[1..]
    requires g1.queue[0].buf == g.queue[0].buf && g1.queue[0].claimed < g.queue[0].buf.dataLen
    ensures Layout(p, g1)
  {
    hide Mod;
    assert forall j :: OutId(p, g1, j) == OutId(p, g, j);
    assert forall j :: 1 <= j < |g.queue| ==> g1.queue[j] == g.queue[j];
  }

  lemma {:induction false} QueueFrontInMemory(p: Params, mem: seq<byte>, g: Group)
    requires Inv(p, mem, g) && g.queue != []
    ensures InMemory(|mem|, g.queue[0]) && g.queue[0].claimed < g.queue[0].buf.dataLen
  {
    OutChunkBounds(p, g, 0);
  }

  lemma {:induction false} ReadFaithful(p: Params, mem: seq<byte>, g: Group, g1: Group, bytes: seq<byte>)
    requires Faithful(p, mem, g)
    requires g1.posted == g.posted && g1.received == g.received && g1.delivered == g.delivered + bytes
    requires bytes + Content(mem, QueueChunks(g1.queue)) == Content(mem, QueueChunks(g.queue))
    ensures Faithful(p, mem, g1)
  {
    var q, q1 := Content(mem, QueueChunks(g.queue)), Content(mem, QueueChunks(g1.queue));
    var rest := Content(mem, PostedChunks(p, g.posted));
    ContentConcat(mem, QueueChunks(g.queue), PostedChunks(p, g.posted));
    ContentConcat(mem, QueueChunks(g1.queue), PostedChunks(p, g.posted));
    Regroup(bytes, q1, rest);
    Regroup(g.delivered, bytes, q1 + rest);
  }

  /** The drained buffer is the one at `tail & mask`, so giving it back keeps the layout. */
  lemma {:induction false} ReturnOldest(p: Params, mem: seq<byte>, g: Group, g1: Group)
    requires Inv(p, mem, g) && g.queue != []
    requires g1 == g.(queue := g.queue[1..], delivered := g1.delivered)
    requires Faithful(p, mem, g1)
    ensures g.queue[0].buf.bid == SlotIndex(g.ring, 0)
    ensures Inv(p, mem, GiveBack(p, g1, Some(g.queue[0].buf)))
  {
    hide Faithful, Mod, Block;
    var b := g.queue[0].buf;
    var g' := GiveBack(p, g1, Some(b));
    WrappedTail(g.taken, g.returned, p.k, 0);
    assert b.bid == OutId(p, g, 0) == SlotIndex(g.ring, 0);
    ReturnKeepsIdentityIff(g.ring, p.k, p.base, p.size, b);
    WrapAdd16(g.returned, 1);
    ShiftLayout(p, g, g');
    SameFaithful(p, mem, g1, g');
  }

  lemma SameFaithful(p: Params, mem: seq<byte>, g1: Group, g': Group)
    requires Faithful(p, mem, g1) && g'.queue == g1.queue && g'.posted == g1.posted
    requires g'.delivered == g1.delivered && g'.received == g1.received
    ensures Faithful(p, mem, g')
  {
    assert OutChunks(p, g') == OutChunks(p, g1);
  }

  lemma {:induction false} ShiftLayout(p: Params, g: Group, g': Group)
    requires Layout(p, g) && g.queue != []
    requires g'.queue == g.queue[1..] && g'.posted == g.posted
    requires g'.taken == g.taken && g'.returned == g.returned + 1 && g'.head == g.head
    requires Sized(g'.ring, p.k) && g'.ring.slots == g.ring.slots && g'.ring.tail == g'.returned % 0x1_0000
    ensures Layout(p, g')
  {
    forall j | 0 <= j < |g'.queue|
      ensures g'.queue[j] == g.queue[j + 1] && OutId(p, g', j) == OutId(p, g, j + 1)
    {
    }
    forall j | 0 <= j < |g'.posted|
      ensures g'.posted[j].bid == OutId(p, g', |g'.queue| + j)
    {
      assert g.returned + (|g.queue| + j) == g'.returned + (|g'.queue| + j);
    }
  }

  /** Rewriting memory outside a group's allocation does not concern the group. */
  lemma {:induction false} ForeignWrite(p: Params, mem: seq<byte>, mem': seq<byte>, g: Group)
    requires Inv(p, mem, g) && |mem'| == |mem|
    requires forall i :: p.base <= i < End(p) && i < |mem| ==> mem'[i] == mem[i]
    ensures Inv(p, mem', g)
  {
    OutChunksInArea(p, g, End(p));
    FrameInArea(mem, mem', OutChunks(p, g), p.base, End(p));
  }

  // ---------- Conservation ----------

  function QueueIds(queue: seq<Reader>): (ids: seq<nat>)
    ensures |ids| == |queue| && forall i :: 0 <= i < |ids| ==> ids[i] == queue[i].buf.bid
  {
    seq(|queue|, i requires 0 <= i < |queue| => queue[i].buf.bid)
  }

  function PostedIds(posted: seq<Posted>): (ids: seq<nat>)
    ensures |ids| == |posted| && forall i :: 0 <= i < |ids| ==> ids[i] == posted[i].bid
  {
    seq(|posted|, i requires 0 <= i < |posted| => posted[i].bid)
  }

  /** The entries between the kernel's head and the tail, by the wrapped indices both sides see. */
  function AvailableIds(p: Params, g: Group): (ids: seq<nat>)
    requires Sized(g.ring, p.k)
  {
    var w := Window(g.ring.slots, g.head, (g.ring.tail - g.head) % 0x1_0000);
    seq(|w|, i requires 0 <= i < |w| => w[i].bid)
  }

  /** Every buffer of the group, by place: reader queue, completion not picked up, published ring. */
  function Places(p: Params, g: Group): seq<nat>
    requires Sized(g.ring, p.k)
  {
    QueueIds(g.queue) + PostedIds(g.posted) + AvailableIds(p, g)
  }

  lemma {:induction false} AvailableId(p: Params, g: Group, i: nat)
    requires Layout(p, g) && i < |AvailableIds(p, g)|
    ensures AvailableIds(p, g)[i] == OutId(p, g, |g.queue| + |g.posted| + i)
  {
    WrapIndex16(g.taken, i, p.k);
    ModAgain(g.taken + i, Count(p));
  }

  lemma ModAgain(x: nat, n: nat)
    requires n > 0
    ensures Mod(x + n, n) == Mod(x, n)
  {
  }

  lemma {:induction false} AvailableCount(p: Params, g: Group)
    requires Layout(p, g)
    ensures |AvailableIds(p, g)| == (g.ring.tail - g.head) % 0x1_0000 == g.returned - g.taken
  {
    WrappedTail(g.taken, g.returned, p.k, 0);
  }

  /** Each of the group's buffers is in exactly one place, the wrapped indices count the available
      ones exactly, and so the reader queue never outgrows the group. */
  lemma {:induction false} Conservation(p: Params, g: Group)
    requires Layout(p, g)
    ensures |Places(p, g)| == Count(p)
    ensures forall i, j :: 0 <= i < j < Count(p) ==> Places(p, g)[i] != Places(p, g)[j]
    ensures forall b :: 0 <= b < Count(p) ==> b in Places(p, g)
    ensures |g.queue| + |g.posted| + (g.ring.tail - g.head) % 0x1_0000 == Count(p)
  {
    AvailableCount(p, g);
    AllPlaceIds(p, g, Places(p, g));
    EachIdOnce(Places(p, g), g.returned, Count(p));
  }

  lemma {:induction false} AllPlaceIds(p: Params, g: Group, places: seq<nat>)
    requires Layout(p, g) && places == Places(p, g)
    ensures forall i :: 0 <= i < |places| ==> places[i] == Mod(g.returned + i, Count(p))
  {
    forall i | 0 <= i < |places|
      ensures places[i] == Mod(g.returned + i, Count(p))
    {
      PlaceId(p, g, i);
    }
  }

  /** n consecutive numbers taken modulo n run through every residue once. */
  lemma {:induction false} EachIdOnce(places: seq<nat>, first: nat, n: nat)
    requires n > 0 && |places| == n
    requires forall i :: 0 <= i < n ==> places[i] == Mod(first + i, n)
    ensures forall i, j :: 0 <= i < j < n ==> places[i] != places[j]
    ensures forall b :: 0 <= b < n ==> b in places
  {
    forall i, j | 0 <= i < j < n
      ensures places[i] != places[j]
    {
      ModDistinct(first + i, first + j, n);
    }
    forall b | 0 <= b < n
      ensures b in places
    {
      var t := Representative(first, b, n);
      assert places[t - first] == Mod(first + (t - first), n);
    }
  }

  lemma {:induction false} PlaceId(p: Params, g: Group, i: nat)
    requires Layout(p, g) && i < |Places(p, g)|
    ensures Places(p, g)[i] == OutId(p, g, i)
  {
    var q, w := |g.queue|, |g.posted|;
    if i < q {
    } else if i < q + w {
      assert Places(p, g)[i] == PostedIds(g.posted)[i - q] == OutId(p, g, q + (i - q));
    } else {
      assert Places(p, g)[i] == AvailableIds(p, g)[i - q - w];
      AvailableId(p, g, i - q - w);
    }
  }

  // ---------- The buffers themselves ----------

  function QueueBuffers(queue: seq<Reader>): (w: seq<Slot>)
    ensures |w| == |queue|
    ensures forall i :: 0 <= i < |w| ==> w[i] == Slot(queue[i].buf.addr, queue[i].buf.bufLen, queue[i].buf.bid)
  {
    seq(|queue|, i requires 0 <= i < |queue| => Slot(queue[i].buf.addr, queue[i].buf.bufLen, queue[i].buf.bid))
  }

  /** Completions name a buffer by id; its memory is what the ring says under that id. */
  function PostedBuffers(ring: Ring, posted: seq<Posted>): (w: seq<Slot>)
    requires forall i :: 0 <= i < |posted| ==> posted[i].bid < |ring.slots|
    ensures |w| == |posted| && forall i :: 0 <= i < |w| ==> w[i] == ring.slots[posted[i].bid]
  {
    seq(|posted|, i requires 0 <= i < |posted| => ring.slots[posted[i].bid])
  }

  /** The address, length and id of every buffer of the group, in the order of Places. */
  function Buffers(p: Params, g: Group): seq<Slot>
    requires Layout(p, g)
  {
    QueueBuffers(g.queue) + PostedBuffers(g.ring, g.posted)
      + Window(g.ring.slots, g.head, (g.ring.tail - g.head) % 0x1_0000)
  }

  lemma {:induction false} BufferIsHome(p: Params, g: Group, i: nat)
    requires Layout(p, g) && i < |Buffers(p, g)| == |Places(p, g)|
    ensures Buffers(p, g)[i] == Home(p.base, p.size, Places(p, g)[i])
  {
    hide Mod;
    var q, w := |g.queue|, |g.posted|;
    if i < q {
    } else if i < q + w {
      assert Buffers(p, g)[i] == g.ring.slots[g.posted[i - q].bid];
      assert Places(p, g)[i] == PostedIds(g.posted)[i - q];
    } else {
      assert Buffers(p, g)[i] == g.ring.slots[Mod(g.head + (i - q - w), |g.ring.slots|)];
      assert Places(p, g)[i] == AvailableIds(p, g)[i - q - w];
    }
  }

  /** All of the group's buffers, whoever holds them, have different ids, lie inside its allocation,
      keep their full size and never overlap. */
  lemma {:induction false} BuffersApart(p: Params, g: Group, i: nat, j: nat)
    requires Layout(p, g) && i < j < Count(p)
    ensures |Buffers(p, g)| == Count(p)
    ensures var a, b := Buffers(p, g)[i], Buffers(p, g)[j];
      && a.bid != b.bid && a.len == b.len == p.size
      && p.base <= a.addr && a.addr + a.len <= End(p) && p.base <= b.addr && b.addr + b.len <= End(p)
      && (a.addr + a.len <= b.addr || b.addr + b.len <= a.addr)
  {
    hide Buffers, Places, Identity, Queued, Waiting, OutId;
    BufferInArea(p, g, i);
    BufferInArea(p, g, j);
    OutBlocksDisjoint(p, g, i, j);
  }

  lemma {:induction false} BufferInArea(p: Params, g: Group, i: nat)
    requires Layout(p, g) && i < Count(p)
    ensures |Buffers(p, g)| == Count(p)
    ensures Buffers(p, g)[i] == Home(p.base, p.size, OutId(p, g, i))
    ensures p.base <= Buffers(p, g)[i].addr && Buffers(p, g)[i].addr + p.size <= End(p)
  {
    hide Places, Identity, Queued, Waiting;
    BuffersCount(p, g);
    Conservation(p, g);
    BufferIsHome(p, g, i);
    AllPlaceIds(p, g, Places(p, g));
    BlocksApart(p.base, p.size, OutId(p, g, i), Count(p));
  }

  lemma BuffersCount(p: Params, g: Group)
    requires Layout(p, g)
    ensures |Buffers(p, g)| == |Places(p, g)|
  {
  }

  // ---------- Draining ----------

  datatype DrainResult = DrainResult(group: Group, blocked: bool)

  /** Reads of the given sizes, up to and including the first that would block. */
  function Drain(p: Params, mem: seq<byte>, g: Group, wants: seq<nat>): Outcome<DrainResult>
    requires Sized(g.ring, p.k)
    decreases |wants|
  {
    if wants == [] then Ok(DrainResult(g, false))
    else if VecRead(mem, g.queue, wants[0]) == Ok(WouldBlock) then Ok(DrainResult(g, true))
    else
      match Read(p, mem, g, wants[0])
      case Panic(site) => Panic(site)
      case Ok(g') => if Sized(g'.ring, p.k) then Drain(p, mem, g', wants[1..]) else Panic(RingPointerMissing)
  }

  function Waited(mem: seq<byte>, g: Group): seq<byte> { Content(mem, QueueChunks(g.queue)) }

  /** What one read into a non-empty slice does to a non-empty queue. */
  lemma {:induction false} ReadProgress(p: Params, mem: seq<byte>, g: Group, want: nat)
    requires Inv(p, mem, g) && g.queue != [] && want > 0
    ensures Read(p, mem, g, want).Ok?
    ensures var g' := Read(p, mem, g, want).value;
      && Inv(p, mem, g')
      && |Waited(mem, g')| < |Waited(mem, g)|
      && g'.delivered + Waited(mem, g') == g.delivered + Waited(mem, g)
      && g'.returned + |g'.queue| == g.returned + |g.queue|
      && g'.posted == g.posted && g'.received == g.received && g'.taken == g.taken
  {
    ReadKeeps(p, mem, g, want);
    QueueFrontInMemory(p, mem, g);
    VecReadIsFifo(mem, g.queue, want);
    var r := VecRead(mem, g.queue, want).value;
    var g' := Read(p, mem, g, want).value;
    assert g'.queue == r.queue && g'.delivered == g.delivered + r.bytes;
    Regroup(g.delivered, r.bytes, Waited(mem, g'));
  }

  /** With no more completions, reading until it blocks takes at most one read per queued byte,
      returns every queued byte in order and hands every queued buffer back. */
  lemma {:induction false} DrainDeliversAll(p: Params, mem: seq<byte>, g: Group, wants: seq<nat>)
    requires Inv(p, mem, g)
    requires forall i :: 0 <= i < |wants| ==> wants[i] > 0
    requires |wants| > |Waited(mem, g)|
    ensures Drain(p, mem, g, wants).Ok?
    ensures var r := Drain(p, mem, g, wants).value;
      && r.blocked
      && Inv(p, mem, r.group)
      && r.group.queue == []
      && r.group.delivered == g.delivered + Waited(mem, g)
      && r.group.returned == g.returned + |g.queue|
      && r.group.posted == g.posted
    decreases |wants|
  {
    if g.queue == [] {
      assert Waited(mem, g) == [];
    } else {
      ReadProgress(p, mem, g, wants[0]);
      QueueFrontInMemory(p, mem, g);
      VecReadIsFifo(mem, g.queue, wants[0]);
      var g' := Read(p, mem, g, wants[0]).value;
      DrainDeliversAll(p, mem, g', wants[1..]);
    }
  }
}
