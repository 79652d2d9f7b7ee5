/** The whole system: every stream with its buffer group, the shared submission and completion
    rings, the heap of payloads in flight, and a kernel that acts between any two user steps. */
module Systems {
  import opened Bits
  import opened Outcomes
  import opened BufRings
  import opened Readers
  import opened Submission
  import opened Streams
  import UserData
  import Groups

  /** 2^k buffers of `size` bytes in every group, 2^j submission entries. */
  datatype Config = Config(k: nat, size: nat, j: nat)

  predicate ConfigOk(cfg: Config) { cfg.k <= 15 && 0 < cfg.size < 0x8000_0000 && cfg.j <= 31 }

  /** A buffer ring, the kernel's index into it, and the address of its allocation. */
  datatype GroupRing = GroupRing(ring: Ring, head: nat, base: nat)

  /** What has happened to stream g and its group so far; the program keeps none of it. */
  datatype History = History(delivered: seq<byte>, taken: nat, returned: nat, issued: nat, numbers: map<nat, nat>)

  /** Bytes sent, or to be sent, on a socket. */
  datatype Message = Message(fd: nat, bytes: seq<byte>)

  datatype System = System(
    mem: seq<byte>,                  // the memory buffers live in
    groups: seq<GroupRing>,          // group g belongs to stream g
    streams: seq<Stream>,
    sq: Sq,
    armed: seq<Sqe>,                 // multishot receives the kernel has accepted
    sends: seq<Sqe>,                 // sends the kernel has accepted and not completed
    cq: seq<Cqe>,                    // completions posted and not handled, oldest first
    heap: map<nat, seq<byte>>,       // live payload allocations
    received: map<nat, seq<byte>>,   // by socket: bytes the kernel has received
    hist: seq<History>,
    written: seq<Message>,           // every message passed to write, in order
    accepted: seq<Message>,          // the messages of the sends the kernel has consumed, in order
    wire: multiset<Message>)         // every message the kernel has transmitted

  datatype Step =
    | KernelReceive(a: nat, data: seq<byte>, extra: nat)
    | KernelConsume
    | KernelCompleteSend(i: nat, flags: nat)
    | SubmitAll
    | Dispatch
    | StreamRead(g: nat, want: nat)
    | StreamWrite(g: nat, ptr: nat, bytes: seq<byte>)

  // ---------- Steps ----------

  /** The pool's 256 ring pointers: group g's ring at index g, the rest null. */
  function Rings(groups: seq<GroupRing>): (r: seq<Option<Ring>>)
    ensures |r| == MAX_BUFFER_GROUP
    ensures forall i :: 0 <= i < |r| ==> r[i] == if i < |groups| then Some(groups[i].ring) else None
  {
    seq(MAX_BUFFER_GROUP, i requires 0 <= i => if i < |groups| then Some(groups[i].ring) else None)
  }

  predicate WellSized(cfg: Config, s: System) {
    && ConfigOk(cfg)
    && |s.groups| == |s.streams| == |s.hist| <= MAX_BUFFER_GROUP
    && (forall g :: 0 <= g < |s.groups| ==> BufRings.Sized(s.groups[g].ring, cfg.k))
    && (forall g :: 0 <= g < |s.streams| ==> s.streams[g].owner == g && s.streams[g].sendId < U32)
    && Submission.Valid(s.sq, cfg.j)
  }

  function NextSlot(grp: GroupRing): Slot
    requires |grp.ring.slots| > 0
  {
    grp.ring.slots[Mod(grp.head, |grp.ring.slots|)]
  }

  /** What the environment is assumed to do: the kernel receives only when a buffer is available, at
      most a buffer's worth; it reports a buffer only for entries that selected one; sends complete
      in full; the allocator returns fresh addresses. The handler reads into non-empty slices,
      writes non-empty payloads below 2 GiB when the submission ring has room, and no send stays
      pending for 2^32 later writes of its stream. */
  predicate Enabled(cfg: Config, s: System, step: Step) {
    && WellSized(cfg, s)
    && match step
       case KernelReceive(a, data, extra) =>
         && a < |s.armed| && s.armed[a].bufIndex < |s.groups|
         && s.groups[s.armed[a].bufIndex].head != s.groups[s.armed[a].bufIndex].ring.tail
         && 0 < |data| <= NextSlot(s.groups[s.armed[a].bufIndex]).len
         && extra < U16 && Bit(extra, 0) && !Bit(extra, 4)
       case KernelConsume => CanConsume(s.sq)
       case KernelCompleteSend(i, flags) =>
         && i < |s.sends|
         && And(flags, F_BUF_MORE) == 0
         && (And(flags, F_BUFFER) != 0 ==> And(s.sends[i].flags, BUFFER_SELECT) != 0)
       case SubmitAll => true
       case Dispatch => s.cq != []
       case StreamRead(g, want) => g < |s.streams| && 0 < want
       case StreamWrite(g, ptr, bytes) =>
         && g < |s.streams|
         && 0 < |bytes| < 0x8000_0000
         && Unconsumed(s.sq) < |s.sq.sqes|
         && ptr !in s.heap
         && YoungPending(s.streams[g], s.hist[g])
  }

  /** No pending send of the stream is 2^32 or more writes old. */
  predicate YoungPending(st: Stream, h: History) {
    forall key :: key in st.pending && key in h.numbers ==> h.issued < h.numbers[key] + U32
  }

  function ReceivedOn(received: map<nat, seq<byte>>, fd: nat): seq<byte> {
    if fd in received then received[fd] else []
  }

  /** The payload bytes a send entry names, read from the heap as the kernel does. */
  function HeapBytes(heap: map<nat, seq<byte>>, e: Sqe): Option<seq<byte>> {
    if e.addr in heap && e.len <= |heap[e.addr]| then Some(heap[e.addr][..e.len]) else None
  }

  /** The message a send entry stands for. */
  function MessageOf(heap: map<nat, seq<byte>>, e: Sqe): Message {
    Message(e.fd, if HeapBytes(heap, e).Some? then HeapBytes(heap, e).value else [])
  }

  function Receive(cfg: Config, s: System, e: Sqe, data: seq<byte>, extra: nat): Outcome<System>
    requires WellSized(cfg, s) && e.bufIndex < |s.groups|
  {
    var g := e.bufIndex;
    var slot := NextSlot(s.groups[g]);
    if slot.addr + |data| > |s.mem| then Panic(KernelOutsideMemory)
    else Ok(s.(mem := Overwrite(s.mem, slot.addr, data),
               groups := s.groups[g := s.groups[g].(head := (s.groups[g].head + 1) % 0x1_0000)],
               cq := s.cq + [Cqe(e.userData, |data|, slot.bid * 0x1_0000 + extra)],
               received := s.received[e.fd := ReceivedOn(s.received, e.fd) + data],
               hist := s.hist[g := s.hist[g].(taken := s.hist[g].taken + 1)]))
  }

  function ConsumeEntry(s: System): Outcome<System>
    requires |s.sq.sqes| > 0
  {
    var (q', e) := Consume(s.sq);
    if e.opcode == OP_RECV && e.ioprio == RECV_MULTISHOT && And(e.flags, BUFFER_SELECT) != 0 then
      Ok(s.(sq := q', armed := s.armed + [e]))
    else if e.opcode == OP_SEND then
      Ok(s.(sq := q', sends := s.sends + [e], accepted := s.accepted + [MessageOf(s.heap, e)]))
    else Panic(KernelUnknownEntry)
  }

  function CompleteSend(s: System, i: nat, flags: nat): Outcome<System>
    requires i < |s.sends|
  {
    var e := s.sends[i];
    match HeapBytes(s.heap, e)
    case None => Panic(KernelReadsFreedPayload)
    case Some(bytes) =>
      Ok(s.(sends := s.sends[..i] + s.sends[i + 1..],
            cq := s.cq + [Cqe(e.userData, I32(e.len), flags)],
            wire := s.wire + multiset{Message(e.fd, bytes)}))
  }

  /** The event loop's handling of one completion. A send's payload is freed when its pending entry
      goes. */
  function DispatchFront(s: System): Outcome<System>
    requires s.cq != []
  {
    var cqe := s.cq[0];
    var g := UserData.OwnerOf(cqe.userData);
    match FromRawEvent(Rings(s.groups), cqe)
    case Panic(site) => Panic(site)
    case Ok(completion) =>
      if g >= |s.streams| then Panic(StreamMissing)
      else
        match OnCompletion(s.streams[g], completion)
        case Panic(site) => Panic(site)
        case Ok(st) =>
          Ok(s.(cq := s.cq[1..], streams := s.streams[g := st],
                heap := if cqe.userData in s.streams[g].pending && cqe.userData !in st.pending
                        then s.heap - {s.streams[g].pending[cqe.userData].ptr} else s.heap))
  }

  /** A drained buffer goes back to the group it carries. */
  function GiveBack(cfg: Config, s: System, drained: Option<KernelBuffer>): Outcome<System>
    requires WellSized(cfg, s)
  {
    match drained
    case None => Ok(s)
    case Some(b) =>
      if b.bgid >= |s.groups| then Panic(RingPointerMissing)
      else
        var grp := s.groups[b.bgid];
        Ok(s.(groups := s.groups[b.bgid := grp.(ring := Return(grp.ring, cfg.k, b))],
              hist := s.hist[b.bgid := s.hist[b.bgid].(returned := s.hist[b.bgid].returned + 1)]))
  }

  function ReadFrom(cfg: Config, s: System, g: nat, want: nat): Outcome<System>
    requires WellSized(cfg, s) && g < |s.streams|
  {
    match VecRead(s.mem, s.streams[g].queue, want)
    case Panic(site) => Panic(site)
    case Ok(WouldBlock) => Ok(s)
    case Ok(Got(bytes, queue, drained)) =>
      GiveBack(cfg, s.(streams := s.streams[g := s.streams[g].(queue := queue)],
                       hist := s.hist[g := s.hist[g].(delivered := s.hist[g].delivered + bytes)]), drained)
  }

  /** The system once stream g's write has become `st'` and `q'`: the payload is allocated, and a
      payload filed under the same key before is freed. */
  function Written(s: System, g: nat, key: nat, ptr: nat, bytes: seq<byte>, st': Stream, q': Sq): System
    requires g < |s.streams| == |s.hist|
  {
    var st, h := s.streams[g], s.hist[g];
    var kept := if key in st.pending then s.heap - {st.pending[key].ptr} else s.heap;
    s.(streams := s.streams[g := st'], sq := q', heap := kept[ptr := bytes],
       written := s.written + [Message(st.fd, bytes)],
       hist := s.hist[g := h.(issued := h.issued + 1, numbers := h.numbers[key := h.issued])])
  }

  function WriteTo(cfg: Config, s: System, g: nat, ptr: nat, bytes: seq<byte>): Outcome<System>
    requires WellSized(cfg, s) && g < |s.streams|
  {
    match Write(s.streams[g], s.sq, ptr, bytes)
    case Panic(site) => Panic(site)
    case Ok((st', q')) => Ok(Written(s, g, SendKey(s.streams[g]), ptr, bytes, st', q'))
  }

  function Apply(cfg: Config, s: System, step: Step): Outcome<System>
    requires Enabled(cfg, s, step)
  {
    match step
    case KernelReceive(a, data, extra) => Receive(cfg, s, s.armed[a], data, extra)
    case KernelConsume => ConsumeEntry(s)
    case KernelCompleteSend(i, flags) => CompleteSend(s, i, flags)
    case SubmitAll => Ok(s.(sq := Submit(s.sq)))
    case Dispatch => DispatchFront(s)
    case StreamRead(g, want) => ReadFrom(cfg, s, g, want)
    case StreamWrite(g, ptr, bytes) => WriteTo(cfg, s, g, ptr, bytes)
  }

  // ---------- The receiving side, group by group ----------

  predicate IsRecvFor(cqe: Cqe, g: nat) {
    UserData.EventOf(cqe.userData) == UserData.MULTISHOT_RECV && UserData.OwnerOf(cqe.userData) == g
  }

  function AsPosted(cqe: Cqe): Groups.Posted {
    Groups.Posted(BufferIdOf(cqe.flags), if cqe.res >= 0 then cqe.res else 0)
  }

  /** The receive completions waiting for stream g, oldest first. */
  function PostedFor(cq: seq<Cqe>, g: nat): seq<Groups.Posted>
    decreases |cq|
  {
    if cq == [] then []
    else (if IsRecvFor(cq[0], g) then [AsPosted(cq[0])] else []) + PostedFor(cq[1..], g)
  }

  function GroupParams(cfg: Config, groups: seq<GroupRing>, g: nat): Groups.Params
    requires g < |groups|
  {
    Groups.Params(cfg.k, groups[g].base, cfg.size, g)
  }

  /** Group g and its stream, as the single-group model sees them. */
  function View(s: System, g: nat): Groups.Group
    requires g < |s.groups| == |s.streams| == |s.hist|
  {
    Groups.Group(s.groups[g].ring, s.groups[g].head, s.streams[g].queue, PostedFor(s.cq, g),
                 ReceivedOn(s.received, s.streams[g].fd), s.hist[g].delivered,
                 s.hist[g].taken, s.hist[g].returned)
  }

  predicate GroupInv(cfg: Config, s: System, g: nat)
    requires g < |s.groups| == |s.streams| == |s.hist|
  {
    Groups.Inv(GroupParams(cfg, s.groups, g), s.mem, View(s, g))
  }

  /** Allocations of different groups do not overlap. */
  predicate Apart(cfg: Config, groups: seq<GroupRing>) {
    forall g, h :: 0 <= g < h < |groups| ==>
      || Groups.End(GroupParams(cfg, groups, g)) <= groups[h].base
      || Groups.End(GroupParams(cfg, groups, h)) <= groups[g].base
  }

  predicate RecvInv(cfg: Config, s: System) {
    && WellSized(cfg, s)
    && (forall g :: 0 <= g < |s.groups| ==> GroupInv(cfg, s, g))
    && Apart(cfg, s.groups)
  }

  // ---------- Streams, entries and completions ----------

  predicate StreamsInv(cfg: Config, streams: seq<Stream>, hist: seq<History>)
    requires |streams| == |hist|
  {
    && (forall g :: 0 <= g < |streams| ==>
          && streams[g].owner == g && streams[g].recvId < U32
          && streams[g].capacity == Pow2(cfg.k)
          && streams[g].sendId == IdOfIssue(hist[g].issued))
    && (forall g, h :: 0 <= g < h < |streams| ==> streams[g].fd != streams[h].fd)
  }

  /** The payload waiting under a key, found through the key's own owner bits. */
  function PendingUnder(streams: seq<Stream>, key: nat): Option<Payload> {
    var g := UserData.OwnerOf(key);
    if g < |streams| && key in streams[g].pending then Some(streams[g].pending[key]) else None
  }

  predicate SendEntryOk(streams: seq<Stream>, e: Sqe) {
    var g := UserData.OwnerOf(e.userData);
    var p := PendingUnder(streams, e.userData);
    && p.Some?
    && UserData.EventOf(e.userData) == UserData.SEND
    && e == Intended(Submission.Send(streams[g].fd, p.value.ptr, |p.value.bytes|, MSG_WAITALL, e.userData))
  }

  predicate RecvEntryOk(streams: seq<Stream>, e: Sqe) {
    && e.bufIndex < |streams| <= 256
    && streams[e.bufIndex].recvId < U32
    && e == Intended(Recv(streams[e.bufIndex].fd, 0, e.bufIndex,
                          UserData.Pack(UserData.MULTISHOT_RECV, e.bufIndex, streams[e.bufIndex].recvId)))
  }

  predicate EntriesOk(streams: seq<Stream>, es: seq<Sqe>) {
    forall i :: 0 <= i < |es| ==> SendEntryOk(streams, es[i]) || RecvEntryOk(streams, es[i])
  }

  predicate CqeOk(streams: seq<Stream>, c: Cqe) {
    var g := UserData.OwnerOf(c.userData);
    && g < |streams|
    && c.res > 0
    && And(c.flags, F_BUF_MORE) == 0
    && (|| (&& UserData.EventOf(c.userData) == UserData.MULTISHOT_RECV
            && UserData.ReqOf(c.userData) == streams[g].recvId
            && And(c.flags, F_BUFFER) != 0)
        || (&& UserData.EventOf(c.userData) == UserData.SEND
            && c.userData in streams[g].pending
            && c.res == |streams[g].pending[c.userData].bytes|
            && And(c.flags, F_BUFFER) == 0))
  }

  predicate RouteInv(s: System)
    requires |s.sq.sqes| > 0
  {
    && EntriesOk(s.streams, Fifo(s.sq))
    && (forall i :: 0 <= i < |s.armed| ==> RecvEntryOk(s.streams, s.armed[i]))
    && (forall i :: 0 <= i < |s.sends| ==> SendEntryOk(s.streams, s.sends[i]))
    && (forall i :: 0 <= i < |s.cq| ==> CqeOk(s.streams, s.cq[i]))
    && (forall i :: 0 <= i < |s.sq.sqes| ==> s.sq.sqes[i].off == 0)
  }

  // ---------- Sends in flight ----------

  /** The keys of the sends among some entries. */
  function EntryKeys(es: seq<Sqe>): multiset<nat>
    decreases |es|
  {
    if es == [] then multiset{}
    else (if es[0].opcode == OP_SEND then multiset{es[0].userData} else multiset{}) + EntryKeys(es[1..])
  }

  function CompletionKeys(cq: seq<Cqe>): multiset<nat>
    decreases |cq|
  {
    if cq == [] then multiset{}
    else (if UserData.EventOf(cq[0].userData) == UserData.SEND then multiset{cq[0].userData} else multiset{})
         + CompletionKeys(cq[1..])
  }

  /** One token per send: in the submission ring, in the kernel, or completed and not handled. */
  function Tokens(s: System): multiset<nat>
    requires |s.sq.sqes| > 0
  {
    EntryKeys(Fifo(s.sq)) + EntryKeys(s.sends) + CompletionKeys(s.cq)
  }

  /** Every pending payload has exactly one token, and every token a pending payload. */
  ghost predicate TokenInv(s: System)
    requires |s.sq.sqes| > 0
  {
    forall key: nat :: Tokens(s)[key] == if PendingUnder(s.streams, key).Some? then 1 else 0
  }

  /** A pending payload is in memory and filed under its own stream. */
  predicate AliveAt(heap: map<nat, seq<byte>>, g: nat, key: nat, p: Payload) {
    && UserData.OwnerOf(key) == g && UserData.EventOf(key) == UserData.SEND
    && p.ptr in heap && heap[p.ptr] == p.bytes
    && 0 < |p.bytes| < 0x8000_0000
  }

  predicate Alive(streams: seq<Stream>, heap: map<nat, seq<byte>>) {
    forall g, key :: 0 <= g < |streams| && key in streams[g].pending ==> AliveAt(heap, g, key, streams[g].pending[key])
  }

  /** Each pending payload has an allocation of its own. */
  ghost predicate OwnPointers(streams: seq<Stream>) {
    forall a: nat, b: nat | a != b && PendingUnder(streams, a).Some? && PendingUnder(streams, b).Some? ::
      PendingUnder(streams, a).value.ptr != PendingUnder(streams, b).value.ptr
  }

  ghost predicate HeapInv(streams: seq<Stream>, heap: map<nat, seq<byte>>) {
    Alive(streams, heap) && OwnPointers(streams)
  }

  /** Every pending send knows which write of its stream it was. */
  predicate NumberInv(streams: seq<Stream>, hist: seq<History>)
    requires |streams| == |hist|
  {
    forall g, key :: 0 <= g < |streams| <= 256 && key in streams[g].pending ==>
      && key in hist[g].numbers
      && hist[g].numbers[key] < hist[g].issued
      && key == KeyOfIssue(g, hist[g].numbers[key])
  }

  /** The messages of the sends among some entries, in order, as the kernel would read them. */
  function Flights(heap: map<nat, seq<byte>>, es: seq<Sqe>): seq<Message>
    decreases |es|
  {
    if es == [] then []
    else (if es[0].opcode == OP_SEND then [MessageOf(heap, es[0])] else []) + Flights(heap, es[1..])
  }

  /** What was written is, in order, what the kernel has consumed and then what waits in the
      submission ring; and what it has consumed is what it has transmitted plus what it still
      holds. */
  ghost predicate Ledger(s: System)
    requires |s.sq.sqes| > 0
  {
    && s.accepted + Flights(s.heap, Fifo(s.sq)) == s.written
    && multiset(s.accepted) == s.wire + multiset(Flights(s.heap, s.sends))
  }

  ghost predicate SendInv(cfg: Config, s: System)
    requires |s.streams| == |s.hist| && |s.sq.sqes| > 0
  {
    && TokenInv(s)
    && HeapInv(s.streams, s.heap)
    && NumberInv(s.streams, s.hist)
    && Ledger(s)
  }

  ghost predicate Inv(cfg: Config, s: System) {
    && RecvInv(cfg, s)
    && StreamsInv(cfg, s.streams, s.hist)
    && RouteInv(s)
    && SendInv(cfg, s)
  }

  /** A step that does not abort and keeps the invariant. */
  ghost predicate Kept(cfg: Config, r: Outcome<System>) { r.Ok? && Inv(cfg, r.value) }
}
