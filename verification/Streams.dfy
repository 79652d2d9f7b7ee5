/** A stream: what a completion does to it, and what its reads and writes do. */
module Streams {
  import opened Bits
  import opened Outcomes
  import opened BufRings
  import opened Readers
  import opened Submission
  import UserData

  /** A completion entry as the kernel posts it: `res` is signed, the buffer id sits in the upper
      half of `flags`. */
  datatype Cqe = Cqe(userData: nat, res: int, flags: nat)

  const F_BUFFER: nat := 1
  const F_BUF_MORE: nat := 16

  datatype Completion = Completion(cqe: Cqe, kernelBuf: Option<KernelBuffer>)

  /** A copy of written bytes, alive at address `ptr` until its send completes. */
  datatype Payload = Payload(ptr: nat, bytes: seq<byte>)

  datatype Stream = Stream(
    owner: nat, recvId: nat, fd: nat, queue: seq<Reader>, capacity: nat, sendId: nat,
    pending: map<nat, Payload>)

  const FIRST_SEND_ID: nat := 1000
  const MAX_BUFFER_GROUP: nat := 256

  function NewStream(owner: nat, recvId: nat, fd: nat, poolSize: nat): Stream {
    Stream(owner, recvId, fd, [], poolSize, FIRST_SEND_ID, map[])
  }

  function BufferIdOf(flags: nat): nat { Shr(flags, 16) % 0x1_0000 }

  // ---------- Completions ----------

  /** Decode a completion and take its buffer from the group named by the owner bits. */
  function FromRawEvent(pool: seq<Option<Ring>>, cqe: Cqe): Outcome<Completion> {
    if cqe.res < 0 then Panic(CompletionError)
    else if And(cqe.flags, F_BUF_MORE) != 0 then Panic(PartialBuffer)
    else if And(cqe.flags, F_BUFFER) != 0 then
      var bgid := UserData.OwnerOf(cqe.userData);
      if cqe.res == 0 then Panic(EmptyData)
      else if bgid >= |pool| || pool[bgid].None? then Panic(RingPointerMissing)
      else
        match GetReadBuf(pool[bgid].value, bgid, BufferIdOf(cqe.flags), cqe.res)
        case Panic(site) => Panic(site)
        case Ok(buf) => Ok(Completion(cqe, Some(buf)))
    else Ok(Completion(cqe, None))
  }

  /** The capacity a full double-ended queue grows to. */
  function Grown(capacity: nat): nat {
    if 2 * capacity < 4 then 4 else 2 * capacity
  }

  /** Queue a buffer; a full queue reallocates, which the program means never to happen. */
  function Push(st: Stream, buf: KernelBuffer): Stream {
    st.(queue := st.queue + [Reader(buf, 0)],
        capacity := if |st.queue| >= st.capacity then Grown(st.capacity) else st.capacity)
  }

  /** Handle a completion; dropping it afterwards aborts if it still owns a buffer. */
  function OnCompletion(st: Stream, c: Completion): Outcome<Stream> {
    var data := c.cqe.userData;
    if UserData.OwnerOf(data) != st.owner then Panic(OwnerMismatch)
    else
      match UserData.EventFromU8(UserData.EventOf(data))
      case Unknown => Panic(UnknownEvent)
      case Known(Send) =>
        if c.cqe.res == 0 then Panic(ZeroResult)
        else if data !in st.pending then Panic(NoPendingSend)
        else if |st.pending[data].bytes| != c.cqe.res then Panic(ShortSend)
        else if c.kernelBuf.Some? then Panic(BufferNotConsumed)
        else Ok(st.(pending := st.pending - {data}))
      case Known(MultishotRecv) =>
        if UserData.ReqOf(data) != st.recvId then Panic(RequestMismatch)
        else if c.cqe.res == 0 then Panic(ZeroResult)
        else if And(c.cqe.flags, F_BUFFER) == 0 then Panic(NoBufferFlag)
        else
          match c.kernelBuf
          case None => Panic(NothingToTake)
          case Some(buf) => Ok(Push(st, buf))
  }

  /** Which raw completions decode: no error, no partly used buffer, and, when one was selected, data
      in it and a ring whose lookup by the id in the flags succeeds. */
  lemma {:induction false} FromRawEventIff(pool: seq<Option<Ring>>, cqe: Cqe)
    ensures FromRawEvent(pool, cqe).Ok? <==>
      && cqe.res >= 0
      && And(cqe.flags, F_BUF_MORE) == 0
      && (And(cqe.flags, F_BUFFER) != 0 ==>
            var g := UserData.OwnerOf(cqe.userData);
            && cqe.res > 0 && g < |pool| && pool[g].Some?
            && GetReadBuf(pool[g].value, g, BufferIdOf(cqe.flags), cqe.res).Ok?)
    ensures FromRawEvent(pool, cqe).Ok? ==>
      var c, g := FromRawEvent(pool, cqe).value, UserData.OwnerOf(cqe.userData);
      && c.cqe == cqe
      && (c.kernelBuf.Some? <==> And(cqe.flags, F_BUFFER) != 0)
      && (c.kernelBuf.Some? ==>
            GetReadBuf(pool[g].value, g, BufferIdOf(cqe.flags), cqe.res) == Ok(c.kernelBuf.value))
  {
    hide UserData.OwnerOf, And, BufferIdOf, GetReadBuf;
  }

  /** What a stream accepts as a receive, as a send, and nothing else. */
  predicate AcceptsRecv(st: Stream, c: Completion) {
    && UserData.OwnerOf(c.cqe.userData) == st.owner && UserData.ReqOf(c.cqe.userData) == st.recvId
    && c.cqe.res != 0 && And(c.cqe.flags, F_BUFFER) != 0 && c.kernelBuf.Some?
  }

  predicate AcceptsSend(st: Stream, c: Completion) {
    && UserData.OwnerOf(c.cqe.userData) == st.owner
    && c.cqe.userData in st.pending && |st.pending[c.cqe.userData].bytes| == c.cqe.res != 0
    && c.kernelBuf.None?
  }

  /** Exactly which completions a stream handles without aborting, and what it then holds: a receive
      queues its buffer, unclaimed and last; a send gives up its payload and no other. */
  lemma {:induction false} OnCompletionIff(st: Stream, c: Completion)
    ensures UserData.EventOf(c.cqe.userData) == UserData.MULTISHOT_RECV ==>
      && (OnCompletion(st, c).Ok? <==> AcceptsRecv(st, c))
      && (OnCompletion(st, c).Ok? ==>
            OnCompletion(st, c).value == st.(
              queue := st.queue + [Reader(c.kernelBuf.value, 0)], capacity := OnCompletion(st, c).value.capacity))
      && (OnCompletion(st, c).Ok? && |st.queue| < st.capacity ==> OnCompletion(st, c).value.capacity == st.capacity)
      && (OnCompletion(st, c).Ok? && |st.queue| <= st.capacity ==>
            |OnCompletion(st, c).value.queue| <= OnCompletion(st, c).value.capacity)
    ensures UserData.EventOf(c.cqe.userData) == UserData.SEND ==>
      && (OnCompletion(st, c).Ok? <==> AcceptsSend(st, c))
      && (OnCompletion(st, c).Ok? ==> OnCompletion(st, c).value == st.(pending := st.pending - {c.cqe.userData}))
    ensures UserData.EventOf(c.cqe.userData) !in [UserData.SEND, UserData.MULTISHOT_RECV] ==> OnCompletion(st, c).Panic?
  {
    hide UserData.OwnerOf, UserData.EventOf, UserData.ReqOf, And;
  }

  // ---------- Writes ----------

  function SendKey(st: Stream): nat
    requires st.owner < U16 && st.sendId < U32
  {
    UserData.Pack(UserData.SEND, st.owner, st.sendId)
  }

  /** Copy the bytes to a fresh allocation at `ptr`, prepare a send of them and remember them. */
  function Write(st: Stream, q: Sq, ptr: nat, bytes: seq<byte>): Outcome<(Stream, Sq)>
    requires st.owner < U16 && st.sendId < U32 && |q.sqes| > 0
  {
    if bytes == [] then Panic(EmptyWrite)
    else
      match Prepare(q, Submission.Send(st.fd, ptr, |bytes|, MSG_WAITALL, SendKey(st)))
      case Panic(site) => Panic(site)
      case Ok(q') =>
        Ok((st.(sendId := (st.sendId + 1) % 0x1_0000_0000,
                pending := st.pending[SendKey(st) := Payload(ptr, bytes)]), q'))
  }

  /** A write aborts exactly when it is given nothing to send or the submission ring is full. */
  lemma {:induction false} WritePanicsIff(st: Stream, q: Sq, j: nat, ptr: nat, bytes: seq<byte>)
    requires st.owner < U16 && st.sendId < U32 && Valid(q, j)
    ensures Write(st, q, ptr, bytes).Panic? <==> bytes == [] || Unconsumed(q) == |q.sqes|
  {
    PrepareValue(q, j, Submission.Send(st.fd, ptr, |bytes|, MSG_WAITALL, SendKey(st)));
  }

  // ---------- Full completions ----------

  /** The signed 32-bit reading of a word's low half, as a completion carries its result. */
  function I32(x: nat): (i: int)
    ensures -0x8000_0000 <= i < 0x8000_0000 && (i - x) % 0x1_0000_0000 == 0
  {
    var low := x % 0x1_0000_0000;
    if low < 0x8000_0000 then low else low - 0x1_0000_0000
  }

  /** Decode a raw completion and let the stream handle it. */
  function Handle(pool: seq<Option<Ring>>, st: Stream, cqe: Cqe): Outcome<Stream> {
    match FromRawEvent(pool, cqe)
    case Panic(site) => Panic(site)
    case Ok(c) => OnCompletion(st, c)
  }

  /** A send completion that reports the whole payload: no buffer, and the length as far as a signed
      32-bit result can carry it. */
  predicate ReportsAll(st: Stream, cqe: Cqe) {
    && UserData.OwnerOf(cqe.userData) == st.owner && UserData.EventOf(cqe.userData) == UserData.SEND
    && cqe.userData in st.pending && st.pending[cqe.userData].bytes != []
    && cqe.res == I32(|st.pending[cqe.userData].bytes|)
    && And(cqe.flags, F_BUFFER) == 0 && And(cqe.flags, F_BUF_MORE) == 0
  }

  /** A send of the whole payload is accepted exactly when the payload is below 2^31 bytes. Above
      that it aborts in one of three ways: the result reads as negative, as zero, or as too short. */
  lemma {:induction false} FullSendAcceptedIff(pool: seq<Option<Ring>>, st: Stream, cqe: Cqe)
    requires ReportsAll(st, cqe)
    ensures Handle(pool, st, cqe).Ok? <==> |st.pending[cqe.userData].bytes| < 0x8000_0000
    ensures var len := |st.pending[cqe.userData].bytes|; var low := len % 0x1_0000_0000;
      Handle(pool, st, cqe) ==
        if len < 0x8000_0000 then Ok(st.(pending := st.pending - {cqe.userData}))
        else if low >= 0x8000_0000 then Panic(CompletionError)
        else if low == 0 then Panic(ZeroResult)
        else Panic(ShortSend)
  {
    hide UserData.OwnerOf, UserData.EventOf, And;
  }

  /** Stream 0 with a single payload of `len` bytes pending under key 0. */
  function OnePending(len: nat): Stream {
    NewStream(0, 0, 0, 0).(pending := map[0 := Payload(0, seq(len, _ => 0))])
  }

  lemma OnePendingReports(len: nat)
    requires len > 0
    ensures ReportsAll(OnePending(len), Cqe(0, I32(len), 0))
  {
    hide UserData.OwnerOf, UserData.EventOf, UserData.Pack, I32, And;
    UserData.EventByDivision(0);
    UserData.OwnerByDivision(0);
    AndZero(F_BUFFER);
    AndZero(F_BUF_MORE);
  }

  /** The three ways, each at its shortest payload. */
  lemma {:induction false} FullSendRefused()
    ensures Handle([], OnePending(0x8000_0000), Cqe(0, I32(0x8000_0000), 0)) == Panic(CompletionError)
    ensures Handle([], OnePending(0x1_0000_0000), Cqe(0, I32(0x1_0000_0000), 0)) == Panic(ZeroResult)
    ensures Handle([], OnePending(0x1_0000_0001), Cqe(0, I32(0x1_0000_0001), 0)) == Panic(ShortSend)
  {
    hide Handle, ReportsAll, I32;
    FullSendRefusedAt(0x8000_0000);
    FullSendRefusedAt(0x1_0000_0000);
    FullSendRefusedAt(0x1_0000_0001);
  }

  lemma {:induction false} FullSendRefusedAt(len: nat)
    requires len >= 0x8000_0000
    ensures Handle([], OnePending(len), Cqe(0, I32(len), 0)) == Panic(
      if len % 0x1_0000_0000 >= 0x8000_0000 then CompletionError
      else if len % 0x1_0000_0000 == 0 then ZeroResult
      else ShortSend)
  {
    hide Handle, ReportsAll, I32;
    OnePendingReports(len);
    FullSendAcceptedIff([], OnePending(len), Cqe(0, I32(len), 0));
  }

  // ---------- Send ids ----------

  function IdOfIssue(issue: nat): nat { (FIRST_SEND_ID + issue) % 0x1_0000_0000 }

  /** The key of a stream's n-th write. */
  function KeyOfIssue(owner: nat, issue: nat): nat
    requires owner < U16
  {
    UserData.Pack(UserData.SEND, owner, IdOfIssue(issue))
  }

  /** Two writes of a stream share a key exactly when their numbers differ by a multiple of 2^32. */
  lemma {:induction false} KeysClashIff(owner: nat, a: nat, b: nat)
    requires owner < U16 && a <= b
    ensures KeyOfIssue(owner, a) == KeyOfIssue(owner, b) <==> (b - a) % 0x1_0000_0000 == 0
  {
    SameResidueIff(FIRST_SEND_ID + a, FIRST_SEND_ID + b);
    UserData.PackInjective(0, owner, IdOfIssue(a), 0, owner, IdOfIssue(b));
  }

  lemma SameResidueIff(x: nat, y: nat)
    requires x <= y
    ensures x % 0x1_0000_0000 == y % 0x1_0000_0000 <==> (y - x) % 0x1_0000_0000 == 0
  {
  }

  // ---------- Completion flags ----------

  /** The flags of a receive: buffer id in the upper half, `extra` in the lower. */
  lemma {:induction false} RecvFlags(bid: nat, extra: nat)
    requires bid < U16 && extra < U16
    ensures BufferIdOf(bid * 0x1_0000 + extra) == bid
    ensures And(bid * 0x1_0000 + extra, F_BUFFER) != 0 <==> Bit(extra, 0)
    ensures And(bid * 0x1_0000 + extra, F_BUF_MORE) != 0 <==> Bit(extra, 4)
  {
    Widths();
    var x := bid * 0x1_0000 + extra;
    AndBit(x, 0);
    assert Pow2(4) == 16;
    AndBit(x, 4);
    LowBits(bid, extra);
  }

  lemma LowBits(bid: nat, extra: nat)
    ensures Bit(bid * 0x1_0000 + extra, 0) == Bit(extra, 0)
    ensures Bit(bid * 0x1_0000 + extra, 4) == Bit(extra, 4)
  {
    var x := bid * 0x1_0000 + extra;
    QuotientBy16(bid, extra);
    BitFour(x);
    BitFour(extra);
  }

  lemma QuotientBy16(bid: nat, extra: nat)
    ensures (bid * 0x1_0000 + extra) / 16 % 2 == extra / 16 % 2
  {
    assert bid * 0x1_0000 + extra == 16 * (bid * 0x1000) + extra;
    assert (bid * 0x1_0000 + extra) / 16 == 2 * (bid * 0x800) + extra / 16;
  }

  lemma BitFour(x: nat)
    ensures Bit(x, 4) <==> x / 16 % 2 == 1
  {
    assert Bit(x, 4) == Bit(x / 2 / 2, 2);
    assert Bit(x / 2 / 2, 2) == Bit(x / 2 / 2 / 2 / 2, 0);
  }
}
