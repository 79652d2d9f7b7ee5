/** The submission ring, completions and streams as objects updated in place. */
module StreamObjects {
  import opened Bits
  import opened Outcomes
  import opened BufRings
  import opened Readers
  import opened Submission
  import opened ReaderObjects
  import Streams
  import UserData

  class SubmissionQueue {
    const j: nat
    const sqes: array<Sqe>
    var sqeTail: nat
    var ktail: nat
    var khead: nat

    predicate Valid()
      reads this
    {
      j <= 31 && sqes.Length == Pow2(j) && sqeTail < U32 && ktail < U32 && khead < U32
    }

    function Abs(): (q: Sq)
      reads this, sqes
      ensures |q.sqes| == sqes.Length
    {
      Sq(sqes[..], sqeTail, ktail, khead)
    }

    constructor (j: nat)
      requires j <= 31
      ensures Valid() && this.j == j && fresh(sqes)
      ensures sqeTail == ktail == khead == 0 && forall i :: 0 <= i < sqes.Length ==> sqes[i] == ZEROED
    {
      this.j := j;
      sqes := new Sqe[Pow2(j)](_ => ZEROED);
      sqeTail, ktail, khead := 0, 0, 0;
    }

    /** Reset the fields an entry starts from; address, length and offset are not among them. */
    method InitializeSqe(idx: nat)
      requires idx < sqes.Length
      modifies sqes
      ensures sqes[..] == old(sqes[..])[idx := Initialize(old(sqes[idx]))]
    {
      sqes[idx] := sqes[idx].(flags := 0);
      sqes[idx] := sqes[idx].(ioprio := 0);
      sqes[idx] := sqes[idx].(opFlags := 0);
      sqes[idx] := sqes[idx].(bufIndex := 0);
      sqes[idx] := sqes[idx].(personality := 0);
      sqes[idx] := sqes[idx].(fileIndex := 0);
      sqes[idx] := sqes[idx].(addr3 := 0);
      sqes[idx] := sqes[idx].(pad2 := 0);
    }

    /** Claim the next slot if the kernel has consumed enough; otherwise change nothing. */
    method GetSqe() returns (r: Option<nat>)
      requires Valid()
      modifies this`sqeTail, sqes
      ensures Valid()
      ensures match Submission.GetSqe(old(Abs()))
        case None => r == None && Abs() == old(Abs())
        case Some((q, idx)) => r == Some(idx) && Abs() == q
    {
      hide And, Mod, Initialize;
      var next := (sqeTail + 1) % 0x1_0000_0000;
      if (next - khead) % 0x1_0000_0000 <= sqes.Length {
        AndMask(sqeTail, j);
        var idx := And(sqeTail, sqes.Length - 1);
        sqeTail := next;
        InitializeSqe(idx);
        return Some(idx);
      }
      return None;
    }

    /** `op::send` on a claimed slot. */
    method FillSend(idx: nat, fd: nat, ptr: nat, len: nat, flags: nat)
      requires idx < sqes.Length
      modifies sqes
      ensures sqes[..] == old(sqes[..])[idx := Submission.FillSend(old(sqes[idx]), fd, ptr, len, flags)]
    {
      sqes[idx] := sqes[idx].(opcode := OP_SEND);
      sqes[idx] := sqes[idx].(fd := fd);
      sqes[idx] := sqes[idx].(addr := ptr);
      sqes[idx] := sqes[idx].(opFlags := flags);
      sqes[idx] := sqes[idx].(len := len);
    }

    /** `op::multishot_recv` on a claimed slot. */
    method FillRecv(idx: nat, fd: nat, flags: nat, group: nat) returns (r: Outcome<()>)
      requires idx < sqes.Length
      modifies sqes
      ensures r.Ok? <==> And(flags, MSG_WAITALL) == 0
      ensures r.Ok? ==> sqes[..] == old(sqes[..])[idx := Submission.FillRecv(old(sqes[idx]), fd, flags, group)]
      ensures r.Panic? ==> sqes[..] == old(sqes[..])
    {
      if And(flags, MSG_WAITALL) != 0 { return Panic(WaitAllOnMultishot); }
      sqes[idx] := sqes[idx].(opcode := OP_RECV);
      sqes[idx] := sqes[idx].(fd := fd);
      sqes[idx] := sqes[idx].(opFlags := flags);
      sqes[idx] := sqes[idx].(ioprio := RECV_MULTISHOT);
      sqes[idx] := sqes[idx].(bufIndex := group);
      sqes[idx] := sqes[idx].(flags := Or(sqes[idx].flags, BUFFER_SELECT));
      return Ok(());
    }

    method SetData(idx: nat, data: nat)
      requires idx < sqes.Length
      modifies sqes
      ensures sqes[..] == old(sqes[..])[idx := old(sqes[idx]).(userData := data)]
      ensures Abs() == old(Abs()).(sqes := old(Abs()).sqes[idx := old(Abs()).sqes[idx].(userData := data)])
    {
      sqes[idx] := sqes[idx].(userData := data);
    }

    /** `Ring::_prep_send`: the length is cut to 32 bits. */
    method PrepSend(fd: nat, ptr: nat, len: nat, flags: nat) returns (r: Outcome<nat>)
      requires Valid()
      modifies this`sqeTail, sqes
      ensures Valid()
      ensures match Submission.GetSqe(old(Abs()))
        case None => r == Panic(SubmissionQueueFull) && Abs() == old(Abs())
        case Some((q, idx)) =>
          var e := Submission.FillSend(q.sqes[idx], fd, ptr, len % 0x1_0000_0000, flags);
          r == Ok(idx) && Abs() == q.(sqes := q.sqes[idx := e])
    {
      var slot := GetSqe();
      if slot.None? { return Panic(SubmissionQueueFull); }
      FillSend(slot.value, fd, ptr, len % 0x1_0000_0000, flags);
      return Ok(slot.value);
    }

    /** The setup loop's preparation of a stream's multishot receive. */
    method PrepRecv(fd: nat, group: nat, data: nat) returns (r: Outcome<()>)
      requires Valid()
      modifies this`sqeTail, sqes
      ensures Valid()
      ensures match Prepare(old(Abs()), Recv(fd, 0, group, data))
        case Panic(site) => r == Panic(site)
        case Ok(q) => r.Ok? && Abs() == q
    {
      hide And, Mod, Or;
      var slot := GetSqe();
      if slot.None? { return Panic(SubmissionQueueFull); }
      SetData(slot.value, data);
      assert And(0, MSG_WAITALL) == 0 by { AndZero(MSG_WAITALL); }
      r := FillRecv(slot.value, fd, 0, group);
      assert sqes[slot.value] ==
        Submission.Fill(Submission.GetSqe(old(Abs())).value.0.sqes[slot.value], Recv(fd, 0, group, data));
      assert sqes[..] == Submission.GetSqe(old(Abs())).value.0.sqes[slot.value := sqes[slot.value]];
    }

    /** The kernel consumes the entry at its head. */
    method Consume() returns (e: Sqe)
      requires Valid() && khead != ktail
      modifies this`khead
      ensures Valid() && (Abs(), e) == Submission.Consume(old(Abs()))
    {
      hide And, Mod;
      AndMask(khead, j);
      e := sqes[And(khead, sqes.Length - 1)];
      khead := (khead + 1) % 0x1_0000_0000;
    }
  }

  /** A write is claiming, filling and tagging one slot, and filing the payload. */
  lemma {:induction false} WriteByParts(st: Streams.Stream, q: Sq, ptr: nat, bytes: seq<byte>)
    requires st.owner < U16 && st.sendId < U32 && |q.sqes| > 0 && bytes != []
    ensures match Submission.GetSqe(q)
      case None => Streams.Write(st, q, ptr, bytes) == Panic(SubmissionQueueFull)
      case Some((q', idx)) =>
        var e := Submission.FillSend(q'.sqes[idx], st.fd, ptr, |bytes| % 0x1_0000_0000, MSG_WAITALL);
        && idx < |q'.sqes|
        && Streams.Write(st, q, ptr, bytes) == Ok((
             st.(sendId := (st.sendId + 1) % 0x1_0000_0000,
                 pending := st.pending[Streams.SendKey(st) := Streams.Payload(ptr, bytes)]),
             q'.(sqes := q'.sqes[idx := e][idx := e.(userData := Streams.SendKey(st))])))
  {
    hide And, Mod, UserData.Pack, Submission.GetSqe, Prepare, Submission.FillSend, Streams.SendKey;
    PrepareByParts(q, st.fd, ptr, |bytes|, Streams.SendKey(st));
  }

  lemma {:induction false} PrepareByParts(q: Sq, fd: nat, ptr: nat, len: nat, data: nat)
    requires |q.sqes| > 0
    ensures match Submission.GetSqe(q)
      case None => Prepare(q, Send(fd, ptr, len, MSG_WAITALL, data)) == Panic(SubmissionQueueFull)
      case Some((q', idx)) =>
        var e := Submission.FillSend(q'.sqes[idx], fd, ptr, len % 0x1_0000_0000, MSG_WAITALL);
        && idx < |q'.sqes|
        && Prepare(q, Send(fd, ptr, len, MSG_WAITALL, data)) ==
             Ok(q'.(sqes := q'.sqes[idx := e][idx := e.(userData := data)]))
  {
    hide And, Mod;
    var g := Submission.GetSqe(q);
    if g.Some? {
      var (q', idx) := g.value;
      var e := Submission.FillSend(q'.sqes[idx], fd, ptr, len % 0x1_0000_0000, MSG_WAITALL);
      assert q'.sqes[idx := e][idx := e.(userData := data)] == q'.sqes[idx := e.(userData := data)];
      assert Submission.Fill(q'.sqes[idx], Send(fd, ptr, len, MSG_WAITALL, data)) == e.(userData := data);
    }
  }

  lemma KeyIsPacked(st: Streams.Stream)
    requires st.owner < U16 && st.sendId < U32
    ensures Streams.SendKey(st) == UserData.Pack(UserData.SEND, st.owner, st.sendId)
  {
  }

  lemma EmptyWritePanics(st: Streams.Stream, q: Sq, ptr: nat)
    requires st.owner < U16 && st.sendId < U32 && |q.sqes| > 0
    ensures Streams.Write(st, q, ptr, []) == Panic(EmptyWrite)
  {
  }

  /** A completion; whoever handles it must take its buffer before it is dropped. */
  class Completion {
    const cqe: Streams.Cqe
    var kernelBuf: Option<OwnedBuffer>

    function Abs(): Streams.Completion
      reads this
    {
      Streams.Completion(cqe, if kernelBuf.Some? then Some(kernelBuf.value.kb) else None)
    }

    constructor (cqe: Streams.Cqe, kernelBuf: Option<OwnedBuffer>)
      ensures this.cqe == cqe && this.kernelBuf == kernelBuf
    {
      this.cqe := cqe;
      this.kernelBuf := kernelBuf;
    }

    method TakeKernelBuf() returns (b: Option<OwnedBuffer>)
      modifies this
      ensures b == old(kernelBuf) && kernelBuf == None
    {
      b := kernelBuf;
      kernelBuf := None;
    }

    method Drop() returns (r: Outcome<()>)
      ensures r.Ok? <==> kernelBuf.None?
      ensures r.Panic? ==> r.site == BufferNotConsumed
    {
      r := if kernelBuf.None? then Ok(()) else Panic(BufferNotConsumed);
    }
  }

  /** Decode a raw completion. */
  method FromRawEvent(pool: BufRingPool, cqe: Streams.Cqe) returns (r: Outcome<Completion>)
    requires pool.Valid()
    ensures match Streams.FromRawEvent(pool.Rings(), cqe)
      case Panic(site) => r == Panic(site)
      case Ok(c) =>
        && r.Ok? && fresh(r.value) && r.value.Abs() == c
        && (r.value.kernelBuf.Some? ==>
              && Returnable(r.value.kernelBuf.value)
              && UserData.OwnerOf(cqe.userData) < pool.ptrs.Length
              && r.value.kernelBuf.value.ring == pool.ptrs[UserData.OwnerOf(cqe.userData)])
  {
    hide And, Mask, Shr, Return, BufRings.GetReadBuf;
    if cqe.res < 0 { return Panic(CompletionError); }
    if And(cqe.flags, Streams.F_BUF_MORE) != 0 { return Panic(PartialBuffer); }
    if And(cqe.flags, Streams.F_BUFFER) == 0 {
      var bare := new Completion(cqe, None);
      return Ok(bare);
    }
    if cqe.res == 0 { return Panic(EmptyData); }
    var bgid := UserData.OwnerOf(cqe.userData);
    var found := pool.GetReadBuf(bgid, Streams.BufferIdOf(cqe.flags), cqe.res);
    match found {
      case Panic(site) => r := Panic(site);
      case Ok(b) =>
        var c := new Completion(cqe, Some(b));
        r := Ok(c);
    }
  }

  predicate Appended<T(==)>(before: seq<T>, after: seq<T>) {
    |after| == |before| + 1 && after[..|before|] == before
  }

  class TcpStream {
    const inner: KernelBufferVecReader
    const sq: SubmissionQueue
    const ownerId: nat
    const recvId: nat
    const fd: nat
    var sendId: nat
    var pending: map<nat, Streams.Payload>

    ghost predicate Valid()
      reads this, inner, inner.bufVec
    {
      ownerId < U16 && recvId < U32 && sendId < U32 && inner.Valid()
    }

    ghost function Abs(): Streams.Stream
      requires Valid()
      reads this, inner, inner.bufVec
    {
      Streams.Stream(ownerId, recvId, fd, inner.Queue(), inner.capacity, sendId, pending)
    }

    constructor (sq: SubmissionQueue, ownerId: nat, recvId: nat, fd: nat, poolSize: nat)
      requires ownerId < U16 && recvId < U32
      ensures Valid() && this.sq == sq && fresh(inner) && inner.bufVec == []
      ensures Abs() == Streams.NewStream(ownerId, recvId, fd, poolSize)
    {
      this.sq, this.ownerId, this.recvId, this.fd := sq, ownerId, recvId, fd;
      inner := new KernelBufferVecReader(poolSize);
      sendId := Streams.FIRST_SEND_ID;
      pending := map[];
    }

    /** Take ownership of a completion, handle it and drop it. */
    method OnCompletion(c: Completion) returns (r: Outcome<()>)
      requires Valid() && (c.kernelBuf.Some? ==> Returnable(c.kernelBuf.value))
      modifies this`pending, inner, c
      ensures match Streams.OnCompletion(old(Abs()), old(c.Abs()))
        case Panic(site) => r == Panic(site)
        case Ok(st) => r.Ok? && Valid() && Abs() == st && c.kernelBuf == None
      ensures inner.bufVec == old(inner.bufVec) || Appended(old(inner.bufVec), inner.bufVec)
      ensures |inner.bufVec| > |old(inner.bufVec)| ==>
        fresh(inner.bufVec[|old(inner.bufVec)|]) && inner.bufVec[|old(inner.bufVec)|].buf == old(c.kernelBuf)
    {
      hide UserData.OwnerOf, UserData.EventOf, UserData.ReqOf, And, Return;
      var data := c.cqe.userData;
      if UserData.OwnerOf(data) != ownerId { return Panic(OwnerMismatch); }
      match UserData.EventFromU8(UserData.EventOf(data)) {
        case Unknown => return Panic(UnknownEvent);
        case Known(Send) =>
          if c.cqe.res == 0 { return Panic(ZeroResult); }
          if data !in pending { return Panic(NoPendingSend); }
          var sent := pending[data];
          pending := pending - {data};
          if |sent.bytes| != c.cqe.res { return Panic(ShortSend); }
        case Known(MultishotRecv) =>
          if UserData.ReqOf(data) != recvId { return Panic(RequestMismatch); }
          if c.cqe.res == 0 { return Panic(ZeroResult); }
          if And(c.cqe.flags, Streams.F_BUFFER) == 0 { return Panic(NoBufferFlag); }
          var taken := c.TakeKernelBuf();
          if taken.None? { return Panic(NothingToTake); }
          inner.Push(taken.value);
          assert Abs() == Streams.Push(old(Abs()), taken.value.kb);
      }
      r := c.Drop();
    }

    /** Non-blocking read: would block exactly when no buffer is queued. */
    method Read(mem: array<byte>, out: array<byte>) returns (r: Outcome<Option<nat>>)
      requires Valid() && inner.FrontReadable(mem, out)
      modifies inner`bufVec, inner.bufVec, out, inner.FrontMem()
      ensures inner.bufVec == old(inner.bufVec) || (old(inner.bufVec) != [] && inner.bufVec == old(inner.bufVec)[1..])
      ensures forall i | |old(inner.bufVec)| - |inner.bufVec| <= i < |old(inner.bufVec)| ::
        old(inner.bufVec)[i].buf == old(inner.bufVec[i].buf)
      ensures match VecRead(old(mem[..]), old(inner.Queue()), out.Length)
        case Panic(site) => r == Panic(site)
        case Ok(WouldBlock) => r == Ok(None) && Valid() && Abs() == old(Abs())
        case Ok(Got(bytes, queue, drained)) =>
          && r == Ok(Some(|bytes|)) && Valid() && Abs() == old(Abs()).(queue := queue)
          && out[..] == bytes + old(out[|bytes|..])
          && var ring := old(inner.bufVec[0].buf).value.ring;
             var was := old(inner.bufVec[0].buf.value.ring.Abs());
             ring.Abs() == if drained.Some? then Return(was, ring.k, drained.value) else was
    {
      hide Return, NextBytes, Returnable, BufRings.Sized, KernelBufferReader.Abs, UserData.OwnerOf;
      var len := inner.Read(mem, out);
      if len.Panic? { return Panic(len.site); }
      r := if len.value == 0 then Ok(None) else Ok(Some(len.value));
    }

    /** Non-blocking write: the bytes are copied to a fresh allocation at `ptr`, a send of them is
        prepared, and the copy is kept until that send completes. */
    method Write(ptr: nat, bytes: seq<byte>) returns (r: Outcome<nat>)
      requires Valid() && sq.Valid()
      modifies this`sendId, this`pending, sq`sqeTail, sq.sqes
      ensures Valid() && sq.Valid()
      ensures r.Ok? ==>
        r.value == |bytes| && Streams.Write(old(Abs()), old(sq.Abs()), ptr, bytes) == Ok((Abs(), sq.Abs()))
      ensures r.Panic? ==> Streams.Write(old(Abs()), old(sq.Abs()), ptr, bytes) == Panic(r.site)
      ensures r.Panic? ==> Abs() == old(Abs()) && sq.Abs() == old(sq.Abs())
    {
      hide UserData.OwnerOf, UserData.EventOf, UserData.ReqOf, UserData.Pack, And, Mod, Submission.GetSqe,
        Submission.FillSend, Returnable, Streams.Write, KernelBufferVecReader.Valid,
        KernelBufferVecReader.Queue, SubmissionQueue.Abs, Streams.SendKey, Submission.Initialize, Streams.NewStream;
      if bytes == [] {
        EmptyWritePanics(Abs(), sq.Abs(), ptr);
        return Panic(EmptyWrite);
      }
      ghost var st0, q0 := Abs(), sq.Abs();
      WriteByParts(st0, q0, ptr, bytes);
      var slot := sq.PrepSend(fd, ptr, |bytes|, MSG_WAITALL);
      if slot.Panic? { return Panic(slot.site); }
      ghost var q1 := sq.Abs();
      var id := NextSendId();
      var key := UserData.FromParts(UserData.SEND, ownerId, id);
      KeyIsPacked(st0);
      sq.SetData(slot.value, key);
      assert sq.Abs() == q1.(sqes := q1.sqes[slot.value := q1.sqes[slot.value].(userData := key)]);
      pending := pending[key := Streams.Payload(ptr, bytes)];
      assert Abs() == st0.(sendId := sendId, pending := pending);
      assert Streams.Write(st0, q0, ptr, bytes) == Ok((Abs(), sq.Abs()));
      r := Ok(|bytes|);
    }

    method NextSendId() returns (id: nat)
      requires sendId < U32
      modifies this`sendId
      ensures id == old(sendId) && sendId == (old(sendId) + 1) % 0x1_0000_0000
    {
      id := sendId;
      sendId := (sendId + 1) % 0x1_0000_0000;
    }
  }
}
