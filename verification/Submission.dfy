/** The submission ring: how an entry is claimed and filled, what the kernel reads from it, and what
    one use of a slot leaves behind for the next. */
module Submission {
  import opened Bits
  import opened Outcomes
  import opened Windows

  /** The fields of a submission entry that the program or its initialisation touches. */
  datatype Sqe = Sqe(
    opcode: nat, flags: nat, ioprio: nat, fd: nat, off: nat, addr: nat, len: nat, opFlags: nat,
    userData: nat, bufIndex: nat, personality: nat, fileIndex: nat, addr3: nat, pad2: nat)

  const OP_SEND: nat := 26
  const OP_RECV: nat := 27
  const RECV_MULTISHOT: nat := 2
  const BUFFER_SELECT: nat := 32
  const MSG_WAITALL: nat := 0x100

  const ZEROED: Sqe := Sqe(0, 0, 0, 0, 0, 0, 0, 0, 0, 0, 0, 0, 0, 0)

  /** `tail` counts entries claimed, `ktail` entries submitted, `khead` entries the kernel has
      consumed; all three are u32 and wrap. */
  datatype Sq = Sq(sqes: seq<Sqe>, tail: nat, ktail: nat, khead: nat)

  predicate Sized(q: Sq, j: nat) {
    j <= 31 && |q.sqes| == Pow2(j) && q.tail < U32 && q.ktail < U32 && q.khead < U32
  }

  // ---------- Filling an entry ----------

  function Initialize(e: Sqe): Sqe {
    e.(flags := 0, ioprio := 0, opFlags := 0, bufIndex := 0, personality := 0, fileIndex := 0, addr3 := 0, pad2 := 0)
  }

  function FillSend(e: Sqe, fd: nat, ptr: nat, len: nat, flags: nat): Sqe {
    e.(opcode := OP_SEND, fd := fd, addr := ptr, opFlags := flags, len := len)
  }

  function FillRecv(e: Sqe, fd: nat, flags: nat, group: nat): Sqe {
    e.(opcode := OP_RECV, fd := fd, opFlags := flags, ioprio := RECV_MULTISHOT, bufIndex := group,
       flags := Or(e.flags, BUFFER_SELECT))
  }

  /** A preparation: `_prep_send` plus the user data, or the setup loop's receive. */
  datatype Op =
    | Send(fd: nat, ptr: nat, len: nat, flags: nat, data: nat)
    | Recv(fd: nat, flags: nat, group: nat, data: nat)

  function Fill(e: Sqe, op: Op): Sqe {
    match op
    case Send(fd, ptr, len, flags, data) =>
      FillSend(Initialize(e), fd, ptr, len % 0x1_0000_0000, flags).(userData := data)
    case Recv(fd, flags, group, data) => FillRecv(Initialize(e).(userData := data), fd, flags, group)
  }

  /** The entry each preparation means to hand to the kernel. */
  function Intended(op: Op): Sqe {
    match op
    case Send(fd, ptr, len, flags, data) =>
      Sqe(OP_SEND, 0, 0, fd, 0, ptr, len % 0x1_0000_0000, flags, data, 0, 0, 0, 0, 0)
    case Recv(fd, flags, group, data) =>
      Sqe(OP_RECV, BUFFER_SELECT, RECV_MULTISHOT, fd, 0, 0, 0, flags, data, group, 0, 0, 0, 0)
  }

  /** A send is clean on any slot whose offset is zero; a receive also needs the slot's address and
      length to be zero, because it never writes them. */
  lemma FillIsIntendedIff(e: Sqe, op: Op)
    ensures Fill(e, op) == Intended(op) <==> e.off == 0 && (op.Recv? ==> e.addr == 0 && e.len == 0)
    ensures Fill(e, op).off == e.off
    ensures op.Recv? ==> Fill(e, op).addr == e.addr && Fill(e, op).len == e.len
  {
  }

  // ---------- Claiming, submitting, consuming ----------

  /** Claim the next slot and initialise it: the new ring and the slot's index. */
  function GetSqe(q: Sq): Option<(Sq, nat)>
    requires |q.sqes| > 0
  {
    var next := (q.tail + 1) % 0x1_0000_0000;
    if (next - q.khead) % 0x1_0000_0000 <= |q.sqes| then
      var idx := Mod(q.tail, |q.sqes|);
      Some((q.(sqes := q.sqes[idx := Initialize(q.sqes[idx])], tail := next), idx))
    else None
  }

  function Prepare(q: Sq, op: Op): Outcome<Sq>
    requires |q.sqes| > 0
  {
    match GetSqe(q)
    case None => Panic(SubmissionQueueFull)
    case Some((q', idx)) =>
      if op.Recv? && And(op.flags, MSG_WAITALL) != 0 then Panic(WaitAllOnMultishot)
      else Ok(q'.(sqes := q'.sqes[idx := Fill(q'.sqes[idx], op)]))
  }

  /** Submitting tells the kernel about every entry claimed so far. */
  function Submit(q: Sq): Sq { q.(ktail := q.tail) }

  predicate CanConsume(q: Sq) { q.khead != q.ktail }

  function Consume(q: Sq): (Sq, Sqe)
    requires |q.sqes| > 0
  {
    (q.(khead := (q.khead + 1) % 0x1_0000_0000), q.sqes[Mod(q.khead, |q.sqes|)])
  }

  // ---------- The ring is a bounded FIFO ----------

  function Unconsumed(q: Sq): nat { (q.tail - q.khead) % 0x1_0000_0000 }

  function Submitted(q: Sq): nat { (q.ktail - q.khead) % 0x1_0000_0000 }

  /** The entries claimed and not yet consumed, oldest first, read through the wrapped indices. */
  function Fifo(q: Sq): (f: seq<Sqe>)
    requires |q.sqes| > 0
    ensures |f| == Unconsumed(q)
  {
    Window(q.sqes, q.khead, Unconsumed(q))
  }

  predicate Valid(q: Sq, j: nat) {
    Sized(q, j) && Submitted(q) <= Unconsumed(q) <= |q.sqes|
  }

  lemma RingFits32(j: nat)
    requires j <= 31
    ensures Pow2(j) <= 0x8000_0000
  {
    Widths();
    Pow2Bound(j, 31);
    assert Pow2(32) == 2 * Pow2(31);
  }

  /** For every pair of wrapped indices: a slot is handed out exactly when fewer than `entries`
      are unconsumed. (One short of 2^32 unconsumed, which no valid ring reaches, also passes the
      test.) */
  lemma {:induction false} GetSqeIff(q: Sq, j: nat)
    requires Sized(q, j)
    ensures GetSqe(q).Some? <==> Unconsumed(q) < |q.sqes| || Unconsumed(q) == 0xFFFF_FFFF
    ensures Valid(q, j) ==> (GetSqe(q).Some? <==> Unconsumed(q) < |q.sqes|)
  {
    RingFits32(j);
    NextDistance(q.tail, q.khead);
  }

  lemma NextDistance(tail: nat, head: nat)
    requires tail < U32 && head < U32
    ensures ((tail + 1) % 0x1_0000_0000 - head) % 0x1_0000_0000 == ((tail - head) % 0x1_0000_0000 + 1) % 0x1_0000_0000
  {
  }

  lemma TailFromHead(tail: nat, head: nat)
    requires tail < U32 && head < U32
    ensures (head + (tail - head) % 0x1_0000_0000) % 0x1_0000_0000 == tail
  {
  }

  /** The slot claimed is the one just after the unconsumed entries. */
  lemma {:induction false} ClaimedSlot(q: Sq, j: nat)
    requires Sized(q, j)
    ensures Mod(q.tail, |q.sqes|) == Mod(q.khead + Unconsumed(q), |q.sqes|)
  {
    TailFromHead(q.tail, q.khead);
    WrapMod32(q.khead + Unconsumed(q), j);
  }

  /** What a preparation computes, and exactly when it fails. */
  lemma {:induction false} PrepareValue(q: Sq, j: nat, op: Op)
    requires Valid(q, j)
    ensures Prepare(q, op).Ok? <==>
      Unconsumed(q) < |q.sqes| && (op.Recv? ==> And(op.flags, MSG_WAITALL) == 0)
    ensures Prepare(q, op).Ok? ==>
      var idx := Mod(q.tail, |q.sqes|);
      Prepare(q, op).value == q.(sqes := q.sqes[idx := Fill(q.sqes[idx], op)], tail := (q.tail + 1) % 0x1_0000_0000)
  {
    GetSqeIff(q, j);
    if Prepare(q, op).Ok? {
      var idx := Mod(q.tail, |q.sqes|);
      assert Fill(Initialize(q.sqes[idx]), op) == Fill(q.sqes[idx], op);
      assert Prepare(q, op).value.sqes == q.sqes[idx := Fill(q.sqes[idx], op)];
    }
  }

  /** A preparation appends one entry and disturbs no unconsumed one; it fails exactly when the ring
      is full (or a receive asks to wait for all). */
  lemma {:induction false} PrepareAppends(q: Sq, j: nat, op: Op)
    requires Valid(q, j)
    ensures Prepare(q, op).Ok? <==>
      Unconsumed(q) < |q.sqes| && (op.Recv? ==> And(op.flags, MSG_WAITALL) == 0)
    ensures Prepare(q, op).Ok? ==>
      var idx := Mod(q.tail, |q.sqes|);
      && Valid(Prepare(q, op).value, j)
      && Fifo(Prepare(q, op).value) == Fifo(q) + [Fill(q.sqes[idx], op)]
  {
    PrepareValue(q, j, op);
    if Prepare(q, op).Ok? {
      ClaimAppends(q, j, Fill(q.sqes[Mod(q.tail, |q.sqes|)], op));
    }
  }

  lemma {:induction false} ClaimAppends(q: Sq, j: nat, e: Sqe)
    requires Valid(q, j) && Unconsumed(q) < |q.sqes|
    ensures var q' := q.(sqes := q.sqes[Mod(q.tail, |q.sqes|) := e], tail := (q.tail + 1) % 0x1_0000_0000);
      Valid(q', j) && Fifo(q') == Fifo(q) + [e]
  {
    RingFits32(j);
    ClaimCounts(q);
    ClaimedSlot(q, j);
    WindowPush(q.sqes, q.khead, Unconsumed(q), e);
  }

  lemma ClaimCounts(q: Sq)
    requires q.tail < U32 && q.khead < U32 && Unconsumed(q) < 0x8000_0000
    ensures Unconsumed(q.(tail := (q.tail + 1) % 0x1_0000_0000)) == Unconsumed(q) + 1
  {
    NextDistance(q.tail, q.khead);
  }

  /** The kernel consumes exactly the oldest unconsumed entry. */
  lemma {:induction false} ConsumePops(q: Sq, j: nat)
    requires Valid(q, j) && CanConsume(q)
    ensures Valid(Consume(q).0, j) && Unconsumed(q) > 0
    ensures Consume(q).1 == Fifo(q)[0] && Fifo(Consume(q).0) == Fifo(q)[1..]
  {
    ConsumeCounts(q);
    WindowPop(q.sqes, q.khead, Unconsumed(q));
    WindowFromWrapped(q.sqes, q.khead + 1, Unconsumed(q) - 1, j);
  }

  lemma ConsumeCounts(q: Sq)
    requires q.tail < U32 && q.ktail < U32 && q.khead < U32 && CanConsume(q)
    requires Submitted(q) <= Unconsumed(q) && |q.sqes| > 0
    ensures Unconsumed(q) > 0
    ensures Unconsumed(Consume(q).0) == Unconsumed(q) - 1
    ensures Submitted(Consume(q).0) == Submitted(q) - 1
  {
    HeadDistance(q.ktail, q.khead);
    HeadDistance(q.tail, q.khead);
  }

  lemma HeadDistance(tail: nat, head: nat)
    requires tail < U32 && head < U32
    ensures tail != head <==> (tail - head) % 0x1_0000_0000 > 0
    ensures tail != head ==> (tail - (head + 1) % 0x1_0000_0000) % 0x1_0000_0000 == (tail - head) % 0x1_0000_0000 - 1
  {
  }

  lemma {:induction false} WindowFromWrapped<T>(slots: seq<T>, start: nat, count: nat, j: nat)
    requires j <= 31 && |slots| == Pow2(j)
    ensures Window(slots, start % 0x1_0000_0000, count) == Window(slots, start, count)
  {
    var a, b := Window(slots, start % 0x1_0000_0000, count), Window(slots, start, count);
    forall i | 0 <= i < count
      ensures a[i] == b[i]
    {
      WrapIndex32(start, i, j);
    }
  }

  /** Submitting shows the kernel every entry claimed so far, and changes none. */
  lemma SubmitKeeps(q: Sq, j: nat)
    requires Valid(q, j)
    ensures Valid(Submit(q), j) && Fifo(Submit(q)) == Fifo(q)
    ensures Submitted(Submit(q)) == Unconsumed(Submit(q)) == Unconsumed(q)
  {
  }
}
