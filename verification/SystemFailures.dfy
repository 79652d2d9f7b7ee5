/** A run that loses a payload: a send stays pending while its stream completes 2^32 - 1 later ones,
    and the next write then reuses its key. */
module SystemFailures {
  import opened Bits
  import opened Outcomes
  import opened Submission
  import opened Streams
  import opened Systems
  import opened SystemSteps
  import opened SystemUser
  import opened SystemRuns
  import UserData

  // ---------- One write, sent, completed and handled ----------

  const HAND_OVER: seq<Step> := [SubmitAll] + [KernelConsume]

  /** The kernel takes the only entry waiting in the submission ring. */
  lemma {:induction false} HandOver(cfg: Config, s: System, e: Sqe) returns (s': System)
    requires Inv(cfg, s) && |s.sq.sqes| > 0 && Fifo(s.sq) == [e]
    ensures Reaches(cfg, s, HAND_OVER, s') && Inv(cfg, s')
    ensures |s'.sq.sqes| == |s.sq.sqes| && Fifo(s'.sq) == []
    ensures s' == s.(sq := s'.sq, armed := s'.armed, accepted := s'.accepted,
                     sends := if e.opcode == OP_SEND then s.sends + [e] else s.sends)
  {
    hide RouteInv, SendInv, StreamsInv, GroupInv, Apart, Reaches, Fifo, And, Mod;
    var s1 := s.(sq := Submit(s.sq));
    SubmitKeeps(s.sq, cfg.j);
    SubmitStep(cfg, s);
    ReachesOne(cfg, s, SubmitAll, s1);
    HeadDistance(s1.sq.tail, s1.sq.khead);
    ConsumeStep(cfg, s1);
    ConsumePops(s1.sq, cfg.j);
    s' := ConsumeEntry(s1).value;
    ReachesOne(cfg, s1, KernelConsume, s');
    ReachesConcat(cfg, s, [SubmitAll], s1, [KernelConsume], s');
  }

  /** A stream writes, the kernel takes the send at once. */
  lemma {:induction false} WriteAndHandOver(cfg: Config, s: System, ptr: nat, bytes: seq<byte>)
      returns (s': System, e: Sqe)
    requires Inv(cfg, s) && |s.streams| == 1 && |s.sq.sqes| > 0 && Fifo(s.sq) == []
    requires 0 < |bytes| < 0x8000_0000 && ptr !in s.heap && YoungPending(s.streams[0], s.hist[0])
    ensures Reaches(cfg, s, [StreamWrite(0, ptr, bytes)] + HAND_OVER, s') && Inv(cfg, s')
    ensures |s.hist| == 1 && s.streams[0].owner == 0 && s.streams[0].sendId < U32
    ensures e == Intended(Submission.Send(s.streams[0].fd, ptr, |bytes|, MSG_WAITALL, SendKey(s.streams[0])))
    ensures SendKey(s.streams[0]) !in s.streams[0].pending
    ensures |s'.sq.sqes| > 0 && Fifo(s'.sq) == []
    ensures s'.streams == With(s.streams, 0, e.userData, Payload(ptr, bytes), (s.streams[0].sendId + 1) % 0x1_0000_0000)
    ensures |s'.hist| == 1 && s'.hist[0].issued == s.hist[0].issued + 1
    ensures s'.hist[0].numbers == s.hist[0].numbers[e.userData := s.hist[0].issued]
    ensures s'.heap == s.heap[ptr := bytes] && s'.cq == s.cq && s'.sends == s.sends + [e]
  {
    hide RouteInv, SendInv, StreamsInv, GroupInv, Apart, Reaches, Fifo, And, Mod, SendKey, UserData.Pack, WriteTo,
      YoungPending, Submission.Valid;
    var s1, key, e1 := WriteHandled(cfg, s, 0, ptr, bytes);
    e := e1;
    WriteStep(cfg, s, 0, ptr, bytes);
    ReachesOne(cfg, s, StreamWrite(0, ptr, bytes), s1);
    s' := HandOver(cfg, s1, e);
    ReachesConcat(cfg, s, [StreamWrite(0, ptr, bytes)], s1, HAND_OVER, s');
  }

  const FIRST: nat := 7
  const SECOND: nat := 9

  /** Stream 0 has made n writes; the kernel holds the first, and all others are done. */
  ghost predicate Resting(cfg: Config, s: System, e: Sqe, n: nat) {
    && Inv(cfg, s) && |s.streams| == |s.hist| == 1
    && |s.sq.sqes| > 0 && Fifo(s.sq) == [] && s.cq == [] && s.sends == [e]
    && s.heap == map[FIRST := [1]]
    && s.streams[0].pending == map[e.userData := Payload(FIRST, [1])]
    && s.hist[0].issued == n
    && e.userData in s.hist[0].numbers && s.hist[0].numbers[e.userData] == 0
  }

  /** The kernel completes the newest send, and the stream handles its completion. */
  lemma {:induction false} CompleteNewest(cfg: Config, s: System, e: Sqe, n: nat, s1: System, e1: Sqe, bytes: seq<byte>)
      returns (s': System)
    requires Resting(cfg, s, e, n) && Inv(cfg, s1) && |bytes| > 0
    requires s.streams[0].owner == 0 && s.streams[0].sendId < U32
    requires e1 == Intended(Submission.Send(s.streams[0].fd, SECOND, |bytes|, MSG_WAITALL, SendKey(s.streams[0])))
    requires e1.userData !in s.streams[0].pending
    requires |s1.sq.sqes| > 0 && Fifo(s1.sq) == []
    requires s1.streams ==
      With(s.streams, 0, e1.userData, Payload(SECOND, bytes), (s.streams[0].sendId + 1) % 0x1_0000_0000)
    requires |s1.hist| == 1 && s1.hist[0].issued == n + 1
    requires s1.hist[0].numbers == s.hist[0].numbers[e1.userData := n]
    requires s1.heap == s.heap[SECOND := bytes] && s1.cq == [] && s1.sends == [e, e1]
    ensures Reaches(cfg, s1, [KernelCompleteSend(1, 0)] + [Dispatch], s') && Resting(cfg, s', e, n + 1)
  {
    hide Inv, Reaches, Fifo, And, SendKey, UserData.Pack, UserData.OwnerOf, UserData.EventOf, CompleteSend,
      DispatchFront;
    AndZero(F_BUF_MORE);
    AndZero(F_BUFFER);
    InvWellSized(cfg, s1);
    CompleteStep(cfg, s1, 1, 0);
    var s2 := CompleteSend(s1, 1, 0).value;
    Completed(s1, e, e1);
    ReachesOne(cfg, s1, KernelCompleteSend(1, 0), s2);
    KeyParts(s.streams[0]);
    SendHandled(cfg, s2);
    DispatchStep(cfg, s2);
    InvWellSized(cfg, s2);
    s' := DispatchFront(s2).value;
    ReachesOne(cfg, s2, Dispatch, s');
    ReachesConcat(cfg, s1, [KernelCompleteSend(1, 0)], s2, [Dispatch], s');
  }

  lemma Completed(s: System, e: Sqe, e1: Sqe)
    requires s.sends == [e, e1] && s.cq == []
    ensures CompleteSend(s, 1, 0).Ok? ==>
      var s' := CompleteSend(s, 1, 0).value;
      s' == s.(sends := [e], cq := [Cqe(e1.userData, I32(e1.len), 0)], wire := s'.wire)
  {
  }

  lemma InvWellSized(cfg: Config, s: System)
    requires Inv(cfg, s)
    ensures WellSized(cfg, s)
  {
    hide RouteInv, SendInv, StreamsInv, GroupInv, Apart;
  }

  /** While the first send is less than 2^32 writes old, one more write can be made and completed. */
  lemma {:induction false} OneMoreWrite(cfg: Config, s: System, e: Sqe, n: nat) returns (s': System)
    requires Resting(cfg, s, e, n) && 0 < n < U32
    ensures Reaches(cfg, s, CYCLE, s') && Resting(cfg, s', e, n + 1)
  {
    hide Inv, Reaches, Fifo, And, SendKey, UserData.Pack, Intended;
    var s1, e1 := WriteAndHandOver(cfg, s, SECOND, [2]);
    IntendedKey(e1, s.streams[0].fd, SECOND, 1, SendKey(s.streams[0]));
    s' := CompleteNewest(cfg, s, e, n, s1, e1, [2]);
    ReachesConcat(cfg, s, [StreamWrite(0, SECOND, [2])] + HAND_OVER, s1, [KernelCompleteSend(1, 0)] + [Dispatch], s');
  }

  lemma IntendedKey(e: Sqe, fd: nat, ptr: nat, len: nat, key: nat)
    requires e == Intended(Submission.Send(fd, ptr, len, MSG_WAITALL, key))
    ensures e.userData == key
  {
  }

  const CYCLE: seq<Step> := [StreamWrite(0, SECOND, [2])] + HAND_OVER + ([KernelCompleteSend(1, 0)] + [Dispatch])

  function Cycles(count: nat): seq<Step> {
    if count == 0 then [] else Cycles(count - 1) + CYCLE
  }

  lemma ReachesNone(cfg: Config, s: System)
    ensures Reaches(cfg, s, [], s)
  {
  }

  lemma {:induction false} ManyWrites(cfg: Config, s: System, e: Sqe, count: nat) returns (s': System)
    requires Resting(cfg, s, e, 1) && count < U32
    ensures Reaches(cfg, s, Cycles(count), s') && Resting(cfg, s', e, count + 1)
    decreases count
  {
    hide Resting, Reaches;
    if count == 0 {
      assert Reaches(cfg, s, Cycles(0), s) by { ReachesNone(cfg, s); }
      s' := s;
    } else {
      var s1 := ManyWrites(cfg, s, e, count - 1);
      s' := OneMoreWrite(cfg, s1, e, count);
      ReachesConcat(cfg, s, Cycles(count - 1), s1, CYCLE, s');
    }
  }

  /** Setup of one stream, its receive armed, and a first write taken by the kernel. */
  lemma {:induction false} FirstWrite(cfg: Config, mem: seq<byte>, spec: Spec) returns (s: System, e: Sqe)
    requires SpecsOk(cfg, |mem|, [spec])
    ensures Setup(cfg, mem, [spec]).Ok?
    ensures Reaches(cfg, Setup(cfg, mem, [spec]).value, HAND_OVER + ([StreamWrite(0, FIRST, [1])] + HAND_OVER), s)
    ensures Resting(cfg, s, e, 1)
  {
    hide Inv, Reaches, Fifo, And, SendKey, UserData.Pack, Fresh, Setup, Intended, SpecsOk;
    SetupKeeps(cfg, mem, [spec]);
    var s0, e0 := OneStream(cfg, mem, spec);
    var s1 := HandOver(cfg, s0, e0);
    var s2, e2 := WriteAndHandOver(cfg, s1, FIRST, [1]);
    s, e := s2, e2;
    IntendedKey(e, s1.streams[0].fd, FIRST, 1, SendKey(s1.streams[0]));
    ReachesConcat(cfg, s0, HAND_OVER, s1, [StreamWrite(0, FIRST, [1])] + HAND_OVER, s2);
  }

  lemma {:induction false} OneStream(cfg: Config, mem: seq<byte>, spec: Spec) returns (s: System, e: Sqe)
    requires SpecsOk(cfg, |mem|, [spec])
    ensures Setup(cfg, mem, [spec]) == Ok(s) && Inv(cfg, s)
    ensures |s.streams| == |s.hist| == 1 && s.streams[0].pending == map[] && s.hist[0].issued == 0
    ensures s.heap == map[] && s.sends == [] && s.cq == []
    ensures |s.sq.sqes| > 0 && Fifo(s.sq) == [e] && e.opcode == OP_RECV
  {
    hide Inv, UserData.Pack, Fresh;
    var s0 := EmptySystem(cfg, mem);
    assert [] + [spec] == [spec] && [spec][..0] == [] && [spec][0] == spec;
    EmptyInv(cfg, mem);
    SetupKeeps(cfg, mem, [spec]);
    s := AddedStream(cfg, s0, [], spec);
    assert Fifo(s0.sq) == [];
    e := Intended(RecvOp(0, spec));
  }

  /** The next write reuses the key of the send the kernel holds, which is exactly 2^32 writes old;
      the write itself succeeds, and completing the send then reads freed memory. */
  ghost predicate Losing(cfg: Config, s: System) {
    && Inv(cfg, s) && WellSized(cfg, s)
    && |s.streams| == |s.hist| == |s.sends| == 1
    && SendKey(s.streams[0]) == s.sends[0].userData
    && s.sends[0].userData in s.streams[0].pending && s.sends[0].userData in s.hist[0].numbers
    && s.hist[0].issued == s.hist[0].numbers[s.sends[0].userData] + U32
    && SECOND !in s.heap && Unconsumed(s.sq) < |s.sq.sqes|
    && var written := WriteTo(cfg, s, 0, SECOND, [2]);
    && written.Ok? && |written.value.sends| == 1
    && CompleteSend(written.value, 0, 0) == Panic(KernelReadsFreedPayload)
  }

  /** The guard on writes is needed: from setup of any one stream, steps that are all allowed reach a
      state where one more write loses a payload. */
  lemma {:induction false} OverwriteReached(cfg: Config, mem: seq<byte>, spec: Spec)
      returns (steps: seq<Step>, s: System)
    requires SpecsOk(cfg, |mem|, [spec])
    ensures Setup(cfg, mem, [spec]).Ok?
    ensures Reaches(cfg, Setup(cfg, mem, [spec]).value, steps, s) && Losing(cfg, s)
  {
    hide Inv, Reaches, Setup, SpecsOk, Cycles, Losing, Resting;
    SetupKeeps(cfg, mem, [spec]);
    var s1, e := FirstWrite(cfg, mem, spec);
    s := ManyWrites(cfg, s1, e, U32 - 1);
    var begin := HAND_OVER + ([StreamWrite(0, FIRST, [1])] + HAND_OVER);
    steps := begin + Cycles(U32 - 1);
    ReachesConcat(cfg, Setup(cfg, mem, [spec]).value, begin, s1, Cycles(U32 - 1), s);
    RestingLoses(cfg, s, e);
  }

  lemma {:induction false} RestingLoses(cfg: Config, s: System, e: Sqe)
    requires Resting(cfg, s, e, U32)
    ensures Losing(cfg, s)
  {
    hide Inv, Fifo, And, SendKey, UserData.Pack, WriteTo, CompleteSend, Submission.Valid;
    InvWellSized(cfg, s);
    StalePending(cfg, s, e);
    WriteStarvesIff(cfg, s, 0, SECOND, [2]);
  }

  lemma StalePending(cfg: Config, s: System, e: Sqe)
    requires Resting(cfg, s, e, U32) && WellSized(cfg, s)
    ensures Stale(s.hist[0], 0, e) && SendKey(s.streams[0]) == e.userData
  {
    hide SendKey, UserData.Pack, UserData.OwnerOf, UserData.EventOf, Intended, Fifo, RecvInv, TokenInv, Ledger;
    assert SendEntryOk(s.streams, s.sends[0]);
    assert Stale(s.hist[0], 0, e);
    StaleIff(cfg, s, 0, e);
  }
}
