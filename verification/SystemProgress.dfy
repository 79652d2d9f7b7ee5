/** Nothing gets stuck: every reachable state can be brought to rest, with every received byte
    delivered, every written message transmitted, and every buffer and payload given back. */
module SystemProgress {
  import opened Bits
  import opened Outcomes
  import opened BufRings
  import opened Readers
  import opened Submission
  import opened Streams
  import opened Systems
  import opened SystemSteps
  import opened SystemUser
  import opened SystemRuns
  import UserData
  import Groups

  /** No step brings in bytes or messages. */
  predicate NoInput(steps: seq<Step>) {
    forall i :: 0 <= i < |steps| ==> !steps[i].KernelReceive? && !steps[i].StreamWrite?
  }

  // ---------- Sending ----------

  /** The kernel takes every entry submitted. */
  lemma {:induction false} ConsumeAll(cfg: Config, s: System) returns (steps: seq<Step>, s': System)
    requires Inv(cfg, s) && Submitted(s.sq) == Unconsumed(s.sq)
    ensures Reaches(cfg, s, steps, s') && NoInput(steps) && Inv(cfg, s')
    ensures |s'.sq.sqes| > 0 && Fifo(s'.sq) == []
    ensures s' == s.(sq := s'.sq, armed := s'.armed, sends := s'.sends, accepted := s'.accepted)
    decreases Unconsumed(s.sq)
  {
    hide Inv, Reaches, Fifo, Mod, ConsumeEntry;
    SqOfInv(cfg, s);
    WellSizedInv(cfg, s);
    if Unconsumed(s.sq) == 0 {
      steps, s' := [], s;
      ReachesNothing(cfg, s);
      assert Fifo(s.sq) == [];
    } else {
      HeadDistance(s.sq.ktail, s.sq.khead);
      ConsumeStep(cfg, s);
      var s1 := ConsumeEntry(s).value;
      ConsumedSq(s);
      ReachesOne(cfg, s, KernelConsume, s1);
      var rest;
      rest, s' := ConsumeAll(cfg, s1);
      steps := [KernelConsume] + rest;
      ReachesConcat(cfg, s, [KernelConsume], s1, rest, s');
    }
  }

  lemma ReachesNothing(cfg: Config, s: System)
    ensures Reaches(cfg, s, [], s)
  {
  }

  lemma WellSizedInv(cfg: Config, s: System)
    requires Inv(cfg, s)
    ensures WellSized(cfg, s)
  {
    hide RouteInv, SendInv, StreamsInv, GroupInv, Apart;
  }

  lemma ConsumedSq(s: System)
    requires |s.sq.sqes| > 0 && s.sq.tail < U32 && s.sq.ktail < U32 && s.sq.khead < U32
    requires CanConsume(s.sq) && Submitted(s.sq) == Unconsumed(s.sq) && ConsumeEntry(s).Ok?
    ensures var q := ConsumeEntry(s).value.sq;
      Submitted(q) == Unconsumed(q) == Unconsumed(s.sq) - 1
  {
    hide Mod, And;
    ConsumeCounts(s.sq);
  }

  /** The kernel completes every send it holds. */
  lemma {:induction false} CompleteAll(cfg: Config, s: System) returns (steps: seq<Step>, s': System)
    requires Inv(cfg, s)
    ensures Reaches(cfg, s, steps, s') && NoInput(steps) && Inv(cfg, s')
    ensures s' == s.(sends := [], cq := s'.cq, wire := s'.wire)
    decreases |s.sends|
  {
    hide Inv, Reaches, CompleteSend, And;
    WellSizedInv(cfg, s);
    if s.sends == [] {
      steps, s' := [], s;
      ReachesNothing(cfg, s);
    } else {
      AndZero(F_BUF_MORE);
      AndZero(F_BUFFER);
      CompleteStep(cfg, s, 0, 0);
      var s1 := CompleteSend(s, 0, 0).value;
      ReachesOne(cfg, s, KernelCompleteSend(0, 0), s1);
      var rest;
      rest, s' := CompleteAll(cfg, s1);
      steps := [KernelCompleteSend(0, 0)] + rest;
      ReachesConcat(cfg, s, [KernelCompleteSend(0, 0)], s1, rest, s');
    }
  }

  // ---------- Handling ----------

  /** The loop handles every completion posted. */
  lemma {:induction false} DispatchAll(cfg: Config, s: System) returns (steps: seq<Step>, s': System)
    requires Inv(cfg, s)
    ensures Reaches(cfg, s, steps, s') && NoInput(steps) && Inv(cfg, s')
    ensures s' == s.(cq := [], streams := s'.streams, heap := s'.heap) && SameStreams(s, s')
    decreases |s.cq|
  {
    hide Inv, Reaches, DispatchFront, Fifo, Recvs;
    WellSizedInv(cfg, s);
    if s.cq == [] {
      steps, s' := [], s;
      ReachesNothing(cfg, s);
    } else {
      DispatchStep(cfg, s);
      DispatchEffect(cfg, s);
      var s1 := DispatchFront(s).value;
      DispatchFrame(s);
      ReachesOne(cfg, s, Dispatch, s1);
      var rest;
      rest, s' := DispatchAll(cfg, s1);
      steps := [Dispatch] + rest;
      ReachesConcat(cfg, s, [Dispatch], s1, rest, s');
    }
  }

  lemma DispatchFrame(s: System)
    requires s.cq != [] && DispatchFront(s).Ok?
    ensures var s' := DispatchFront(s).value;
      s' == s.(cq := s.cq[1..], streams := s'.streams, heap := s'.heap)
  {
    hide FromRawEvent, OnCompletion, Rings, UserData.OwnerOf;
  }

  // ---------- Reading ----------

  /** Stream g reads until its queue is empty. */
  lemma {:induction false} DrainStream(cfg: Config, s: System, g: nat) returns (steps: seq<Step>, s': System)
    requires Inv(cfg, s) && s.cq == [] && g < |s.streams|
    ensures Reaches(cfg, s, steps, s') && NoInput(steps) && Inv(cfg, s')
    ensures |s'.streams| == |s.streams| && s'.streams[g].queue == []
    ensures s' == s.(groups := s'.groups, streams := s'.streams, hist := s'.hist)
    ensures forall h :: 0 <= h < |s.streams| ==> s'.streams[h] == s.streams[h].(queue := s'.streams[h].queue)
    ensures forall h :: 0 <= h < |s.streams| && s.streams[h].queue == [] ==> s'.streams[h].queue == []
    decreases |Waiting(cfg, s, g)|
  {
    hide Inv, Reaches, ReadFrom, Waiting;
    WellSizedInv(cfg, s);
    if s.streams[g].queue == [] {
      steps, s' := [], s;
      ReachesNothing(cfg, s);
    } else {
      ReadStep(cfg, s, g, 1);
      ReadShrinks(cfg, s, g);
      var s1 := ReadFrom(cfg, s, g, 1).value;
      ReachesOne(cfg, s, StreamRead(g, 1), s1);
      var rest;
      rest, s' := DrainStream(cfg, s1, g);
      steps := [StreamRead(g, 1)] + rest;
      ReachesConcat(cfg, s, [StreamRead(g, 1)], s1, rest, s');
    }
  }

  /** The bytes stream g has queued. */
  function Waiting(cfg: Config, s: System, g: nat): seq<byte>
    requires g < |s.streams|
  {
    Content(s.mem, QueueChunks(s.streams[g].queue))
  }

  lemma {:induction false} ReadShrinks(cfg: Config, s: System, g: nat)
    requires Inv(cfg, s) && g < |s.streams| && WellSized(cfg, s) && s.streams[g].queue != []
    ensures ReadFrom(cfg, s, g, 1).Ok?
    ensures var s' := ReadFrom(cfg, s, g, 1).value;
      && |s'.streams| == |s.streams| && |Waiting(cfg, s', g)| < |Waiting(cfg, s, g)|
      && s' == s.(groups := s'.groups, streams := s'.streams, hist := s'.hist)
      && s'.streams == s.streams[g := s.streams[g].(queue := s'.streams[g].queue)]
  {
    hide RouteInv, SendInv, StreamsInv, ReadFrom, Groups.Inv, Groups.Read, PostedFor, Content;
    ReadIsGroupRead(cfg, s, g, 1);
    assert GroupInv(cfg, s, g);
    Groups.ReadProgress(GroupParams(cfg, s.groups, g), s.mem, View(s, g), 1);
  }

  /** The first n streams read until their queues are empty. */
  lemma {:induction false} DrainAll(cfg: Config, s: System, n: nat) returns (steps: seq<Step>, s': System)
    requires Inv(cfg, s) && s.cq == [] && n <= |s.streams|
    ensures Reaches(cfg, s, steps, s') && NoInput(steps) && Inv(cfg, s')
    ensures |s'.streams| == |s.streams|
    ensures s' == s.(groups := s'.groups, streams := s'.streams, hist := s'.hist)
    ensures forall h :: 0 <= h < |s.streams| ==> s'.streams[h] == s.streams[h].(queue := s'.streams[h].queue)
    ensures forall h :: 0 <= h < n ==> s'.streams[h].queue == []
    decreases n
  {
    hide Inv, Reaches;
    if n == 0 {
      steps, s' := [], s;
      ReachesNothing(cfg, s);
    } else {
      var front, s1 := DrainAll(cfg, s, n - 1);
      var last;
      last, s' := DrainStream(cfg, s1, n - 1);
      steps := front + last;
      ReachesConcat(cfg, s, front, s1, last, s');
    }
  }

  // ---------- At rest ----------

  /** Nothing is queued, posted, in flight or pending anywhere. */
  predicate AtRest(s: System) {
    && |s.sq.sqes| > 0 && Fifo(s.sq) == [] && s.sends == [] && s.cq == []
    && forall g :: 0 <= g < |s.streams| ==> s.streams[g].queue == []
  }

  /** From every state that keeps the invariant, the kernel finishing what it was given and the streams
      reading what they have leads to rest, with no new input. */
  lemma {:induction false} Settles(cfg: Config, s: System) returns (steps: seq<Step>, s': System)
    requires Inv(cfg, s)
    ensures Reaches(cfg, s, steps, s') && NoInput(steps) && Inv(cfg, s') && AtRest(s')
    ensures s'.received == s.received && s'.written == s.written && |s'.streams| == |s.streams|
    ensures forall g :: 0 <= g < |s.streams| ==> s'.streams[g].fd == s.streams[g].fd
  {
    hide Inv, Reaches, Fifo;
    WellSizedInv(cfg, s);
    SubmitStep(cfg, s);
    var s1 := s.(sq := Submit(s.sq));
    ReachesOne(cfg, s, SubmitAll, s1);
    var a, s2 := ConsumeAll(cfg, s1);
    var b, s3 := CompleteAll(cfg, s2);
    var c, s4 := DispatchAll(cfg, s3);
    var d, s5 := DrainAll(cfg, s4, |s4.streams|);
    ReachesConcat(cfg, s, [SubmitAll], s1, a, s2);
    ReachesConcat(cfg, s, [SubmitAll] + a, s2, b, s3);
    ReachesConcat(cfg, s, [SubmitAll] + a + b, s3, c, s4);
    ReachesConcat(cfg, s, [SubmitAll] + a + b + c, s4, d, s5);
    steps, s' := [SubmitAll] + a + b + c + d, s5;
  }

  /** At rest every buffer is back in its ring, every stream has delivered all its socket received and
      has nothing pending, and every message has been transmitted exactly once. */
  lemma {:induction false} RestMeans(cfg: Config, s: System)
    requires Inv(cfg, s) && AtRest(s)
    ensures |s.groups| == |s.hist| == |s.streams|
    ensures forall g :: 0 <= g < |s.streams| ==>
      && s.hist[g].delivered == ReceivedOn(s.received, s.streams[g].fd)
      && s.hist[g].returned == s.hist[g].taken + Pow2(cfg.k)
      && (s.groups[g].ring.tail - s.groups[g].head) % 0x1_0000 == Pow2(cfg.k)
      && s.streams[g].pending == map[]
    ensures s.accepted == s.written && s.wire == multiset(s.written)
  {
    hide UserData.OwnerOf, UserData.EventOf, Fifo, SendEntryOk, RecvEntryOk, CqeOk, Groups.Inv, Apart, NumberInv,
      Identity, Content, Groups.Places;
    forall g | 0 <= g < |s.streams|
      ensures s.hist[g].delivered == ReceivedOn(s.received, s.streams[g].fd)
      ensures s.hist[g].returned == s.hist[g].taken + Pow2(cfg.k)
      ensures (s.groups[g].ring.tail - s.groups[g].head) % 0x1_0000 == Pow2(cfg.k)
      ensures s.streams[g].pending == map[]
    {
      BuffersConserved(cfg, s, g);
      StreamIntegrity(cfg, s, g);
      EmptyContents(cfg, s, g);
      forall key | key in s.streams[g].pending
        ensures false
      {
        SendsMatchPending(cfg, s, g, key);
      }
    }
    assert Flights(s.heap, []) == [] && s.accepted + [] == s.accepted;
  }

  lemma EmptyContents(cfg: Config, s: System, g: nat)
    requires g < |s.streams| == |s.groups| && s.streams[g].queue == [] && s.cq == []
    ensures Content(s.mem, QueueChunks(s.streams[g].queue)) == []
    ensures Content(s.mem, Groups.PostedChunks(GroupParams(cfg, s.groups, g), PostedFor(s.cq, g))) == []
  {
  }

  // ---------- No payload leaks ----------

  /** Every live allocation is some pending send's. */
  ghost predicate NoLeak(s: System) {
    forall ptr :: ptr in s.heap ==> Owned(s.streams, ptr)
  }

  ghost predicate Owned(streams: seq<Stream>, ptr: nat) {
    exists g, key :: 0 <= g < |streams| && key in streams[g].pending && streams[g].pending[key].ptr == ptr
  }

  lemma SamePendingOwned(streams: seq<Stream>, streams': seq<Stream>, ptr: nat)
    requires |streams'| == |streams| && Owned(streams, ptr)
    requires forall g :: 0 <= g < |streams| ==> streams'[g].pending == streams[g].pending
    ensures Owned(streams', ptr)
  {
    var g, key :| 0 <= g < |streams| && key in streams[g].pending && streams[g].pending[key].ptr == ptr;
    assert key in streams'[g].pending;
  }

  lemma {:induction false} WriteLeaksNothing(streams: seq<Stream>, g: nat, key: nat, p: Payload, id: nat, ptr: nat)
    requires g < |streams| && key !in streams[g].pending && (ptr == p.ptr || Owned(streams, ptr))
    ensures Owned(With(streams, g, key, p, id), ptr)
  {
    var streams' := With(streams, g, key, p, id);
    if ptr == p.ptr {
      assert key in streams'[g].pending;
    } else {
      var h, k :| 0 <= h < |streams| && k in streams[h].pending && streams[h].pending[k].ptr == ptr;
      assert k in streams'[h].pending && streams'[h].pending[k].ptr == ptr;
    }
  }

  lemma {:induction false} SentLeaksNothing(streams: seq<Stream>, g: nat, key: nat, ptr: nat)
    requires g < |streams| && key in streams[g].pending && ptr != streams[g].pending[key].ptr && Owned(streams, ptr)
    ensures Owned(Without(streams, g, key), ptr)
  {
    var h, k :| 0 <= h < |streams| && k in streams[h].pending && streams[h].pending[k].ptr == ptr;
    assert k in Without(streams, g, key)[h].pending;
  }

  lemma {:induction false} DispatchLeaksNothing(cfg: Config, s: System)
    requires Inv(cfg, s) && s.cq != [] && NoLeak(s)
    ensures DispatchFront(s).Ok? && NoLeak(DispatchFront(s).value)
  {
    hide Fifo, RecvInv, StreamsInv, SendInv, DispatchFront, UserData.EventOf, UserData.OwnerOf, UserData.ReqOf, And,
      SendEntryOk, RecvEntryOk, GetReadBuf, Owned;
    SqOfInv(cfg, s);
    assert CqeOk(s.streams, s.cq[0]);
    var key := s.cq[0].userData;
    var g := UserData.OwnerOf(key);
    if UserData.EventOf(key) == UserData.SEND {
      SendHandled(cfg, s);
      forall ptr | ptr in DispatchFront(s).value.heap
        ensures Owned(DispatchFront(s).value.streams, ptr)
      {
        SentLeaksNothing(s.streams, g, key, ptr);
      }
    } else {
      RecvHandled(cfg, s);
      forall ptr | ptr in DispatchFront(s).value.heap
        ensures Owned(DispatchFront(s).value.streams, ptr)
      {
        SamePendingOwned(s.streams, DispatchFront(s).value.streams, ptr);
      }
    }
  }

  lemma {:induction false} ReadLeaksNothing(cfg: Config, s: System, g: nat, want: nat)
    requires Inv(cfg, s) && WellSized(cfg, s) && g < |s.streams| && want > 0 && NoLeak(s)
    ensures ReadFrom(cfg, s, g, want).Ok? && NoLeak(ReadFrom(cfg, s, g, want).value)
  {
    hide RecvInv, RouteInv, SendInv, StreamsInv, ReadFrom, GroupParams, View, Owned;
    ReadIsGroupRead(cfg, s, g, want);
    forall ptr | ptr in s.heap
      ensures Owned(ReadFrom(cfg, s, g, want).value.streams, ptr)
    {
      SamePendingOwned(s.streams, ReadFrom(cfg, s, g, want).value.streams, ptr);
    }
  }

  lemma {:induction false} WriteStepLeaksNothing(cfg: Config, s: System, g: nat, ptr: nat, bytes: seq<byte>)
    requires Inv(cfg, s) && WellSized(cfg, s) && g < |s.streams| && NoLeak(s)
    requires 0 < |bytes| < 0x8000_0000 && Unconsumed(s.sq) < |s.sq.sqes| && ptr !in s.heap
    requires YoungPending(s.streams[g], s.hist[g])
    ensures WriteTo(cfg, s, g, ptr, bytes).Ok? && NoLeak(WriteTo(cfg, s, g, ptr, bytes).value)
  {
    hide Fifo, Inv, WriteTo, WellSized, SendKey, YoungPending, Owned, With;
    WriteStep(cfg, s, g, ptr, bytes);
    var s', key, e := WriteHandled(cfg, s, g, ptr, bytes);
    forall at | at in s'.heap
      ensures Owned(s'.streams, at)
    {
      WriteLeaksNothing(s.streams, g, key, Payload(ptr, bytes), (s.streams[g].sendId + 1) % 0x1_0000_0000, at);
    }
  }

  lemma {:induction false} StepLeaksNothing(cfg: Config, s: System, step: Step)
    requires Inv(cfg, s) && Enabled(cfg, s, step) && NoLeak(s)
    ensures Apply(cfg, s, step).Ok? && NoLeak(Apply(cfg, s, step).value)
  {
    hide Inv, Receive, ConsumeEntry, CompleteSend, DispatchFront, ReadFrom, WriteTo, Fifo, Owned;
    match step {
      case KernelReceive(a, data, extra) => ReceiveStep(cfg, s, a, data, extra);
      case KernelConsume => ConsumeStep(cfg, s);
      case KernelCompleteSend(i, flags) => CompleteStep(cfg, s, i, flags);
      case SubmitAll => SubmitStep(cfg, s);
      case Dispatch => DispatchLeaksNothing(cfg, s);
      case StreamRead(g, want) => ReadLeaksNothing(cfg, s, g, want);
      case StreamWrite(g, ptr, bytes) => WriteStepLeaksNothing(cfg, s, g, ptr, bytes);
    }
  }

  lemma {:induction false} RunLeaksNothing(cfg: Config, s: System, steps: seq<Step>)
    requires Inv(cfg, s) && RunEnabled(cfg, s, steps) && NoLeak(s)
    ensures Run(cfg, s, steps).Ok? && NoLeak(Run(cfg, s, steps).value)
    decreases |steps|
  {
    hide Inv, Apply, Enabled, NoLeak;
    if steps != [] {
      StepKeeps(cfg, s, steps[0]);
      StepLeaksNothing(cfg, s, steps[0]);
      RunLeaksNothing(cfg, Apply(cfg, s, steps[0]).value, steps[1..]);
    }
  }

  // ---------- Every run ----------

  /** After any run from setup, and with no new input, the system comes to rest: every stream has then
      delivered, in order, exactly the bytes the run brought in on its socket; every message the run
      wrote has been transmitted exactly once; every buffer is back in its ring; no send is pending and
      no payload is allocated. */
  lemma {:induction false} EveryRunSettles(cfg: Config, mem: seq<byte>, specs: seq<Spec>, steps: seq<Step>)
      returns (more: seq<Step>, s: System)
    requires SpecsOk(cfg, |mem|, specs) && Setup(cfg, mem, specs).Ok?
    requires RunEnabled(cfg, Setup(cfg, mem, specs).value, steps)
    ensures Reaches(cfg, Setup(cfg, mem, specs).value, steps + more, s) && NoInput(more)
    ensures Inv(cfg, s) && AtRest(s) && |s.hist| == |s.streams| == |s.groups| == |specs|
    ensures forall g :: 0 <= g < |specs| ==>
      && s.hist[g].delivered == RunData(cfg, Setup(cfg, mem, specs).value, steps, specs[g].fd)
      && (s.groups[g].ring.tail - s.groups[g].head) % 0x1_0000 == Pow2(cfg.k)
      && s.streams[g].pending == map[]
    ensures s.wire == multiset(RunMessages(cfg, Setup(cfg, mem, specs).value, steps))
    ensures s.heap == map[]
  {
    hide Inv, Run, RunEnabled, Setup, SpecsOk, Fifo, RunData, RunMessages, Recvs, AtRest, NoInput;
    SetupKeeps(cfg, mem, specs);
    var s0 := Setup(cfg, mem, specs).value;
    RunKeeps(cfg, s0, steps);
    RunAccounted(cfg, mem, specs, steps);
    var s1 := Run(cfg, s0, steps).value;
    more, s := Settles(cfg, s1);
    ReachesConcat(cfg, s0, steps, s1, more, s);
    RestMeans(cfg, s);
    SetupInitial(cfg, mem, specs);
    RunLeaksNothing(cfg, s0, steps + more);
    NothingOwned(s);
  }

  lemma NothingOwned(s: System)
    requires NoLeak(s) && forall g :: 0 <= g < |s.streams| ==> s.streams[g].pending == map[]
    ensures s.heap == map[]
  {
    forall ptr: nat
      ensures !Owned(s.streams, ptr)
    {
    }
    assert forall ptr :: ptr in s.heap ==> Owned(s.streams, ptr);
  }
}
