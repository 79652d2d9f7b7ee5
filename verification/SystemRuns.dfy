/** From setup through any run: the main results about the whole system. */
module SystemRuns {
  import opened Bits
  import opened Outcomes
  import opened BufRings
  import opened Readers
  import opened Submission
  import opened Streams
  import opened Systems
  import opened SystemSteps
  import opened SystemUser
  import UserData
  import Groups

  // ---------- Setup ----------

  /** What setup is given for one stream: its socket and receive id, the ring the kernel hands out
      (any contents, tail 0) and where the allocator puts the buffers. */
  datatype Spec = Spec(fd: nat, recvId: nat, ring: Ring, base: nat)

  function EmptySystem(cfg: Config, mem: seq<byte>): System {
    System(mem, [], [], Sq(seq(Pow2(cfg.j), i => ZEROED), 0, 0, 0), [], [], [], map[], map[], [], [], [], multiset{})
  }

  function RecvOp(g: nat, spec: Spec): Submission.Op
    requires g < 256 && spec.recvId < U32
  {
    Recv(spec.fd, 0, g, UserData.Pack(UserData.MULTISHOT_RECV, g, spec.recvId))
  }

  /** One iteration of the setup loop: a stream, its buffer group, its multishot receive. */
  function AddStream(cfg: Config, s: System, spec: Spec): Outcome<System>
    requires BufRings.Sized(spec.ring, cfg.k) && spec.recvId < U32 && |s.sq.sqes| > 0
  {
    var g := |s.streams|;
    if g >= 256 then Panic(RingPointerMissing)
    else
      match Prepare(s.sq, RecvOp(g, spec))
      case Panic(site) => Panic(site)
      case Ok(q') =>
        Ok(s.(groups := s.groups + [GroupRing(NewGroup(spec.ring, cfg.k, spec.base, cfg.size), 0, spec.base)],
              streams := s.streams + [NewStream(g, spec.recvId, spec.fd, Pow2(cfg.k))],
              sq := q',
              hist := s.hist + [History([], 0, Pow2(cfg.k), 0, map[])]))
  }

  /** The state between two iterations of the setup loop. */
  predicate Fresh(cfg: Config, s: System, specs: seq<Spec>) {
    && |s.streams| == |s.groups| == |s.hist| == |specs| <= Pow2(cfg.j)
    && |s.sq.sqes| > 0
    && Unconsumed(s.sq) == |specs|
    && s.cq == [] && s.received == map[]
    && (forall i :: 0 <= i < |specs| ==> s.streams[i].fd == specs[i].fd && s.groups[i].base == specs[i].base)
    && (forall i :: 0 <= i < |s.sq.sqes| ==> s.sq.sqes[i].addr == 0 && s.sq.sqes[i].len == 0)
  }

  predicate SpecOk(cfg: Config, size: nat, spec: Spec) {
    && spec.recvId < U32
    && BufRings.Sized(spec.ring, cfg.k) && spec.ring.tail == 0
    && Block(spec.base, cfg.size, Pow2(cfg.k)) <= size
  }

  /** The sizes the program is built with. */
  const PROGRAM: Config := Config(10, 1500, 10)

  lemma ProgramSizes()
    ensures ConfigOk(PROGRAM) && Pow2(PROGRAM.k) == 1024 && Pow2(PROGRAM.j) == 1024
  {
    assert Pow2(10) == 1024;
  }

  /** Room for every stream, distinct sockets, allocations in memory and apart. */
  predicate SpecsOk(cfg: Config, size: nat, specs: seq<Spec>) {
    && ConfigOk(cfg)
    && |specs| <= 256 && |specs| <= Pow2(cfg.j)
    && (forall i :: 0 <= i < |specs| ==> SpecOk(cfg, size, specs[i]))
    && (forall i, j :: 0 <= i < j < |specs| ==>
          && specs[i].fd != specs[j].fd
          && (|| Block(specs[i].base, cfg.size, Pow2(cfg.k)) <= specs[j].base
              || Block(specs[j].base, cfg.size, Pow2(cfg.k)) <= specs[i].base))
  }

  function Setup(cfg: Config, mem: seq<byte>, specs: seq<Spec>): Outcome<System>
    decreases |specs|
  {
    if specs == [] then Ok(EmptySystem(cfg, mem))
    else
      var last := specs[|specs| - 1];
      match Setup(cfg, mem, specs[..|specs| - 1])
      case Panic(site) => Panic(site)
      case Ok(s) =>
        if BufRings.Sized(last.ring, cfg.k) && last.recvId < U32 && |s.sq.sqes| > 0 then AddStream(cfg, s, last)
        else Panic(RingPointerMissing)
  }

  /** The setup loop: one stream, group and armed receive after another. */
  method SetupLoop(cfg: Config, mem: seq<byte>, specs: seq<Spec>) returns (r: Outcome<System>)
    requires SpecsOk(cfg, |mem|, specs)
    ensures r == Setup(cfg, mem, specs)
    ensures r.Ok? && |r.value.streams| == |specs|
  {
    hide AddStream, BufRings.Sized, Inv, SpecOk;
    var s := EmptySystem(cfg, mem);
    for i := 0 to |specs|
      invariant Setup(cfg, mem, specs[..i]) == Ok(s)
    {
      PrefixesOk(cfg, |mem|, specs, i + 1);
      SetupKeeps(cfg, mem, specs[..i + 1]);
      assert specs[..i + 1][..i] == specs[..i] && specs[..i + 1][i] == specs[i];
      var added := AddStream(cfg, s, specs[i]);
      s := added.value;
    }
    assert specs[..|specs|] == specs;
    SetupKeeps(cfg, mem, specs);
    r := Ok(s);
  }

  lemma PrefixesOk(cfg: Config, size: nat, specs: seq<Spec>, n: nat)
    requires SpecsOk(cfg, size, specs) && n <= |specs|
    ensures SpecsOk(cfg, size, specs[..n])
  {
    hide SpecOk;
  }

  lemma {:induction false} EmptyInv(cfg: Config, mem: seq<byte>)
    requires ConfigOk(cfg)
    ensures Inv(cfg, EmptySystem(cfg, mem)) && Fresh(cfg, EmptySystem(cfg, mem), [])
  {
    hide UserData.EventOf, UserData.OwnerOf;
    var s := EmptySystem(cfg, mem);
    assert Fifo(s.sq) == [];
    assert Tokens(s) == multiset{};
  }

  /** A freshly filled ring with nothing out of it satisfies the group invariant. */
  lemma {:induction false} NewGroupInv(cfg: Config, mem: seq<byte>, spec: Spec, g: nat)
    requires ConfigOk(cfg) && SpecOk(cfg, |mem|, spec)
    ensures var ring := NewGroup(spec.ring, cfg.k, spec.base, cfg.size);
      Groups.Inv(
        Groups.Params(cfg.k, spec.base, cfg.size, g), mem, Groups.Group(ring, 0, [], [], [], [], 0, Pow2(cfg.k)))
  {
    var p := Groups.Params(cfg.k, spec.base, cfg.size, g);
    var v := Groups.Group(NewGroup(spec.ring, cfg.k, spec.base, cfg.size), 0, [], [], [], [], 0, Pow2(cfg.k));
    SetupIdentityIff(spec.ring, cfg.k, spec.base, cfg.size);
    SetupTail(spec.ring, cfg.k, spec.base, cfg.size);
    assert Groups.OutChunks(p, v) == [];
  }

  lemma {:induction false} PreparedRecv(q: Sq, j: nat, op: Submission.Op)
    requires Valid(q, j) && Unconsumed(q) < |q.sqes| && op.Recv? && op.flags == 0
    requires forall i :: 0 <= i < |q.sqes| ==> q.sqes[i].off == 0 && q.sqes[i].addr == 0 && q.sqes[i].len == 0
    ensures Prepare(q, op).Ok? && Valid(Prepare(q, op).value, j)
    ensures Fifo(Prepare(q, op).value) == Fifo(q) + [Intended(op)]
    ensures |Prepare(q, op).value.sqes| == |q.sqes|
    ensures forall i :: 0 <= i < |q.sqes| ==>
      && Prepare(q, op).value.sqes[i].off == 0
      && Prepare(q, op).value.sqes[i].addr == 0 && Prepare(q, op).value.sqes[i].len == 0
  {
    hide Prepare, Submission.Fill, Intended, Fifo;
    assert And(0, MSG_WAITALL) == 0;
    PrepareAppends(q, j, op);
    PrepareValue(q, j, op);
    FillIsIntendedIff(q.sqes[Mod(q.tail, |q.sqes|)], op);
  }

  /** Appending a stream with nothing pending changes nothing for the others. */
  lemma {:induction false} RoutedWithNew(streams: seq<Stream>, st: Stream, es: seq<Sqe>)
    requires |streams| < 256 && st.pending == map[]
    ensures forall i :: 0 <= i < |es| && SendEntryOk(streams, es[i]) ==> SendEntryOk(streams + [st], es[i])
    ensures forall i :: 0 <= i < |es| && RecvEntryOk(streams, es[i]) ==> RecvEntryOk(streams + [st], es[i])
  {
    hide UserData.Pack, UserData.OwnerOf, UserData.EventOf, Intended;
  }

  lemma {:induction false} AddedStream(cfg: Config, s: System, specs: seq<Spec>, spec: Spec) returns (s': System)
    requires Inv(cfg, s) && Fresh(cfg, s, specs) && SpecsOk(cfg, |s.mem|, specs + [spec])
    ensures BufRings.Sized(spec.ring, cfg.k) && spec.recvId < U32 && |s.sq.sqes| > 0 && |s.streams| < 256
    ensures |s.streams| == |specs|
    ensures s' == s.(groups := s.groups + [GroupRing(NewGroup(spec.ring, cfg.k, spec.base, cfg.size), 0, spec.base)],
                     streams := s.streams + [NewStream(|specs|, spec.recvId, spec.fd, Pow2(cfg.k))],
                     sq := s'.sq, hist := s.hist + [History([], 0, Pow2(cfg.k), 0, map[])])
    ensures Valid(s'.sq, cfg.j) && Fifo(s'.sq) == Fifo(s.sq) + [Intended(RecvOp(|specs|, spec))]
    ensures |s'.sq.sqes| == |s.sq.sqes|
    ensures forall i :: 0 <= i < |s'.sq.sqes| ==>
      s'.sq.sqes[i].off == 0 && s'.sq.sqes[i].addr == 0 && s'.sq.sqes[i].len == 0
    ensures AddStream(cfg, s, spec) == Ok(s')
  {
    hide Prepare, Fifo, Intended, UserData.Pack, GroupInv, SendInv, SendEntryOk, RecvEntryOk, CqeOk, NewGroup;
    assert (specs + [spec])[|specs|] == spec;
    PreparedRecv(s.sq, cfg.j, RecvOp(|specs|, spec));
    s' := AddStream(cfg, s, spec).value;
  }

  lemma {:induction false} AddedSendSide(cfg: Config, s: System, g: nat, st: Stream, h: History, e: Sqe, s': System)
    requires |s.streams| == |s.hist| == g < 256 && |s.sq.sqes| > 0 && |s'.sq.sqes| > 0
    requires SendInv(cfg, s) && RouteInv(s) && s.cq == []
    requires st.pending == map[] && s'.streams == s.streams + [st] && s'.hist == s.hist + [h]
    requires Fifo(s'.sq) == Fifo(s.sq) + [e] && e.opcode == OP_RECV && RecvEntryOk(s'.streams, e)
    requires forall i :: 0 <= i < |s'.sq.sqes| ==> s'.sq.sqes[i].off == 0
    requires s'.armed == s.armed && s'.sends == s.sends && s'.cq == s.cq && s'.heap == s.heap
    requires s'.written == s.written && s'.accepted == s.accepted && s'.wire == s.wire
    ensures SendInv(cfg, s') && RouteInv(s')
  {
    hide UserData.OwnerOf, UserData.EventOf, Fifo, EntryKeys, CompletionKeys, Flights, SendEntryOk,
      RecvEntryOk, CqeOk, KeyOfIssue, HeapInv, NumberInv;
    RoutedWithNew(s.streams, st, Fifo(s.sq));
    RoutedWithNew(s.streams, st, s.armed);
    RoutedWithNew(s.streams, st, s.sends);
    EntryKeysConcat(Fifo(s.sq), [e]);
    EntryKeysOne(e);
    FlightsConcat(s.heap, Fifo(s.sq), [e]);
    FlightsOne(s.heap, e);
    assert Tokens(s') == Tokens(s);
    forall k: nat
      ensures PendingUnder(s'.streams, k) == PendingUnder(s.streams, k)
    {
    }
    AddedHeap(s.streams, st, s.heap);
    AddedNumbers(s.streams, st, s.hist, h);
  }

  lemma AddedNumbers(streams: seq<Stream>, st: Stream, hist: seq<History>, h: History)
    requires |streams| == |hist| < 256 && NumberInv(streams, hist) && st.pending == map[]
    ensures NumberInv(streams + [st], hist + [h])
  {
    hide KeyOfIssue;
    forall g, key | 0 <= g < |streams + [st]| <= 256 && key in (streams + [st])[g].pending
      ensures key in (hist + [h])[g].numbers
      ensures (hist + [h])[g].numbers[key] < (hist + [h])[g].issued
      ensures key == KeyOfIssue(g, (hist + [h])[g].numbers[key])
    {
      assert g < |streams| && key in streams[g].pending;
    }
  }

  lemma AddedHeap(streams: seq<Stream>, st: Stream, heap: map<nat, seq<byte>>)
    requires HeapInv(streams, heap) && st.pending == map[]
    ensures HeapInv(streams + [st], heap)
  {
    hide UserData.OwnerOf, UserData.EventOf, AliveAt;
    assert forall k: nat :: PendingUnder(streams + [st], k) == PendingUnder(streams, k);
    forall g, k | 0 <= g < |streams + [st]| && k in (streams + [st])[g].pending
      ensures AliveAt(heap, g, k, (streams + [st])[g].pending[k])
    {
      assert AliveAt(heap, g, k, streams[g].pending[k]);
    }
  }

  lemma {:induction false} AddedRecvSide(cfg: Config, s: System, specs: seq<Spec>, spec: Spec, s': System)
    requires RecvInv(cfg, s) && Fresh(cfg, s, specs) && SpecsOk(cfg, |s.mem|, specs + [spec])
    requires BufRings.Sized(spec.ring, cfg.k)
    requires s'.groups == s.groups + [GroupRing(NewGroup(spec.ring, cfg.k, spec.base, cfg.size), 0, spec.base)]
    requires s'.streams == s.streams + [NewStream(|specs|, spec.recvId, spec.fd, Pow2(cfg.k))]
    requires s'.hist == s.hist + [History([], 0, Pow2(cfg.k), 0, map[])]
    requires s'.cq == [] && s'.received == map[] && s'.mem == s.mem && WellSized(cfg, s')
    ensures RecvInv(cfg, s')
  {
    hide Groups.Inv, NewGroup;
    var all := specs + [spec];
    assert all[|specs|] == spec;
    NewGroupInv(cfg, s.mem, spec, |specs|);
    forall g | 0 <= g < |s'.groups|
      ensures GroupInv(cfg, s', g)
    {
      if g < |specs| {
        assert GroupInv(cfg, s, g);
        assert View(s', g) == View(s, g) && GroupParams(cfg, s'.groups, g) == GroupParams(cfg, s.groups, g);
      }
    }
    AddedApart(cfg, s.groups, s'.groups, all);
  }

  lemma {:induction false} AddedApart(cfg: Config, groups: seq<GroupRing>, groups': seq<GroupRing>, specs: seq<Spec>)
    requires |groups'| == |groups| + 1 == |specs| && groups'[..|groups|] == groups
    requires forall i :: 0 <= i < |specs| ==> groups'[i].base == specs[i].base
    requires forall i, j :: 0 <= i < j < |specs| ==>
      || Block(specs[i].base, cfg.size, Pow2(cfg.k)) <= specs[j].base
      || Block(specs[j].base, cfg.size, Pow2(cfg.k)) <= specs[i].base
    ensures Apart(cfg, groups')
  {
  }

  lemma {:induction false} AddStreamKeeps(cfg: Config, s: System, specs: seq<Spec>, spec: Spec) returns (s': System)
    requires Inv(cfg, s) && Fresh(cfg, s, specs) && SpecsOk(cfg, |s.mem|, specs + [spec])
    ensures BufRings.Sized(spec.ring, cfg.k) && spec.recvId < U32 && |s.sq.sqes| > 0
    ensures AddStream(cfg, s, spec) == Ok(s') && s'.mem == s.mem
    ensures Inv(cfg, s') && Fresh(cfg, s', specs + [spec])
  {
    hide UserData.Pack, UserData.OwnerOf, UserData.EventOf, UserData.ReqOf, AddStream, GroupInv, NewGroup,
      TokenInv, HeapInv, Ledger, NumberInv, SendEntryOk, CqeOk, Fifo, Apart;
    s' := AddedStream(cfg, s, specs, spec);
    var all := specs + [spec];
    assert all[|specs|] == spec;
    var e := Intended(RecvOp(|specs|, spec));
    assert RecvEntryOk(s'.streams, e);
    AddedSendSide(cfg, s, |specs|, s'.streams[|specs|], s'.hist[|specs|], e, s');
    AddedStreams(cfg, s, s', all);
    AddedRecvSide(cfg, s, specs, spec, s');
  }

  lemma {:induction false} AddedStreams(cfg: Config, s: System, s': System, specs: seq<Spec>)
    requires ConfigOk(cfg) && |s.streams| == |s.hist| && StreamsInv(cfg, s.streams, s.hist)
    requires 0 < |specs| == |s.streams| + 1 <= 256
    requires forall i :: 0 <= i < |s.streams| ==> s.streams[i].fd == specs[i].fd
    requires forall i, j :: 0 <= i < j < |specs| ==> specs[i].fd != specs[j].fd
    requires specs[|specs| - 1].recvId < U32
    requires s'.streams ==
      s.streams + [NewStream(|s.streams|, specs[|specs| - 1].recvId, specs[|specs| - 1].fd, Pow2(cfg.k))]
    requires s'.hist == s.hist + [History([], 0, Pow2(cfg.k), 0, map[])]
    ensures StreamsInv(cfg, s'.streams, s'.hist)
  {
  }

  lemma {:induction false} SetupKeeps(cfg: Config, mem: seq<byte>, specs: seq<Spec>)
    requires SpecsOk(cfg, |mem|, specs)
    ensures Setup(cfg, mem, specs).Ok?
    ensures var s := Setup(cfg, mem, specs).value; Inv(cfg, s) && Fresh(cfg, s, specs) && s.mem == mem
    decreases |specs|
  {
    hide Inv, AddStream, BufRings.Sized, Fresh;
    if specs == [] {
      EmptyInv(cfg, mem);
    } else {
      var front, last := specs[..|specs| - 1], specs[|specs| - 1];
      assert front + [last] == specs;
      PrefixesOk(cfg, |mem|, specs, |specs| - 1);
      SetupKeeps(cfg, mem, front);
      var s := Setup(cfg, mem, front).value;
      var s' := AddStreamKeeps(cfg, s, front, last);
    }
  }

  /** The receive entries of some streams, in order. */
  function RecvEntries(specs: seq<Spec>): (es: seq<Sqe>)
    requires |specs| <= 256 && forall i :: 0 <= i < |specs| ==> specs[i].recvId < U32
    ensures |es| == |specs| && forall i :: 0 <= i < |es| ==> es[i] == Intended(RecvOp(i, specs[i]))
  {
    seq(|specs|, i requires 0 <= i < |specs| => Intended(RecvOp(i, specs[i])))
  }

  /** The state setup is meant to leave: every stream new, every ring filled and published, one
      receive per stream waiting in the submission ring, and nothing else anywhere. */
  predicate Initial(cfg: Config, mem: seq<byte>, specs: seq<Spec>, s: System)
    requires |specs| <= 256 && forall i :: 0 <= i < |specs| ==> specs[i].recvId < U32
  {
    && |s.streams| == |s.groups| == |s.hist| == |specs|
    && (forall i :: 0 <= i < |specs| ==>
          && s.streams[i] == NewStream(i, specs[i].recvId, specs[i].fd, Pow2(cfg.k))
          && s.groups[i].base == specs[i].base && s.groups[i].head == 0
          && s.groups[i].ring.tail == Pow2(cfg.k) && Identity(s.groups[i].ring, specs[i].base, cfg.size)
          && s.hist[i] == History([], 0, Pow2(cfg.k), 0, map[]))
    && |s.sq.sqes| > 0 && Fifo(s.sq) == RecvEntries(specs)
    && s.mem == mem && s.armed == [] && s.sends == [] && s.cq == [] && s.heap == map[] && s.received == map[]
    && s.written == [] && s.accepted == [] && s.wire == multiset{}
  }

  lemma {:induction false} SetupInitial(cfg: Config, mem: seq<byte>, specs: seq<Spec>)
    requires SpecsOk(cfg, |mem|, specs)
    ensures forall i :: 0 <= i < |specs| ==> specs[i].recvId < U32
    ensures Setup(cfg, mem, specs).Ok? && Initial(cfg, mem, specs, Setup(cfg, mem, specs).value)
    decreases |specs|
  {
    hide Inv, AddStream, BufRings.Sized, Fresh, Initial, Fifo;
    SetupKeeps(cfg, mem, specs);
    if specs == [] {
      EmptyInitial(cfg, mem);
    } else {
      var front, last := specs[..|specs| - 1], specs[|specs| - 1];
      assert front + [last] == specs;
      PrefixesOk(cfg, |mem|, specs, |specs| - 1);
      SetupKeeps(cfg, mem, front);
      SetupInitial(cfg, mem, front);
      AddedInitial(cfg, mem, front, last, Setup(cfg, mem, front).value);
    }
  }

  lemma EmptyInitial(cfg: Config, mem: seq<byte>)
    ensures Initial(cfg, mem, [], EmptySystem(cfg, mem))
  {
    assert Fifo(EmptySystem(cfg, mem).sq) == [];
  }

  lemma {:induction false} AddedInitial(cfg: Config, mem: seq<byte>, specs: seq<Spec>, spec: Spec, s: System)
    requires SpecsOk(cfg, |mem|, specs + [spec]) && |s.mem| == |mem|
    requires Inv(cfg, s) && Fresh(cfg, s, specs)
    requires forall i :: 0 <= i < |specs| ==> specs[i].recvId < U32
    requires Initial(cfg, mem, specs, s)
    ensures BufRings.Sized(spec.ring, cfg.k) && spec.recvId < U32 && |s.sq.sqes| > 0 && AddStream(cfg, s, spec).Ok?
    ensures forall i :: 0 <= i < |specs + [spec]| ==> (specs + [spec])[i].recvId < U32
    ensures Initial(cfg, mem, specs + [spec], AddStream(cfg, s, spec).value)
  {
    hide Inv, AddStream, Fresh, Fifo, NewGroup, UserData.Pack, Intended, Identity;
    var all := specs + [spec];
    assert all[|specs|] == spec;
    var s' := AddedStream(cfg, s, specs, spec);
    NewRing(cfg, spec);
    forall i | 0 <= i < |specs|
      ensures all[i] == specs[i]
    {
    }
    assert RecvEntries(all) == RecvEntries(specs) + [Intended(RecvOp(|specs|, spec))];
  }

  lemma NewRing(cfg: Config, spec: Spec)
    requires ConfigOk(cfg) && BufRings.Sized(spec.ring, cfg.k) && spec.ring.tail == 0
    ensures var ring := NewGroup(spec.ring, cfg.k, spec.base, cfg.size);
      ring.tail == Pow2(cfg.k) && Identity(ring, spec.base, cfg.size)
  {
    SetupIdentityIff(spec.ring, cfg.k, spec.base, cfg.size);
    SetupTail(spec.ring, cfg.k, spec.base, cfg.size);
    RingFits(cfg.k);
  }

  // ---------- Runs ----------

  predicate RunEnabled(cfg: Config, s: System, steps: seq<Step>)
    decreases |steps|
  {
    steps == [] || (Enabled(cfg, s, steps[0]) &&
      (Apply(cfg, s, steps[0]).Ok? ==> RunEnabled(cfg, Apply(cfg, s, steps[0]).value, steps[1..])))
  }

  function Run(cfg: Config, s: System, steps: seq<Step>): Outcome<System>
    requires RunEnabled(cfg, s, steps)
    decreases |steps|
  {
    if steps == [] then Ok(s)
    else
      match Apply(cfg, s, steps[0])
      case Panic(site) => Panic(site)
      case Ok(s') => Run(cfg, s', steps[1..])
  }

  /** No step of the kernel or of user code aborts, and every step keeps the invariant. */
  lemma {:induction false} StepKeeps(cfg: Config, s: System, step: Step)
    requires Inv(cfg, s) && Enabled(cfg, s, step)
    ensures Kept(cfg, Apply(cfg, s, step))
  {
    hide Inv, Receive, ConsumeEntry, CompleteSend, DispatchFront, ReadFrom, WriteTo, WellSized;
    match step {
      case KernelReceive(a, data, extra) => ReceiveStep(cfg, s, a, data, extra);
      case KernelConsume => ConsumeStep(cfg, s);
      case KernelCompleteSend(i, flags) => CompleteStep(cfg, s, i, flags);
      case SubmitAll => SubmitStep(cfg, s);
      case Dispatch => DispatchStep(cfg, s);
      case StreamRead(g, want) => ReadStep(cfg, s, g, want);
      case StreamWrite(g, ptr, bytes) => WriteStep(cfg, s, g, ptr, bytes);
    }
  }

  lemma {:induction false} RunKeeps(cfg: Config, s: System, steps: seq<Step>)
    requires Inv(cfg, s) && RunEnabled(cfg, s, steps)
    ensures Kept(cfg, Run(cfg, s, steps))
    decreases |steps|
  {
    hide Inv, Apply, Enabled;
    if steps != [] {
      StepKeeps(cfg, s, steps[0]);
      RunKeeps(cfg, Apply(cfg, s, steps[0]).value, steps[1..]);
    }
  }

  // ---------- Composing runs ----------

  ghost predicate Reaches(cfg: Config, s: System, steps: seq<Step>, s': System) {
    RunEnabled(cfg, s, steps) && Run(cfg, s, steps) == Ok(s')
  }

  lemma ReachesOne(cfg: Config, s: System, step: Step, s': System)
    requires Enabled(cfg, s, step) && Apply(cfg, s, step) == Ok(s')
    ensures Reaches(cfg, s, [step], s')
  {
    hide Enabled, Apply;
    assert [step][0] == step && [step][1..] == [];
    assert RunEnabled(cfg, s', []) && Run(cfg, s', []) == Ok(s');
  }

  lemma {:induction false} ReachesConcat(cfg: Config, s: System, a: seq<Step>, s1: System, b: seq<Step>, s2: System)
    requires Reaches(cfg, s, a, s1) && Reaches(cfg, s1, b, s2)
    ensures Reaches(cfg, s, a + b, s2)
    decreases |a|
  {
    hide Enabled, Apply;
    if a == [] {
      assert a + b == b;
    } else {
      assert (a + b)[0] == a[0] && (a + b)[1..] == a[1..] + b;
      ReachesConcat(cfg, Apply(cfg, s, a[0]).value, a[1..], s1, b, s2);
    }
  }

  // ---------- What the steps of a run bring in ----------

  /** The bytes a step brings in on a socket. */
  function DataOf(s: System, step: Step, fd: nat): seq<byte> {
    if step.KernelReceive? && step.a < |s.armed| && s.armed[step.a].fd == fd then step.data else []
  }

  /** The message a step writes. */
  function MessagesOf(s: System, step: Step): seq<Message> {
    if step.StreamWrite? && step.g < |s.streams| then [Message(s.streams[step.g].fd, step.bytes)] else []
  }

  /** The receive entries among some entries. */
  function Recvs(es: seq<Sqe>): seq<Sqe> {
    if es == [] then [] else (if es[0].opcode == OP_SEND then [] else [es[0]]) + Recvs(es[1..])
  }

  lemma {:induction false} RecvsConcat(a: seq<Sqe>, b: seq<Sqe>)
    ensures Recvs(a + b) == Recvs(a) + Recvs(b)
    decreases |a|
  {
    if a == [] {
      assert a + b == b;
    } else {
      assert (a + b)[1..] == a[1..] + b;
      RecvsConcat(a[1..], b);
    }
  }

  lemma RecvsOne(e: Sqe)
    ensures Recvs([e]) == if e.opcode == OP_SEND then [] else [e]
  {
    assert [e][1..] == [];
  }

  /** The same streams on the same sockets. */
  predicate SameStreams(s: System, s': System) {
    && |s'.streams| == |s.streams|
    && forall g :: 0 <= g < |s.streams| ==>
         s'.streams[g].fd == s.streams[g].fd && s'.streams[g].owner == s.streams[g].owner
         && s'.streams[g].recvId == s.streams[g].recvId
  }

  /** What a step changes of the bytes received, the messages written, and the receives armed or
      waiting to be. */
  ghost predicate Effect(s: System, step: Step, s': System) {
    && SameStreams(s, s')
    && (forall fd: nat :: ReceivedOn(s'.received, fd) == ReceivedOn(s.received, fd) + DataOf(s, step, fd))
    && s'.written == s.written + MessagesOf(s, step)
    && |s.sq.sqes| > 0 && |s'.sq.sqes| > 0
    && s'.armed + Recvs(Fifo(s'.sq)) == s.armed + Recvs(Fifo(s.sq))
  }

  lemma {:induction false} ReceiveEffect(cfg: Config, s: System, a: nat, data: seq<byte>, extra: nat)
    requires Inv(cfg, s) && Enabled(cfg, s, KernelReceive(a, data, extra))
    ensures Apply(cfg, s, KernelReceive(a, data, extra)).Ok?
    ensures Effect(s, KernelReceive(a, data, extra), Apply(cfg, s, KernelReceive(a, data, extra)).value)
  {
    hide Fifo, And, Bit, BufferIdOf, Inv, Recvs, Receive, Submission.Valid, NextSlot;
    SqOfInv(cfg, s);
    ReceiveStep(cfg, s, a, data, extra);
  }

  lemma {:induction false} ConsumeEffect(cfg: Config, s: System)
    requires Inv(cfg, s) && CanConsume(s.sq)
    ensures |s.sq.sqes| > 0 && ConsumeEntry(s).Ok? && Effect(s, KernelConsume, ConsumeEntry(s).value)
  {
    hide Fifo, Inv, Recvs, ConsumeEntry;
    ConsumeStep(cfg, s);
    var s' := ConsumeEntry(s).value;
    var e := Fifo(s.sq)[0];
    RecvsConcat([e], Fifo(s'.sq));
    RecvsOne(e);
  }

  lemma {:induction false} WriteEffect(cfg: Config, s: System, g: nat, ptr: nat, bytes: seq<byte>)
    requires Inv(cfg, s) && WellSized(cfg, s) && g < |s.streams|
    requires 0 < |bytes| < 0x8000_0000 && Unconsumed(s.sq) < |s.sq.sqes| && ptr !in s.heap
    requires YoungPending(s.streams[g], s.hist[g])
    ensures WriteTo(cfg, s, g, ptr, bytes).Ok?
    ensures Effect(s, StreamWrite(g, ptr, bytes), WriteTo(cfg, s, g, ptr, bytes).value)
  {
    hide Fifo, Inv, Recvs, WriteTo, WellSized, SendKey, YoungPending;
    assert |s.sq.sqes| > 0;
    var s', key, e := WriteHandled(cfg, s, g, ptr, bytes);
    RecvsConcat(Fifo(s.sq), [e]);
    RecvsOne(e);
  }

  lemma {:induction false} DispatchEffect(cfg: Config, s: System)
    requires Inv(cfg, s) && s.cq != []
    ensures DispatchFront(s).Ok? && Effect(s, Dispatch, DispatchFront(s).value)
    ensures DispatchFront(s).value.cq == s.cq[1..]
  {
    hide Fifo, RecvInv, StreamsInv, SendInv, Recvs, DispatchFront, UserData.EventOf, UserData.OwnerOf, UserData.ReqOf,
      And, SendEntryOk, RecvEntryOk, GetReadBuf;
    SqNotEmpty(cfg, s);
    assert CqeOk(s.streams, s.cq[0]);
    if UserData.EventOf(s.cq[0].userData) == UserData.SEND { SendHandled(cfg, s); } else { RecvHandled(cfg, s); }
  }

  lemma {:induction false} StepEffect(cfg: Config, s: System, step: Step)
    requires Inv(cfg, s) && Enabled(cfg, s, step)
    ensures Apply(cfg, s, step).Ok? && Effect(s, step, Apply(cfg, s, step).value)
  {
    hide Inv, Receive, ConsumeEntry, CompleteSend, DispatchFront, ReadFrom, WriteTo, Fifo, Recvs;
    StepKeeps(cfg, s, step);
    match step {
      case KernelReceive(a, data, extra) => ReceiveEffect(cfg, s, a, data, extra);
      case KernelConsume => ConsumeEffect(cfg, s);
      case KernelCompleteSend(i, flags) => CompleteStep(cfg, s, i, flags);
      case SubmitAll => SubmitStep(cfg, s);
      case Dispatch => DispatchEffect(cfg, s);
      case StreamRead(g, want) => ReadEffect(cfg, s, g, want);
      case StreamWrite(g, ptr, bytes) => WriteEffect(cfg, s, g, ptr, bytes);
    }
  }

  lemma {:induction false} ReadEffect(cfg: Config, s: System, g: nat, want: nat)
    requires Inv(cfg, s) && WellSized(cfg, s) && g < |s.streams| && want > 0
    ensures ReadFrom(cfg, s, g, want).Ok? && Effect(s, StreamRead(g, want), ReadFrom(cfg, s, g, want).value)
  {
    hide RecvInv, RouteInv, SendInv, StreamsInv, Fifo, Recvs, ReadFrom, GroupParams, View;
    ReadIsGroupRead(cfg, s, g, want);
  }

  /** Over a run: all bytes its receives bring in on a socket, in order. */
  function RunData(cfg: Config, s: System, steps: seq<Step>, fd: nat): seq<byte>
    requires RunEnabled(cfg, s, steps)
    decreases |steps|
  {
    if steps == [] then []
    else
      match Apply(cfg, s, steps[0])
      case Panic(_) => []
      case Ok(s') => DataOf(s, steps[0], fd) + RunData(cfg, s', steps[1..], fd)
  }

  /** Over a run: all messages its writes are given, in order. */
  function RunMessages(cfg: Config, s: System, steps: seq<Step>): seq<Message>
    requires RunEnabled(cfg, s, steps)
    decreases |steps|
  {
    if steps == [] then []
    else
      match Apply(cfg, s, steps[0])
      case Panic(_) => []
      case Ok(s') => MessagesOf(s, steps[0]) + RunMessages(cfg, s', steps[1..])
  }

  lemma {:induction false} RunEffect(cfg: Config, s: System, steps: seq<Step>)
    requires Inv(cfg, s) && RunEnabled(cfg, s, steps)
    ensures Run(cfg, s, steps).Ok? && |s.sq.sqes| > 0 && |Run(cfg, s, steps).value.sq.sqes| > 0
    ensures var s' := Run(cfg, s, steps).value;
      && SameStreams(s, s')
      && (forall fd: nat :: ReceivedOn(s'.received, fd) == ReceivedOn(s.received, fd) + RunData(cfg, s, steps, fd))
      && s'.written == s.written + RunMessages(cfg, s, steps)
      && s'.armed + Recvs(Fifo(s'.sq)) == s.armed + Recvs(Fifo(s.sq))
    decreases |steps|
  {
    hide Inv, Apply, Enabled, Fifo, Recvs, ReceivedOn, DataOf, MessagesOf;
    SqOfInv(cfg, s);
    if steps != [] {
      StepKeeps(cfg, s, steps[0]);
      StepEffect(cfg, s, steps[0]);
      var s1 := Apply(cfg, s, steps[0]).value;
      RunEffect(cfg, s1, steps[1..]);
      forall fd: nat
        ensures ReceivedOn(Run(cfg, s, steps).value.received, fd) ==
          ReceivedOn(s.received, fd) + RunData(cfg, s, steps, fd)
      {
        Regroup(ReceivedOn(s.received, fd), DataOf(s, steps[0], fd), RunData(cfg, s1, steps[1..], fd));
      }
      SeqAssoc(s.written, MessagesOf(s, steps[0]), RunMessages(cfg, s1, steps[1..]));
    }
  }

  lemma SqOfInv(cfg: Config, s: System)
    requires Inv(cfg, s)
    ensures |s.sq.sqes| > 0
  {
    hide RouteInv, SendInv, StreamsInv;
    SqNotEmpty(cfg, s);
  }

  // ---------- What the invariant means ----------

  /** End to end: the bytes reads have returned, then the unclaimed bytes queued, then the bytes of
      completions not yet handled, are the bytes the kernel received on that socket. */
  lemma {:induction false} StreamIntegrity(cfg: Config, s: System, g: nat)
    requires Inv(cfg, s) && g < |s.streams|
    ensures s.hist[g].delivered
        + Content(s.mem, QueueChunks(s.streams[g].queue))
        + Content(s.mem, Groups.PostedChunks(GroupParams(cfg, s.groups, g), PostedFor(s.cq, g)))
        == ReceivedOn(s.received, s.streams[g].fd)
  {
    hide UserData.OwnerOf, UserData.EventOf, Content, PostedFor, SendInv, SendEntryOk, RecvEntryOk, CqeOk;
    assert GroupInv(cfg, s, g);
    var a, b := QueueChunks(s.streams[g].queue), Groups.PostedChunks(GroupParams(cfg, s.groups, g), PostedFor(s.cq, g));
    ContentConcat(s.mem, a, b);
    Regroup(s.hist[g].delivered, Content(s.mem, a), Content(s.mem, b));
  }

  /** The reader queue never reallocates: its capacity is still the one chosen at creation, and the
      group cannot have more buffers out than that. */
  lemma {:induction false} QueueBound(cfg: Config, s: System, g: nat)
    requires Inv(cfg, s) && g < |s.streams|
    ensures |s.streams[g].queue| + |PostedFor(s.cq, g)| <= s.streams[g].capacity == Pow2(cfg.k)
  {
    hide UserData.OwnerOf, UserData.EventOf, PostedFor, SendInv, SendEntryOk, RecvEntryOk, CqeOk;
    assert GroupInv(cfg, s, g);
  }

  /** Each buffer of each group is in exactly one place, and the wrapped indices count the available
      ones. */
  lemma {:induction false} BuffersConserved(cfg: Config, s: System, g: nat)
    requires Inv(cfg, s) && g < |s.streams|
    ensures BufRings.Sized(s.groups[g].ring, cfg.k)
    ensures var p := GroupParams(cfg, s.groups, g); var places := Groups.Places(p, View(s, g));
      && |places| == Pow2(cfg.k)
      && (forall i, j :: 0 <= i < j < |places| ==> places[i] != places[j])
      && (forall b :: 0 <= b < Pow2(cfg.k) ==> b in places)
    ensures Identity(s.groups[g].ring, s.groups[g].base, cfg.size)
    ensures var available := (s.groups[g].ring.tail - s.groups[g].head) % 0x1_0000;
      |s.streams[g].queue| + |PostedFor(s.cq, g)| + available == Pow2(cfg.k)
    ensures s.hist[g].returned + |s.streams[g].queue| + |PostedFor(s.cq, g)| == s.hist[g].taken + Pow2(cfg.k)
  {
    hide UserData.OwnerOf, UserData.EventOf, PostedFor, SendInv, SendEntryOk, RecvEntryOk, CqeOk, Groups.Places;
    assert GroupInv(cfg, s, g);
    Groups.Conservation(GroupParams(cfg, s.groups, g), View(s, g));
  }

  /** The buffers of stream g's group: queued, completed, published. */
  function BuffersOf(cfg: Config, s: System, g: nat): seq<Slot>
    requires g < |s.groups| == |s.streams| == |s.hist| && GroupInv(cfg, s, g)
  {
    Groups.Buffers(GroupParams(cfg, s.groups, g), View(s, g))
  }

  /** No two buffers of the whole system overlap, whoever holds them, and all are in memory. */
  lemma {:induction false} AllBuffersApart(cfg: Config, s: System, g: nat, i: nat, h: nat, j: nat)
    requires Inv(cfg, s) && g < |s.streams| && h < |s.streams| && i < Pow2(cfg.k) && j < Pow2(cfg.k)
    requires g != h || i != j
    ensures |s.groups| == |s.streams| == |s.hist| && GroupInv(cfg, s, g) && GroupInv(cfg, s, h)
    ensures |BuffersOf(cfg, s, g)| == |BuffersOf(cfg, s, h)| == Pow2(cfg.k)
    ensures var a, b := BuffersOf(cfg, s, g)[i], BuffersOf(cfg, s, h)[j];
      && a.addr + a.len <= |s.mem| && b.addr + b.len <= |s.mem|
      && a.len == b.len == cfg.size
      && (a.addr + a.len <= b.addr || b.addr + b.len <= a.addr)
  {
    hide RouteInv, SendInv, StreamsInv, Groups.Faithful, Groups.Buffers, Groups.Layout, PostedFor;
    var p, q := GroupParams(cfg, s.groups, g), GroupParams(cfg, s.groups, h);
    assert GroupInv(cfg, s, g) && GroupInv(cfg, s, h);
    if g == h {
      Groups.BuffersApart(p, View(s, g), if i < j then i else j, if i < j then j else i);
      Groups.BufferInArea(p, View(s, g), i);
      Groups.BufferInArea(p, View(s, g), j);
    } else {
      Groups.BufferInArea(p, View(s, g), i);
      Groups.BufferInArea(q, View(s, h), j);
      AreasApart(cfg, s.groups, g, h);
    }
  }

  /** No buffer is ever lost: in every reachable state the kernel can receive on an armed stream
      exactly when fewer buffers than the group has are out, and then up to a whole buffer. */
  lemma {:induction false} CanReceiveIff(cfg: Config, s: System, a: nat, data: seq<byte>)
    requires Inv(cfg, s) && a < |s.armed|
    ensures s.armed[a].bufIndex < |s.streams|
    ensures var g := s.armed[a].bufIndex;
      Enabled(cfg, s, KernelReceive(a, data, 1)) <==>
        0 < |data| <= cfg.size && |s.streams[g].queue| + |PostedFor(s.cq, g)| < Pow2(cfg.k)
  {
    hide UserData.OwnerOf, UserData.EventOf, UserData.Pack, PostedFor, SendInv, SendEntryOk, CqeOk, Intended, And, Mod;
    assert RecvEntryOk(s.streams, s.armed[a]);
    var g := s.armed[a].bufIndex;
    assert GroupInv(cfg, s, g);
    NextIsHome(GroupParams(cfg, s.groups, g), s.mem, View(s, g));
    BitsOfOne();
  }

  lemma NextIsHome(p: Groups.Params, mem: seq<byte>, v: Groups.Group)
    requires Groups.Inv(p, mem, v)
    ensures BufRings.Sized(v.ring, p.k) && Groups.NextEntry(p, v).len == p.size
    ensures v.head != v.ring.tail <==> |v.queue| + |v.posted| < Groups.Count(p)
  {
    Groups.NextEntryIsHome(p, v);
    WrappedTail(v.taken, v.returned, p.k, 0);
  }

  lemma BitsOfOne()
    ensures Bit(1, 0) && !Bit(1, 4)
  {
    BitFour(1);
  }

  /** Every pending payload is still in memory under its own pointer and has exactly one send in
      flight; no other send is in flight. */
  lemma {:induction false} SendsMatchPending(cfg: Config, s: System, g: nat, key: nat)
    requires Inv(cfg, s) && g < |s.streams| && key in s.streams[g].pending
    ensures Tokens(s)[key] == 1
    ensures var p := s.streams[g].pending[key]; p.ptr in s.heap && s.heap[p.ptr] == p.bytes
  {
    hide UserData.OwnerOf, UserData.EventOf, PostedFor, RecvInv, SendEntryOk, RecvEntryOk, CqeOk, Tokens;
    assert UserData.OwnerOf(key) == g;
    assert PendingUnder(s.streams, key).Some?;
  }

  /** The payloads among some messages that go to one socket. */
  function OnSocket(messages: seq<Message>, fd: nat): seq<seq<byte>>
    decreases |messages|
  {
    if messages == [] then []
    else (if messages[0].fd == fd then [messages[0].bytes] else []) + OnSocket(messages[1..], fd)
  }

  lemma {:induction false} OnSocketConcat(a: seq<Message>, b: seq<Message>, fd: nat)
    ensures OnSocket(a + b, fd) == OnSocket(a, fd) + OnSocket(b, fd)
    decreases |a|
  {
    if a == [] {
      assert a + b == b;
    } else {
      assert (a + b)[1..] == a[1..] + b;
      OnSocketConcat(a[1..], b, fd);
    }
  }

  /** Each stream's sends reach the kernel in the order they were written: those it has consumed,
      then those still in the submission ring, with their payloads unchanged. */
  lemma {:induction false} SubmittedInOrder(cfg: Config, s: System, g: nat)
    requires Inv(cfg, s) && g < |s.streams|
    ensures |s.sq.sqes| > 0
    ensures var fd := s.streams[g].fd;
      OnSocket(s.accepted, fd) + OnSocket(Flights(s.heap, Fifo(s.sq)), fd) == OnSocket(s.written, fd)
  {
    hide RecvInv, RouteInv, StreamsInv, TokenInv, HeapInv, NumberInv, Fifo, Flights, OnSocket;
    assert |s.sq.sqes| > 0 by { SqNotEmpty(cfg, s); }
    OnSocketConcat(s.accepted, Flights(s.heap, Fifo(s.sq)), s.streams[g].fd);
  }

  lemma SqNotEmpty(cfg: Config, s: System)
    requires RecvInv(cfg, s)
    ensures |s.sq.sqes| > 0
  {
    hide GroupInv, Apart;
  }

  lemma {:induction false} RecvsOfRecvs(es: seq<Sqe>)
    requires forall i :: 0 <= i < |es| ==> es[i].opcode != OP_SEND
    ensures Recvs(es) == es
    decreases |es|
  {
    if es != [] {
      RecvsOfRecvs(es[1..]);
      assert [es[0]] + es[1..] == es;
    }
  }

  lemma {:induction false} SetupArmings(cfg: Config, mem: seq<byte>, specs: seq<Spec>, s: System)
    requires |specs| <= 256 && forall i :: 0 <= i < |specs| ==> specs[i].recvId < U32
    requires Initial(cfg, mem, specs, s)
    ensures s.armed + Recvs(Fifo(s.sq)) == RecvEntries(specs)
  {
    hide Fifo, Identity, UserData.Pack;
    RecvsOfRecvs(RecvEntries(specs));
  }

  /** What a run from setup has brought about, by the data its receive steps carried and the messages
      its write steps were given. */
  ghost predicate Accounted(cfg: Config, s0: System, specs: seq<Spec>, steps: seq<Step>, s: System)
    requires RunEnabled(cfg, s0, steps) && |s.sq.sqes| > 0
    requires |specs| <= 256 && forall i :: 0 <= i < |specs| ==> specs[i].recvId < U32
  {
    && |s.streams| == |specs| && (forall g :: 0 <= g < |specs| ==> s.streams[g].fd == specs[g].fd)
    && (forall fd: nat :: ReceivedOn(s.received, fd) == RunData(cfg, s0, steps, fd))
    && s.written == RunMessages(cfg, s0, steps)
    && s.armed + Recvs(Fifo(s.sq)) == RecvEntries(specs)
  }

  lemma {:induction false} RunAccounted(cfg: Config, mem: seq<byte>, specs: seq<Spec>, steps: seq<Step>)
    requires SpecsOk(cfg, |mem|, specs) && Setup(cfg, mem, specs).Ok?
    requires RunEnabled(cfg, Setup(cfg, mem, specs).value, steps)
    ensures forall i :: 0 <= i < |specs| ==> specs[i].recvId < U32
    ensures Run(cfg, Setup(cfg, mem, specs).value, steps).Ok?
    ensures var s := Run(cfg, Setup(cfg, mem, specs).value, steps).value;
      |s.sq.sqes| > 0 && Accounted(cfg, Setup(cfg, mem, specs).value, specs, steps, s)
  {
    hide Setup, Run, RunEnabled, Inv, Fifo, Recvs, RunData, RunMessages, Identity, BufRings.Sized;
    SetupKeeps(cfg, mem, specs);
    SetupInitial(cfg, mem, specs);
    var s0 := Setup(cfg, mem, specs).value;
    SetupArmings(cfg, mem, specs, s0);
    RunEffect(cfg, s0, steps);
  }

  /** The main result: after setup, whatever the interleaving of kernel and user steps, nothing
      aborts; the bytes a stream has delivered, queued and waiting are, in order, the bytes the run's
      receives brought in on its socket; every group keeps the slot-equals-id layout; no queue outgrows
      its capacity; the messages written reach the kernel in order, and each is transmitted once or
      still in flight; and each stream's receive is armed, or waits to be. */
  lemma {:induction false} EveryRun(cfg: Config, mem: seq<byte>, specs: seq<Spec>, steps: seq<Step>)
    requires SpecsOk(cfg, |mem|, specs)
    requires Setup(cfg, mem, specs).Ok? ==> RunEnabled(cfg, Setup(cfg, mem, specs).value, steps)
    ensures Setup(cfg, mem, specs).Ok? && forall i :: 0 <= i < |specs| ==> specs[i].recvId < U32
    ensures Run(cfg, Setup(cfg, mem, specs).value, steps).Ok?
    ensures var s := Run(cfg, Setup(cfg, mem, specs).value, steps).value;
      && Inv(cfg, s) && |s.sq.sqes| > 0 && |s.streams| == |specs|
      && (forall g :: 0 <= g < |s.streams| ==>
            && s.streams[g].fd == specs[g].fd
            && s.hist[g].delivered
               + Content(s.mem, QueueChunks(s.streams[g].queue))
               + Content(s.mem, Groups.PostedChunks(GroupParams(cfg, s.groups, g), PostedFor(s.cq, g)))
               == RunData(cfg, Setup(cfg, mem, specs).value, steps, s.streams[g].fd)
            && Identity(s.groups[g].ring, s.groups[g].base, cfg.size)
            && |s.streams[g].queue| <= s.streams[g].capacity == Pow2(cfg.k))
      && s.accepted + Flights(s.heap, Fifo(s.sq)) == s.written
      && multiset(s.written) == s.wire + multiset(Flights(s.heap, Fifo(s.sq))) + multiset(Flights(s.heap, s.sends))
      && s.written == RunMessages(cfg, Setup(cfg, mem, specs).value, steps)
      && s.armed + Recvs(Fifo(s.sq)) == RecvEntries(specs)
  {
    hide RunData, RunMessages, Recvs, UserData.OwnerOf, UserData.EventOf, Content, PostedFor, GroupInv, Apart,
      TokenInv, Alive, SendEntryOk, RecvEntryOk, CqeOk, Flights, Setup, Run, RunEnabled, SpecsOk, Fifo, Identity;
    SetupKeeps(cfg, mem, specs);
    var s0 := Setup(cfg, mem, specs).value;
    RunKeeps(cfg, s0, steps);
    RunAccounted(cfg, mem, specs, steps);
    var s := Run(cfg, s0, steps).value;
    forall g | 0 <= g < |s.streams|
      ensures s.hist[g].delivered
              + Content(s.mem, QueueChunks(s.streams[g].queue))
              + Content(s.mem, Groups.PostedChunks(GroupParams(cfg, s.groups, g), PostedFor(s.cq, g)))
              == RunData(cfg, s0, steps, s.streams[g].fd)
      ensures Identity(s.groups[g].ring, s.groups[g].base, cfg.size)
      ensures |s.streams[g].queue| <= s.streams[g].capacity == Pow2(cfg.k)
    {
      StreamIntegrity(cfg, s, g);
      BuffersConserved(cfg, s, g);
      QueueBound(cfg, s, g);
    }
  }
}
