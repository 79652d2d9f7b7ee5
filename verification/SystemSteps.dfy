/** Every step of the system keeps the invariant and never aborts. */
module SystemSteps {
  import opened Bits
  import opened Outcomes
  import opened Windows
  import opened BufRings
  import opened Readers
  import opened Submission
  import opened Streams
  import opened Systems
  import UserData
  import Groups

  // ---------- Lists ----------

  lemma {:induction false} EntryKeysConcat(a: seq<Sqe>, b: seq<Sqe>)
    ensures EntryKeys(a + b) == EntryKeys(a) + EntryKeys(b)
    decreases |a|
  {
    if a == [] {
      assert a + b == b;
    } else {
      assert (a + b)[1..] == a[1..] + b;
      EntryKeysConcat(a[1..], b);
    }
  }

  lemma {:induction false} CompletionKeysConcat(a: seq<Cqe>, b: seq<Cqe>)
    ensures CompletionKeys(a + b) == CompletionKeys(a) + CompletionKeys(b)
    decreases |a|
  {
    if a == [] {
      assert a + b == b;
    } else {
      assert (a + b)[1..] == a[1..] + b;
      CompletionKeysConcat(a[1..], b);
    }
  }

  lemma {:induction false} FlightsConcat(heap: map<nat, seq<byte>>, a: seq<Sqe>, b: seq<Sqe>)
    ensures Flights(heap, a + b) == Flights(heap, a) + Flights(heap, b)
    decreases |a|
  {
    if a == [] {
      assert a + b == b;
    } else {
      assert (a + b)[1..] == a[1..] + b;
      FlightsConcat(heap, a[1..], b);
      SeqAssoc(Flights(heap, [a[0]]), Flights(heap, a[1..]), Flights(heap, b));
      FlightsOne(heap, a[0]);
    }
  }

  lemma {:induction false} PostedForConcat(a: seq<Cqe>, b: seq<Cqe>, g: nat)
    ensures PostedFor(a + b, g) == PostedFor(a, g) + PostedFor(b, g)
    decreases |a|
  {
    hide IsRecvFor, AsPosted;
    if a == [] {
      assert a + b == b;
    } else {
      assert (a + b)[1..] == a[1..] + b;
      PostedForConcat(a[1..], b, g);
      SeqAssoc(if IsRecvFor(a[0], g) then [AsPosted(a[0])] else [], PostedFor(a[1..], g), PostedFor(b, g));
    }
  }

  lemma SeqAssoc<T>(a: seq<T>, b: seq<T>, c: seq<T>)
    ensures a + (b + c) == a + b + c
  {
  }

  function KeyOf(e: Sqe): multiset<nat> {
    if e.opcode == OP_SEND then multiset{e.userData} else multiset{}
  }

  lemma EntryKeysOne(e: Sqe)
    ensures EntryKeys([e]) == KeyOf(e)
  {
    assert [e][1..] == [];
  }

  lemma CompletionKeysOne(c: Cqe)
    ensures CompletionKeys([c]) ==
      if UserData.EventOf(c.userData) == UserData.SEND then multiset{c.userData} else multiset{}
  {
    assert [c][1..] == [];
  }

  lemma PostedForOne(c: Cqe, g: nat)
    ensures PostedFor([c], g) == if IsRecvFor(c, g) then [AsPosted(c)] else []
  {
    assert [c][1..] == [];
  }

  lemma FlightsOne(heap: map<nat, seq<byte>>, e: Sqe)
    ensures Flights(heap, [e]) == if e.opcode == OP_SEND then [MessageOf(heap, e)] else []
  {
    assert [e][1..] == [];
  }

  /** Taking entry i out of a list. */
  lemma {:induction false} EntryKeysRemove(es: seq<Sqe>, i: nat)
    requires i < |es|
    ensures EntryKeys(es) == EntryKeys(es[..i] + es[i + 1..]) + KeyOf(es[i])
  {
    assert es == es[..i] + ([es[i]] + es[i + 1..]);
    EntryKeysConcat(es[..i], [es[i]] + es[i + 1..]);
    EntryKeysConcat([es[i]], es[i + 1..]);
    EntryKeysConcat(es[..i], es[i + 1..]);
    EntryKeysOne(es[i]);
  }

  lemma {:induction false} FlightsRemove(heap: map<nat, seq<byte>>, es: seq<Sqe>, i: nat)
    requires i < |es|
    ensures multiset(Flights(heap, es)) ==
      multiset(Flights(heap, es[..i] + es[i + 1..])) + multiset(Flights(heap, [es[i]]))
  {
    assert es == es[..i] + ([es[i]] + es[i + 1..]);
    FlightsConcat(heap, es[..i], [es[i]] + es[i + 1..]);
    FlightsConcat(heap, [es[i]], es[i + 1..]);
    FlightsConcat(heap, es[..i], es[i + 1..]);
  }

  /** Only the payloads the sends name matter. */
  lemma {:induction false} FlightsFrame(heap: map<nat, seq<byte>>, heap': map<nat, seq<byte>>, es: seq<Sqe>)
    requires forall i :: 0 <= i < |es| && es[i].opcode == OP_SEND ==> HeapBytes(heap, es[i]) == HeapBytes(heap', es[i])
    ensures Flights(heap, es) == Flights(heap', es)
    decreases |es|
  {
    if es != [] {
      assert forall i :: 0 <= i < |es[1..]| ==> es[1..][i] == es[i + 1];
      FlightsFrame(heap, heap', es[1..]);
    }
  }

  lemma {:induction false} KeyPresent(es: seq<Sqe>, i: nat)
    requires i < |es| && es[i].opcode == OP_SEND
    ensures EntryKeys(es)[es[i].userData] > 0
  {
    EntryKeysRemove(es, i);
  }

  // ---------- What the sending side looks at in a stream ----------

  predicate Agree(streams: seq<Stream>, streams': seq<Stream>) {
    && |streams| == |streams'|
    && forall g :: 0 <= g < |streams| ==>
         && streams[g].fd == streams'[g].fd && streams[g].recvId == streams'[g].recvId
         && streams[g].pending == streams'[g].pending
  }

  lemma AgreeEntries(streams: seq<Stream>, streams': seq<Stream>, es: seq<Sqe>)
    requires Agree(streams, streams')
    ensures forall i :: 0 <= i < |es| ==>
      && SendEntryOk(streams, es[i]) == SendEntryOk(streams', es[i])
      && RecvEntryOk(streams, es[i]) == RecvEntryOk(streams', es[i])
  {
    hide UserData.Pack, UserData.EventOf, UserData.OwnerOf, UserData.ReqOf, Intended;
  }

  lemma AgreeCq(streams: seq<Stream>, streams': seq<Stream>, cq: seq<Cqe>)
    requires Agree(streams, streams')
    ensures forall i :: 0 <= i < |cq| ==> CqeOk(streams, cq[i]) == CqeOk(streams', cq[i])
  {
    hide UserData.Pack, UserData.EventOf, UserData.OwnerOf, UserData.ReqOf, And;
  }

  lemma AgreeHeap(streams: seq<Stream>, streams': seq<Stream>, heap: map<nat, seq<byte>>)
    requires Agree(streams, streams') && HeapInv(streams, heap)
    ensures HeapInv(streams', heap)
  {
    hide UserData.EventOf, UserData.OwnerOf, AliveAt;
    assert forall key: nat :: PendingUnder(streams', key) == PendingUnder(streams, key);
    forall g, key | 0 <= g < |streams'| && key in streams'[g].pending
      ensures AliveAt(heap, g, key, streams'[g].pending[key])
    {
      assert AliveAt(heap, g, key, streams[g].pending[key]);
    }
  }

  lemma AgreeNumbers(streams: seq<Stream>, streams': seq<Stream>, hist: seq<History>, hist': seq<History>)
    requires Agree(streams, streams') && |streams| == |hist| == |hist'| && NumberInv(streams, hist)
    requires forall g :: 0 <= g < |hist| ==> hist'[g].issued == hist[g].issued && hist'[g].numbers == hist[g].numbers
    ensures NumberInv(streams', hist')
  {
    hide KeyOfIssue;
    forall g, key | 0 <= g < |streams'| <= 256 && key in streams'[g].pending
      ensures key in hist'[g].numbers
      ensures hist'[g].numbers[key] < hist'[g].issued && key == KeyOfIssue(g, hist'[g].numbers[key])
    {
      assert key in streams[g].pending;
    }
  }

  /** Nothing the sending side depends on has changed. */
  lemma {:induction false} SendSideUntouched(cfg: Config, s: System, s': System)
    requires |s.streams| == |s.hist| == |s'.hist| && |s.sq.sqes| > 0
    requires SendInv(cfg, s) && RouteInv(s)
    requires Agree(s.streams, s'.streams)
    requires s'.sq == s.sq && s'.armed == s.armed && s'.sends == s.sends && s'.heap == s.heap
    requires s'.written == s.written && s'.accepted == s.accepted && s'.wire == s.wire
    requires CompletionKeys(s'.cq) == CompletionKeys(s.cq)
    requires forall i :: 0 <= i < |s'.cq| ==> CqeOk(s.streams, s'.cq[i])
    requires forall g :: 0 <= g < |s.hist| ==>
      s'.hist[g].issued == s.hist[g].issued && s'.hist[g].numbers == s.hist[g].numbers
    ensures SendInv(cfg, s') && RouteInv(s')
  {
    hide UserData.Pack, UserData.EventOf, UserData.OwnerOf, UserData.ReqOf, And, Intended, Window, EntryKeys,
      CompletionKeys, Flights, HeapInv, NumberInv;
    AgreeEntries(s.streams, s'.streams, Fifo(s.sq));
    AgreeEntries(s.streams, s'.streams, s.armed);
    AgreeEntries(s.streams, s'.streams, s.sends);
    AgreeCq(s.streams, s'.streams, s'.cq);
    assert forall key: nat :: PendingUnder(s.streams, key) == PendingUnder(s'.streams, key);
    AgreeHeap(s.streams, s'.streams, s.heap);
    AgreeNumbers(s.streams, s'.streams, s.hist, s'.hist);
  }

  /** Nothing the receiving side depends on has changed. */
  lemma {:induction false} RecvSideUntouched(cfg: Config, s: System, s': System)
    requires RecvInv(cfg, s) && WellSized(cfg, s')
    requires s'.mem == s.mem && s'.groups == s.groups && s'.received == s.received
    requires |s'.streams| == |s.streams| && |s'.hist| == |s.hist|
    requires forall g :: 0 <= g < |s.streams| ==>
      s'.streams[g].queue == s.streams[g].queue && s'.streams[g].fd == s.streams[g].fd
    requires forall g :: 0 <= g < |s.hist| ==>
      && s'.hist[g].delivered == s.hist[g].delivered && s'.hist[g].taken == s.hist[g].taken
      && s'.hist[g].returned == s.hist[g].returned
    requires forall g :: 0 <= g < |s.groups| ==> PostedFor(s'.cq, g) == PostedFor(s.cq, g)
    ensures RecvInv(cfg, s')
  {
    forall g | 0 <= g < |s'.groups|
      ensures GroupInv(cfg, s', g)
    {
      assert View(s', g) == View(s, g);
      assert GroupInv(cfg, s, g);
    }
  }

  // ---------- Kernel: receive ----------

  /** What the armed entry says, decoded. */
  lemma {:induction false} ArmedEntry(streams: seq<Stream>, e: Sqe)
    requires RecvEntryOk(streams, e)
    ensures e.fd == streams[e.bufIndex].fd
    ensures UserData.EventOf(e.userData) == UserData.MULTISHOT_RECV && UserData.OwnerOf(e.userData) == e.bufIndex
    ensures UserData.ReqOf(e.userData) == streams[e.bufIndex].recvId
  {
    UserData.RoundTrip(UserData.MULTISHOT_RECV, e.bufIndex, streams[e.bufIndex].recvId);
  }

  lemma {:induction false} NextSlotIsHome(cfg: Config, s: System, g: nat)
    requires RecvInv(cfg, s) && g < |s.groups|
    ensures var p, v := GroupParams(cfg, s.groups, g), View(s, g);
      && Groups.NextEntry(p, v) == NextSlot(s.groups[g])
      && NextSlot(s.groups[g]).bid < 0x8000_0000 && NextSlot(s.groups[g]).bid < U16
  {
    assert GroupInv(cfg, s, g);
    Groups.NextEntryIsHome(GroupParams(cfg, s.groups, g), View(s, g));
    RingFits(cfg.k);
  }

  lemma {:induction false} ReceivePosted(cfg: Config, s: System, e: Sqe, len: nat, extra: nat, h: nat)
    requires RecvInv(cfg, s) && RecvEntryOk(s.streams, e) && extra < U16 && h < |s.groups|
    ensures var bid := NextSlot(s.groups[e.bufIndex]).bid;
      PostedFor(s.cq + [Cqe(e.userData, len, bid * 0x1_0000 + extra)], h)
        == PostedFor(s.cq, h) + (if h == e.bufIndex then [Groups.Posted(bid, len)] else [])
  {
    var bid := NextSlot(s.groups[e.bufIndex]).bid;
    var c := Cqe(e.userData, len, bid * 0x1_0000 + extra);
    ArmedEntry(s.streams, e);
    NextSlotIsHome(cfg, s, e.bufIndex);
    RecvFlags(bid, extra);
    PostedForConcat(s.cq, [c], h);
    PostedForOne(c, h);
  }

  lemma {:induction false} ReceiveOwn(cfg: Config, s: System, e: Sqe, data: seq<byte>, extra: nat)
    requires RecvInv(cfg, s) && RecvEntryOk(s.streams, e) && extra < U16
    requires s.groups[e.bufIndex].head != s.groups[e.bufIndex].ring.tail
    requires 0 < |data| <= NextSlot(s.groups[e.bufIndex]).len
    ensures Receive(cfg, s, e, data, extra).Ok?
    ensures var g, s' := e.bufIndex, Receive(cfg, s, e, data, extra).value;
      && GroupInv(cfg, s', g)
      && |s'.mem| == |s.mem|
      && forall i :: 0 <= i < |s.mem| && !(s.groups[g].base <= i < Groups.End(GroupParams(cfg, s.groups, g))) ==>
           s'.mem[i] == s.mem[i]
  {
    hide UserData.Pack, UserData.EventOf, UserData.OwnerOf, UserData.ReqOf, And, Mod, Intended, Window,
      PostedFor, Groups.Inv;
    var g := e.bufIndex;
    var p, v := GroupParams(cfg, s.groups, g), View(s, g);
    assert GroupInv(cfg, s, g);
    NextSlotIsHome(cfg, s, g);
    Groups.ReceiveKeeps(p, s.mem, v, data);
    ReceivePosted(cfg, s, e, |data|, extra, g);
    var s' := Receive(cfg, s, e, data, extra).value;
    ArmedEntry(s.streams, e);
    assert (s'.mem, View(s', g)) == Groups.Receive(p, s.mem, v, data).value;
    assert GroupParams(cfg, s'.groups, g) == p;
  }

  lemma {:induction false} ReceiveOther(cfg: Config, s: System, e: Sqe, data: seq<byte>, extra: nat, s': System, h: nat)
    requires RecvInv(cfg, s) && StreamsInv(cfg, s.streams, s.hist) && RecvEntryOk(s.streams, e) && extra < U16
    requires Receive(cfg, s, e, data, extra) == Ok(s') && h < |s.groups| && h != e.bufIndex
    requires |s'.mem| == |s.mem|
    requires forall i | && 0 <= i < |s.mem|
                        && !(s.groups[e.bufIndex].base <= i < Groups.End(GroupParams(cfg, s.groups, e.bufIndex))) ::
               s'.mem[i] == s.mem[i]
    ensures GroupInv(cfg, s', h)
  {
    hide UserData.Pack, UserData.EventOf, UserData.OwnerOf, UserData.ReqOf, And, Mod, Intended, Window,
      PostedFor, Groups.Inv;
    var g := e.bufIndex;
    ReceivePosted(cfg, s, e, |data|, extra, h);
    ArmedEntry(s.streams, e);
    DistinctSockets(cfg, s, g, h);
    assert View(s', h) == View(s, h);
    assert GroupInv(cfg, s, h);
    AreasApart(cfg, s.groups, g, h);
    Groups.ForeignWrite(GroupParams(cfg, s.groups, h), s.mem, s'.mem, View(s, h));
    assert GroupParams(cfg, s'.groups, h) == GroupParams(cfg, s.groups, h);
  }

  lemma DistinctSockets(cfg: Config, s: System, g: nat, h: nat)
    requires |s.streams| == |s.hist| && StreamsInv(cfg, s.streams, s.hist)
    requires g < |s.streams| && h < |s.streams| && g != h
    ensures s.streams[g].fd != s.streams[h].fd
  {
  }

  lemma AreasApart(cfg: Config, groups: seq<GroupRing>, g: nat, h: nat)
    requires Apart(cfg, groups) && g < |groups| && h < |groups| && g != h
    ensures Groups.End(GroupParams(cfg, groups, g)) <= groups[h].base
         || Groups.End(GroupParams(cfg, groups, h)) <= groups[g].base
  {
  }

  lemma {:induction false} SameBasesApart(cfg: Config, groups: seq<GroupRing>, groups': seq<GroupRing>)
    requires Apart(cfg, groups) && |groups'| == |groups|
    requires forall g :: 0 <= g < |groups| ==> groups'[g].base == groups[g].base
    ensures Apart(cfg, groups')
  {
    forall g, h | 0 <= g < h < |groups'|
      ensures Groups.End(GroupParams(cfg, groups', g)) <= groups'[h].base
           || Groups.End(GroupParams(cfg, groups', h)) <= groups'[g].base
    {
      assert GroupParams(cfg, groups', g) == GroupParams(cfg, groups, g);
      assert GroupParams(cfg, groups', h) == GroupParams(cfg, groups, h);
    }
  }

  /** The kernel has received `data` on armed entry e: the bytes are in the next buffer of the entry's
      group, they are the socket's next bytes, and one completion says how many and where. */
  ghost predicate Arrived(s: System, e: Sqe, data: seq<byte>, s': System) {
    var g := e.bufIndex;
    && g < |s.streams| == |s.groups| == |s.hist| && |s'.groups| == |s.groups| && |s'.hist| == |s.hist|
    && |s.groups[g].ring.slots| > 0
    && var slot, fd := NextSlot(s.groups[g]), s.streams[g].fd;
    && e.fd == fd
    && s' == s.(mem := s'.mem, groups := s'.groups, cq := s'.cq, received := s'.received, hist := s'.hist)
    && slot.addr + |data| <= |s'.mem| && s'.mem[slot.addr..slot.addr + |data|] == data
    && ReceivedOn(s'.received, fd) == ReceivedOn(s.received, fd) + data
    && (forall other: nat :: other != fd ==> ReceivedOn(s'.received, other) == ReceivedOn(s.received, other))
    && |s'.cq| == |s.cq| + 1 && s'.cq[..|s.cq|] == s.cq
    && var c := s'.cq[|s.cq|];
    && c.res == |data| && c.userData == e.userData && BufferIdOf(c.flags) == slot.bid && And(c.flags, F_BUFFER) != 0
    && s'.groups[g].head == (s.groups[g].head + 1) % 0x1_0000 && s'.hist[g].taken == s.hist[g].taken + 1
  }

  lemma {:induction false} ReceiveArrives(cfg: Config, s: System, e: Sqe, data: seq<byte>, extra: nat)
    requires RecvInv(cfg, s) && RecvEntryOk(s.streams, e) && extra < U16 && Bit(extra, 0)
    requires Receive(cfg, s, e, data, extra).Ok?
    ensures Arrived(s, e, data, Receive(cfg, s, e, data, extra).value)
  {
    hide UserData.Pack, UserData.EventOf, UserData.OwnerOf, UserData.ReqOf, And, Bit, BufferIdOf, GroupInv, Apart;
    ArmedEntry(s.streams, e);
    NextSlotIsHome(cfg, s, e.bufIndex);
    RecvFlags(NextSlot(s.groups[e.bufIndex]).bid, extra);
  }

  lemma {:induction false} ReceiveStep(cfg: Config, s: System, a: nat, data: seq<byte>, extra: nat)
    requires Inv(cfg, s) && Enabled(cfg, s, KernelReceive(a, data, extra))
    ensures Receive(cfg, s, s.armed[a], data, extra).Ok?
    ensures Arrived(s, s.armed[a], data, Receive(cfg, s, s.armed[a], data, extra).value)
    ensures var g, s' := s.armed[a].bufIndex, Receive(cfg, s, s.armed[a], data, extra).value;
      && Inv(cfg, s') && |s'.mem| == |s.mem|
      && forall i :: 0 <= i < |s.mem| && !(s.groups[g].base <= i < Groups.End(GroupParams(cfg, s.groups, g))) ==>
           s'.mem[i] == s.mem[i]
  {
    hide UserData.Pack, UserData.EventOf, UserData.OwnerOf, UserData.ReqOf, And, Mod, Bit, Intended, Window,
      PostedFor, GroupInv, SendInv, Overwrite;
    var e := s.armed[a];
    ReceiveOwn(cfg, s, e, data, extra);
    ReceiveArrives(cfg, s, e, data, extra);
    var s' := Receive(cfg, s, e, data, extra).value;
    forall h | 0 <= h < |s'.groups|
      ensures GroupInv(cfg, s', h)
    {
      if h != e.bufIndex { ReceiveOther(cfg, s, e, data, extra, s', h); }
    }
    SameBasesApart(cfg, s.groups, s'.groups);
    ReceiveSendSide(cfg, s, e, data, extra, s');
  }

  lemma {:induction false} ReceiveSendSide(cfg: Config, s: System, e: Sqe, data: seq<byte>, extra: nat, s': System)
    requires Inv(cfg, s) && RecvEntryOk(s.streams, e)
    requires 0 < |data| && extra < U16 && Bit(extra, 0) && !Bit(extra, 4)
    requires Receive(cfg, s, e, data, extra) == Ok(s')
    ensures SendInv(cfg, s') && RouteInv(s')
  {
    hide UserData.Pack, UserData.EventOf, UserData.OwnerOf, UserData.ReqOf, And, Mod, Bit, BufferIdOf,
      Intended, Window, GroupInv, SendInv, Overwrite, CompletionKeys;
    var bid := NextSlot(s.groups[e.bufIndex]).bid;
    var c := Cqe(e.userData, |data|, bid * 0x1_0000 + extra);
    ArmedEntry(s.streams, e);
    NextSlotIsHome(cfg, s, e.bufIndex);
    RecvFlags(bid, extra);
    CompletionKeysConcat(s.cq, [c]);
    CompletionKeysOne(c);
    assert CqeOk(s.streams, c);
    SendSideUntouched(cfg, s, s');
  }

  // ---------- Kernel: consume, complete ----------

  lemma {:induction false} EntryKinds(streams: seq<Stream>, e: Sqe)
    requires SendEntryOk(streams, e) || RecvEntryOk(streams, e)
    ensures e.opcode == OP_SEND ==> SendEntryOk(streams, e) && And(e.flags, BUFFER_SELECT) == 0
    ensures e.opcode != OP_SEND ==>
      && RecvEntryOk(streams, e)
      && e.opcode == OP_RECV && e.ioprio == RECV_MULTISHOT && And(e.flags, BUFFER_SELECT) != 0
  {
    hide UserData.Pack, UserData.EventOf, UserData.OwnerOf, UserData.ReqOf, PendingUnder;
    assert And(32, 32) == 32;
  }

  /** The kernel has taken e off the submission ring: a receive is armed, a send is in its hands. */
  predicate Accepted(s: System, e: Sqe, s': System) {
    && |s.sq.sqes| > 0 && |s'.sq.sqes| == |s.sq.sqes| && Fifo(s.sq) == [e] + Fifo(s'.sq)
    && s'.armed == s.armed + (if e.opcode == OP_SEND then [] else [e])
    && s'.sends == s.sends + (if e.opcode == OP_SEND then [e] else [])
    && s'.accepted == s.accepted + (if e.opcode == OP_SEND then [MessageOf(s.heap, e)] else [])
    && s' == s.(sq := s'.sq, armed := s'.armed, sends := s'.sends, accepted := s'.accepted)
  }

  lemma {:induction false} ConsumeStep(cfg: Config, s: System)
    requires Inv(cfg, s) && CanConsume(s.sq)
    ensures ConsumeEntry(s).Ok? && Inv(cfg, ConsumeEntry(s).value)
    ensures Fifo(s.sq) != [] && Accepted(s, Fifo(s.sq)[0], ConsumeEntry(s).value)
  {
    hide UserData.Pack, UserData.EventOf, UserData.OwnerOf, UserData.ReqOf, Mod, Intended, Window, Fifo, GroupInv,
      HeapInv, NumberInv, TokenInv, Ledger, SendEntryOk, RecvEntryOk, CqeOk, Apart, PostedFor, And;
    ConsumePops(s.sq, cfg.j);
    var e := Fifo(s.sq)[0];
    EntryKinds(s.streams, e);
    var s' := ConsumeEntry(s).value;
    RecvSideUntouched(cfg, s, s');
    ConsumedRoute(s, s', e);
    ConsumedTokens(s, s', e);
  }

  lemma {:induction false} ConsumedTokens(s: System, s': System, e: Sqe)
    requires |s.sq.sqes| > 0 && TokenInv(s) && Ledger(s) && Unconsumed(s.sq) > 0 && e == Fifo(s.sq)[0]
    requires s'.sq.sqes == s.sq.sqes && Fifo(s'.sq) == Fifo(s.sq)[1..]
    requires s'.streams == s.streams && s'.cq == s.cq && s'.heap == s.heap
    requires s'.written == s.written && s'.wire == s.wire
    requires if e.opcode == OP_SEND
             then s'.sends == s.sends + [e] && s'.accepted == s.accepted + [MessageOf(s.heap, e)]
             else s'.sends == s.sends && s'.accepted == s.accepted
    ensures TokenInv(s') && Ledger(s')
  {
    hide UserData.EventOf, UserData.OwnerOf, Window, Fifo, EntryKeys, CompletionKeys, Flights, PendingUnder, MessageOf;
    var f := Fifo(s.sq);
    assert f == [e] + f[1..];
    EntryKeysConcat([e], f[1..]);
    EntryKeysConcat(s.sends, [e]);
    EntryKeysOne(e);
    FlightsConcat(s.heap, [e], f[1..]);
    FlightsConcat(s.heap, s.sends, [e]);
    FlightsOne(s.heap, e);
    assert Tokens(s') == Tokens(s);
  }

  lemma ConsumedRoute(s: System, s': System, e: Sqe)
    requires |s.sq.sqes| > 0 && RouteInv(s) && Unconsumed(s.sq) > 0 && e == Fifo(s.sq)[0]
    requires s'.sq.sqes == s.sq.sqes && Fifo(s'.sq) == Fifo(s.sq)[1..]
    requires s'.streams == s.streams && s'.cq == s.cq
    requires (s'.armed == s.armed + [e] && s'.sends == s.sends && RecvEntryOk(s.streams, e))
          || (s'.sends == s.sends + [e] && s'.armed == s.armed && SendEntryOk(s.streams, e))
    ensures RouteInv(s')
  {
    hide SendEntryOk, RecvEntryOk, CqeOk, Window;
  }

  /** The kernel finds the payload alive and unchanged. */
  lemma {:induction false} PayloadAlive(streams: seq<Stream>, heap: map<nat, seq<byte>>, e: Sqe)
    requires HeapInv(streams, heap) && SendEntryOk(streams, e)
    ensures HeapBytes(heap, e) == Some(PendingUnder(streams, e.userData).value.bytes)
    ensures 0 < e.len < 0x8000_0000
    ensures e.opcode == OP_SEND && e.len == |PendingUnder(streams, e.userData).value.bytes|
    ensures e.addr == PendingUnder(streams, e.userData).value.ptr
  {
    hide UserData.Pack, UserData.EventOf, UserData.OwnerOf, UserData.ReqOf;
    var g := UserData.OwnerOf(e.userData);
    var p := streams[g].pending[e.userData];
    assert e.len == |p.bytes|;
    assert heap[p.ptr][..|p.bytes|] == p.bytes;
  }

  /** The kernel has transmitted send i's whole payload, which the stream's pending entry still
      names, and says so in one completion. */
  predicate Transmitted(s: System, i: nat, flags: nat, s': System) {
    && i < |s.sends| && PendingUnder(s.streams, s.sends[i].userData).Some?
    && var e, bytes := s.sends[i], PendingUnder(s.streams, s.sends[i].userData).value.bytes;
    && s'.wire == s.wire + multiset{Message(e.fd, bytes)}
    && s'.sends == s.sends[..i] + s.sends[i + 1..]
    && s'.cq == s.cq + [Cqe(e.userData, |bytes|, flags)]
    && s' == s.(wire := s'.wire, sends := s'.sends, cq := s'.cq)
  }

  lemma {:induction false} CompleteStep(cfg: Config, s: System, i: nat, flags: nat)
    requires Inv(cfg, s) && i < |s.sends| && And(flags, F_BUF_MORE) == 0
    requires And(flags, F_BUFFER) != 0 ==> And(s.sends[i].flags, BUFFER_SELECT) != 0
    ensures CompleteSend(s, i, flags).Ok? && Inv(cfg, CompleteSend(s, i, flags).value)
    ensures Transmitted(s, i, flags, CompleteSend(s, i, flags).value)
  {
    hide UserData.Pack, UserData.EventOf, UserData.OwnerOf, UserData.ReqOf, Mod, Intended, Window, Fifo, GroupInv,
      HeapInv, NumberInv, TokenInv, Ledger, RecvEntryOk, CqeOk, Apart, PostedFor, And, HeapBytes;
    var e := s.sends[i];
    assert SendEntryOk(s.streams, e);
    PayloadAlive(s.streams, s.heap, e);
    EntryKinds(s.streams, e);
    var s' := CompleteSend(s, i, flags).value;
    var c := Cqe(e.userData, I32(e.len), flags);
    SendCompletionOk(s.streams, s.heap, e, c);
    forall g | 0 <= g < |s.groups|
      ensures PostedFor(s'.cq, g) == PostedFor(s.cq, g)
    {
      PostedForConcat(s.cq, [c], g);
      PostedForOne(c, g);
    }
    RecvSideUntouched(cfg, s, s');
    CompletedTokens(s, i, c, s');
    assert RouteInv(s');
  }

  lemma {:induction false} SendCompletionOk(streams: seq<Stream>, heap: map<nat, seq<byte>>, e: Sqe, c: Cqe)
    requires HeapInv(streams, heap) && SendEntryOk(streams, e)
    requires c == Cqe(e.userData, I32(e.len), c.flags) && And(c.flags, F_BUF_MORE) == 0 && And(c.flags, F_BUFFER) == 0
    ensures CqeOk(streams, c) && UserData.EventOf(c.userData) == UserData.SEND
  {
    hide UserData.EventOf, UserData.OwnerOf, UserData.ReqOf, And;
    PayloadAlive(streams, heap, e);
  }

  lemma {:induction false} CompletedTokens(s: System, i: nat, c: Cqe, s': System)
    requires |s.sq.sqes| > 0 && TokenInv(s) && Ledger(s) && i < |s.sends|
    requires s.sends[i].opcode == OP_SEND && HeapBytes(s.heap, s.sends[i]).Some?
    requires c.userData == s.sends[i].userData && UserData.EventOf(c.userData) == UserData.SEND
    requires s'.sq == s.sq && s'.streams == s.streams && s'.heap == s.heap
    requires s'.written == s.written && s'.accepted == s.accepted
    requires s'.sends == s.sends[..i] + s.sends[i + 1..] && s'.cq == s.cq + [c]
    requires s'.wire == s.wire + multiset{Message(s.sends[i].fd, HeapBytes(s.heap, s.sends[i]).value)}
    ensures TokenInv(s') && Ledger(s')
  {
    hide UserData.EventOf, UserData.OwnerOf, Window, Fifo, EntryKeys, CompletionKeys, Flights, PendingUnder,
      HeapBytes, Mod;
    EntryKeysRemove(s.sends, i);
    CompletionKeysConcat(s.cq, [c]);
    CompletionKeysOne(c);
    FlightsRemove(s.heap, s.sends, i);
    FlightsOne(s.heap, s.sends[i]);
    assert Tokens(s') == Tokens(s);
  }

  lemma {:induction false} SubmitStep(cfg: Config, s: System)
    requires Inv(cfg, s)
    ensures Inv(cfg, s.(sq := Submit(s.sq)))
    ensures Fifo(Submit(s.sq)) == Fifo(s.sq) && Submitted(Submit(s.sq)) == Unconsumed(s.sq)
  {
    hide UserData.EventOf, UserData.OwnerOf, UserData.ReqOf, And, Window, EntryKeys, CompletionKeys, Flights, GroupInv;
    var s' := s.(sq := Submit(s.sq));
    SubmitKeeps(s.sq, cfg.j);
    RecvSideUntouched(cfg, s, s');
    assert Tokens(s') == Tokens(s);
  }
}
