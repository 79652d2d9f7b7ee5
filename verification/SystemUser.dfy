/** The steps of user code: handling a completion, reading a stream, writing a stream. */
module SystemUser {
  import opened Bits
  import opened Outcomes
  import opened BufRings
  import opened Readers
  import opened Submission
  import opened Streams
  import opened Systems
  import opened SystemSteps
  import UserData
  import Groups

  // ---------- Handling a receive completion ----------

  lemma {:induction false} FrontPosted(cq: seq<Cqe>, h: nat)
    requires cq != []
    ensures PostedFor(cq, h) == (if IsRecvFor(cq[0], h) then [AsPosted(cq[0])] else []) + PostedFor(cq[1..], h)
  {
  }

  lemma {:induction false} FrontKeys(cq: seq<Cqe>)
    requires cq != []
    ensures CompletionKeys(cq) ==
      (if UserData.EventOf(cq[0].userData) == UserData.SEND then multiset{cq[0].userData} else multiset{})
      + CompletionKeys(cq[1..])
  {
  }

  /** The lookup for the oldest receive completion of a stream finds the buffer the kernel filled. */
  lemma {:induction false} RecvLookup(cfg: Config, s: System, g: nat)
    requires RecvInv(cfg, s) && s.cq != [] && CqeOk(s.streams, s.cq[0]) && g < |s.groups| && IsRecvFor(s.cq[0], g)
    ensures var p, v := GroupParams(cfg, s.groups, g), View(s, g);
      && v.posted != [] && Groups.Pick(p, v).Ok?
      && Groups.Inv(p, s.mem, Groups.Pick(p, v).value)
      && |s.streams[g].queue| < Pow2(cfg.k)
    ensures var buf := GetReadBuf(s.groups[g].ring, g, BufferIdOf(s.cq[0].flags), s.cq[0].res);
      && buf.Ok?
      && FromRawEvent(Rings(s.groups), s.cq[0]) == Ok(Completion(s.cq[0], Some(buf.value)))
      && Groups.Pick(GroupParams(cfg, s.groups, g), View(s, g)).value
           == View(s, g).(queue := s.streams[g].queue + [Reader(buf.value, 0)], posted := PostedFor(s.cq[1..], g))
  {
    hide UserData.EventOf, UserData.OwnerOf, UserData.ReqOf, And, BufferIdOf, Groups.Inv, GetReadBuf;
    assert GroupInv(cfg, s, g);
    FrontPosted(s.cq, g);
    Groups.PickKeeps(GroupParams(cfg, s.groups, g), s.mem, View(s, g));
    QueueRoom(GroupParams(cfg, s.groups, g), s.mem, View(s, g));
    assert View(s, g).posted[0] == AsPosted(s.cq[0]);
    assert View(s, g).posted[1..] == PostedFor(s.cq[1..], g);
  }

  lemma QueueRoom(p: Groups.Params, mem: seq<byte>, v: Groups.Group)
    requires Groups.Inv(p, mem, v) && v.posted != []
    ensures |v.queue| < Groups.Count(p)
  {
  }

  lemma {:induction false} RecvHandled(cfg: Config, s: System)
    requires Inv(cfg, s) && s.cq != [] && UserData.EventOf(s.cq[0].userData) == UserData.MULTISHOT_RECV
    ensures DispatchFront(s).Ok?
    ensures var g, s' := UserData.OwnerOf(s.cq[0].userData), DispatchFront(s).value;
      && g < |s.streams|
      && |s.streams[g].queue| < s.streams[g].capacity
      && var buf := GetReadBuf(s.groups[g].ring, g, BufferIdOf(s.cq[0].flags), s.cq[0].res);
      && buf.Ok?
      && s' == s.(cq := s.cq[1..],
                  streams := s.streams[g := s.streams[g].(queue := s.streams[g].queue + [Reader(buf.value, 0)])])
  {
    hide UserData.EventOf, UserData.OwnerOf, UserData.ReqOf, And, BufferIdOf, GroupInv, GetReadBuf,
      FromRawEvent, SendInv, SendEntryOk, RecvEntryOk;
    var c := s.cq[0];
    assert CqeOk(s.streams, c);
    var g := UserData.OwnerOf(c.userData);
    RecvLookup(cfg, s, g);
    var buf := GetReadBuf(s.groups[g].ring, g, BufferIdOf(c.flags), c.res).value;
    assert OnCompletion(s.streams[g], Completion(c, Some(buf))) == Ok(Push(s.streams[g], buf));
  }

  lemma {:induction false} RecvStep(cfg: Config, s: System)
    requires Inv(cfg, s) && s.cq != [] && UserData.EventOf(s.cq[0].userData) == UserData.MULTISHOT_RECV
    ensures DispatchFront(s).Ok? && Inv(cfg, DispatchFront(s).value)
  {
    hide UserData.EventOf, UserData.OwnerOf, UserData.ReqOf, And, BufferIdOf, GetReadBuf, FromRawEvent,
      OnCompletion, SendInv, SendEntryOk, RecvEntryOk, DispatchFront, PostedFor, CompletionKeys, Groups.Inv,
      Fifo;
    RecvHandled(cfg, s);
    var g, s' := UserData.OwnerOf(s.cq[0].userData), DispatchFront(s).value;
    RecvLookup(cfg, s, g);
    forall h | 0 <= h < |s'.groups|
      ensures GroupInv(cfg, s', h)
    {
      FrontPosted(s.cq, h);
      assert GroupInv(cfg, s, h);
      if h == g {
        assert View(s', g) == Groups.Pick(GroupParams(cfg, s.groups, g), View(s, g)).value;
      } else {
        assert View(s', h).posted == View(s, h).posted;
        assert View(s', h) == View(s, h);
      }
    }
    FrontKeys(s.cq);
    SendSideUntouched(cfg, s, s');
  }

  // ---------- Handling a send completion ----------

  lemma {:induction false} CompletionKeyPresent(cq: seq<Cqe>, i: nat)
    requires i < |cq| && UserData.EventOf(cq[i].userData) == UserData.SEND
    ensures CompletionKeys(cq)[cq[i].userData] > 0
    decreases |cq|
  {
    hide UserData.EventOf;
    if i > 0 { CompletionKeyPresent(cq[1..], i - 1); }
  }

  /** The streams with one pending payload removed. */
  function Without(streams: seq<Stream>, g: nat, key: nat): seq<Stream>
    requires g < |streams|
  {
    streams[g := streams[g].(pending := streams[g].pending - {key})]
  }

  /** No other token carries the key of the send completion at the front. */
  lemma {:induction false} OnlyToken(s: System)
    requires |s.sq.sqes| > 0 && TokenInv(s) && RouteInv(s)
    requires s.cq != [] && UserData.EventOf(s.cq[0].userData) == UserData.SEND
    ensures var key := s.cq[0].userData;
      && EntryKeys(Fifo(s.sq))[key] == 0 && EntryKeys(s.sends)[key] == 0 && CompletionKeys(s.cq[1..])[key] == 0
  {
    hide UserData.EventOf, UserData.OwnerOf, Fifo, EntryKeys, CompletionKeys, SendEntryOk, RecvEntryOk, CqeOk;
    FrontKeys(s.cq);
    var key := s.cq[0].userData;
    assert Tokens(s)[key] <= 1;
  }

  lemma {:induction false} EntriesKept(streams: seq<Stream>, g: nat, key: nat, es: seq<Sqe>)
    requires g < |streams| && g == UserData.OwnerOf(key) && EntryKeys(es)[key] == 0
    ensures forall i :: 0 <= i < |es| && SendEntryOk(streams, es[i]) ==> SendEntryOk(Without(streams, g, key), es[i])
    ensures forall i :: 0 <= i < |es| && RecvEntryOk(streams, es[i]) ==> RecvEntryOk(Without(streams, g, key), es[i])
    ensures forall i :: 0 <= i < |es| && SendEntryOk(streams, es[i]) ==> es[i].userData != key
  {
    hide UserData.EventOf, UserData.OwnerOf, UserData.Pack, EntryKeys;
    forall i | 0 <= i < |es| && SendEntryOk(streams, es[i])
      ensures es[i].userData != key && SendEntryOk(Without(streams, g, key), es[i])
    {
      KeyPresent(es, i);
    }
  }

  lemma {:induction false} CqKept(streams: seq<Stream>, g: nat, key: nat, cq: seq<Cqe>)
    requires g < |streams| && g == UserData.OwnerOf(key) && CompletionKeys(cq)[key] == 0
    requires forall i :: 0 <= i < |cq| ==> CqeOk(streams, cq[i])
    ensures forall i :: 0 <= i < |cq| ==> CqeOk(Without(streams, g, key), cq[i])
  {
    hide UserData.EventOf, UserData.OwnerOf, UserData.ReqOf, And, CompletionKeys;
    forall i | 0 <= i < |cq|
      ensures CqeOk(Without(streams, g, key), cq[i])
    {
      assert CqeOk(streams, cq[i]);
      if UserData.EventOf(cq[i].userData) == UserData.SEND { CompletionKeyPresent(cq, i); }
    }
  }

  lemma {:induction false} SendHandled(cfg: Config, s: System)
    requires Inv(cfg, s) && s.cq != [] && UserData.EventOf(s.cq[0].userData) == UserData.SEND
    ensures DispatchFront(s).Ok?
    ensures var key := s.cq[0].userData; var g, s' := UserData.OwnerOf(key), DispatchFront(s).value;
      && g < |s.streams| && key in s.streams[g].pending
      && s' == s.(cq := s.cq[1..], streams := Without(s.streams, g, key),
                  heap := s.heap - {s.streams[g].pending[key].ptr})
  {
    hide UserData.EventOf, UserData.OwnerOf, UserData.ReqOf, And, BufferIdOf, GroupInv, SendInv, SendEntryOk,
      RecvEntryOk;
    assert CqeOk(s.streams, s.cq[0]);
  }

  lemma {:induction false} HeapWithout(streams: seq<Stream>, heap: map<nat, seq<byte>>, g: nat, key: nat)
    requires HeapInv(streams, heap) && g < |streams| && g == UserData.OwnerOf(key) && key in streams[g].pending
    ensures HeapInv(Without(streams, g, key), heap - {streams[g].pending[key].ptr})
  {
    hide UserData.EventOf, UserData.OwnerOf, Alive;
    PendingWithout(streams, g, key);
    AliveWithout(streams, heap, g, key);
  }

  lemma PendingWithout(streams: seq<Stream>, g: nat, key: nat)
    requires g < |streams| && g == UserData.OwnerOf(key)
    ensures forall k: nat ::
      PendingUnder(Without(streams, g, key), k) == if k == key then None else PendingUnder(streams, k)
  {
    hide UserData.OwnerOf;
  }

  lemma {:induction false} AliveWithout(streams: seq<Stream>, heap: map<nat, seq<byte>>, g: nat, key: nat)
    requires HeapInv(streams, heap) && g < |streams| && g == UserData.OwnerOf(key) && key in streams[g].pending
    ensures Alive(Without(streams, g, key), heap - {streams[g].pending[key].ptr})
  {
    hide UserData.EventOf, UserData.OwnerOf;
    var streams' := Without(streams, g, key);
    var heap' := heap - {streams[g].pending[key].ptr};
    forall h, k | 0 <= h < |streams'| && k in streams'[h].pending
      ensures AliveAt(heap', h, k, streams'[h].pending[k])
    {
      assert k in streams[h].pending && AliveAt(heap, h, k, streams[h].pending[k]);
      assert streams'[h].pending[k] == streams[h].pending[k];
      assert PendingUnder(streams, k) == Some(streams[h].pending[k]) && PendingUnder(streams, key).Some?;
    }
  }

  /** Freeing one payload leaves the others' bytes where the kernel will look for them. */
  lemma {:induction false} FlightsWithout(streams: seq<Stream>, heap: map<nat, seq<byte>>, g: nat, key: nat,
      es: seq<Sqe>)
    requires HeapInv(streams, heap) && g < |streams| && g == UserData.OwnerOf(key) && key in streams[g].pending
    requires forall i :: 0 <= i < |es| && es[i].opcode == OP_SEND ==>
      SendEntryOk(streams, es[i]) && es[i].userData != key
    ensures Flights(heap, es) == Flights(heap - {streams[g].pending[key].ptr}, es)
  {
    hide UserData.EventOf, UserData.OwnerOf, Flights, Intended, HeapInv;
    var heap' := heap - {streams[g].pending[key].ptr};
    forall i | 0 <= i < |es| && es[i].opcode == OP_SEND
      ensures HeapBytes(heap, es[i]) == HeapBytes(heap', es[i])
    {
      PayloadAlive(streams, heap, es[i]);
      OtherPointer(streams, heap, key, es[i].userData);
    }
    FlightsFrame(heap, heap', es);
  }

  lemma OtherPointer(streams: seq<Stream>, heap: map<nat, seq<byte>>, a: nat, b: nat)
    requires HeapInv(streams, heap) && a != b
    requires PendingUnder(streams, a).Some? && PendingUnder(streams, b).Some?
    ensures PendingUnder(streams, a).value.ptr != PendingUnder(streams, b).value.ptr
  {
    hide UserData.EventOf, UserData.OwnerOf;
  }

  lemma {:induction false} SentTokens(s: System, s': System, g: nat, key: nat)
    requires |s.sq.sqes| > 0 && TokenInv(s) && s.cq != [] && key == s.cq[0].userData
    requires UserData.EventOf(key) == UserData.SEND && g == UserData.OwnerOf(key) < |s.streams|
    requires key in s.streams[g].pending
    requires s'.sq == s.sq && s'.sends == s.sends && s'.cq == s.cq[1..] && s'.streams == Without(s.streams, g, key)
    ensures TokenInv(s')
  {
    hide UserData.EventOf, UserData.OwnerOf, Fifo, EntryKeys, CompletionKeys;
    FrontKeys(s.cq);
    PendingWithout(s.streams, g, key);
    assert Tokens(s) == Tokens(s') + multiset{key};
    forall k: nat
      ensures Tokens(s')[k] == if PendingUnder(s'.streams, k).Some? then 1 else 0
    {
      assert Tokens(s)[k] == if PendingUnder(s.streams, k).Some? then 1 else 0;
    }
  }

  lemma {:induction false} SentRoute(s: System, s': System, g: nat, key: nat)
    requires |s.sq.sqes| > 0 && TokenInv(s) && RouteInv(s) && s.cq != [] && key == s.cq[0].userData
    requires UserData.EventOf(key) == UserData.SEND && g == UserData.OwnerOf(key) < |s.streams|
    requires s'.sq == s.sq && s'.armed == s.armed && s'.sends == s.sends && s'.cq == s.cq[1..]
    requires s'.streams == Without(s.streams, g, key)
    ensures RouteInv(s')
    ensures forall i :: 0 <= i < |Fifo(s.sq)| && SendEntryOk(s.streams, Fifo(s.sq)[i]) ==> Fifo(s.sq)[i].userData != key
    ensures forall i :: 0 <= i < |s.sends| ==> s.sends[i].userData != key
  {
    hide UserData.EventOf, UserData.OwnerOf, Fifo, EntryKeys, CompletionKeys, SendEntryOk, RecvEntryOk, CqeOk,
      Without, TokenInv;
    OnlyToken(s);
    EntriesKept(s.streams, g, key, Fifo(s.sq));
    EntriesKept(s.streams, g, key, s.sends);
    ArmedKept(s.streams, g, key, s.armed);
    CqKept(s.streams, g, key, s.cq[1..]);
  }

  lemma ArmedKept(streams: seq<Stream>, g: nat, key: nat, es: seq<Sqe>)
    requires g < |streams|
    ensures forall i :: 0 <= i < |es| && RecvEntryOk(streams, es[i]) ==> RecvEntryOk(Without(streams, g, key), es[i])
  {
    hide UserData.Pack, Intended;
  }

  lemma {:induction false} SentLedger(s: System, s': System, g: nat, key: nat)
    requires |s.sq.sqes| > 0 && RouteInv(s) && HeapInv(s.streams, s.heap) && Ledger(s)
    requires g == UserData.OwnerOf(key) < |s.streams| && key in s.streams[g].pending
    requires s'.sq == s.sq && s'.sends == s.sends
    requires s'.written == s.written && s'.accepted == s.accepted && s'.wire == s.wire
    requires s'.heap == s.heap - {s.streams[g].pending[key].ptr}
    requires forall i :: 0 <= i < |Fifo(s.sq)| && SendEntryOk(s.streams, Fifo(s.sq)[i]) ==>
      Fifo(s.sq)[i].userData != key
    requires forall i :: 0 <= i < |s.sends| ==> s.sends[i].userData != key
    ensures Ledger(s')
  {
    hide UserData.EventOf, UserData.OwnerOf, Fifo, Flights, SendEntryOk, RecvEntryOk, CqeOk, HeapInv;
    var f := Fifo(s.sq);
    forall i | 0 <= i < |f| && f[i].opcode == OP_SEND
      ensures SendEntryOk(s.streams, f[i]) && f[i].userData != key
    {
      EntryKinds(s.streams, f[i]);
    }
    FlightsWithout(s.streams, s.heap, g, key, f);
    FlightsWithout(s.streams, s.heap, g, key, s.sends);
  }

  lemma {:induction false} SentStep(cfg: Config, s: System)
    requires Inv(cfg, s) && s.cq != [] && UserData.EventOf(s.cq[0].userData) == UserData.SEND
    ensures DispatchFront(s).Ok? && Inv(cfg, DispatchFront(s).value)
  {
    hide UserData.EventOf, UserData.OwnerOf, DispatchFront, Fifo, GroupInv, TokenInv, HeapInv, Ledger,
      RouteInv, PostedFor, And;
    SendHandled(cfg, s);
    var s', key := DispatchFront(s).value, s.cq[0].userData;
    var g := UserData.OwnerOf(key);
    SentTokens(s, s', g, key);
    SentRoute(s, s', g, key);
    HeapWithout(s.streams, s.heap, g, key);
    SentLedger(s, s', g, key);
    forall h | 0 <= h < |s.groups|
      ensures PostedFor(s'.cq, h) == PostedFor(s.cq, h)
    {
      FrontPosted(s.cq, h);
    }
    RecvSideUntouched(cfg, s, s');
  }

  /** Handling a completion never aborts. */
  lemma {:induction false} DispatchStep(cfg: Config, s: System)
    requires Inv(cfg, s) && s.cq != []
    ensures DispatchFront(s).Ok? && Inv(cfg, DispatchFront(s).value)
  {
    hide UserData.EventOf, UserData.OwnerOf, UserData.ReqOf, And, DispatchFront, RecvInv, SendInv,
      SendEntryOk, RecvEntryOk;
    assert CqeOk(s.streams, s.cq[0]);
    if UserData.EventOf(s.cq[0].userData) == UserData.SEND { SentStep(cfg, s); } else { RecvStep(cfg, s); }
  }

  /** Exactly which completions the loop handles: those whose owner is a stream, and that decode and
      are accepted by it. Only that stream changes. */
  lemma {:induction false} DispatchIff(s: System)
    requires s.cq != []
    ensures var g := UserData.OwnerOf(s.cq[0].userData);
      && (DispatchFront(s).Ok? <==>
           g < |s.streams| && Handle(Rings(s.groups), s.streams[g], s.cq[0]).Ok?)
      && (DispatchFront(s).Ok? ==>
           DispatchFront(s).value == s.(
             cq := s.cq[1..], heap := DispatchFront(s).value.heap,
             streams := s.streams[g := Handle(Rings(s.groups), s.streams[g], s.cq[0]).value]))
  {
    hide FromRawEvent, OnCompletion, Rings, UserData.OwnerOf;
  }

  // ---------- Reading ----------

  /** A read aborts exactly when it is given an empty slice while bytes are queued. */
  lemma {:induction false} ReadPanicsIff(cfg: Config, s: System, g: nat, want: nat)
    requires RecvInv(cfg, s) && g < |s.streams|
    ensures ReadFrom(cfg, s, g, want).Panic? <==> s.streams[g].queue != [] && want == 0
  {
    hide PostedFor, Groups.Inv, BufRings.Return, GiveBack, ReadFrom;
    assert GroupInv(cfg, s, g);
    if want > 0 {
      ReadIsGroupRead(cfg, s, g, want);
    } else {
      if s.streams[g].queue != [] {
        Groups.QueueFrontInMemory(GroupParams(cfg, s.groups, g), s.mem, View(s, g));
      }
      VecReadIsFifo(s.mem, s.streams[g].queue, want);
      EmptySlice(cfg, s, g);
    }
  }

  lemma EmptySlice(cfg: Config, s: System, g: nat)
    requires WellSized(cfg, s) && g < |s.streams|
    ensures VecRead(s.mem, s.streams[g].queue, 0).Panic? ==> ReadFrom(cfg, s, g, 0).Panic?
    ensures VecRead(s.mem, s.streams[g].queue, 0) == Ok(WouldBlock) ==> ReadFrom(cfg, s, g, 0) == Ok(s)
  {
    hide GiveBack;
  }

  /** A read is a read of the stream's own group: the drained buffer goes back where it came from. */
  lemma {:induction false} ReadIsGroupRead(cfg: Config, s: System, g: nat, want: nat)
    requires RecvInv(cfg, s) && g < |s.streams| && want > 0
    ensures ReadFrom(cfg, s, g, want).Ok?
    ensures var s' := ReadFrom(cfg, s, g, want).value;
      && |s'.groups| == |s'.streams| == |s'.hist| == |s.streams|
      && s'.groups == s.groups[g := s'.groups[g]] && s'.groups[g].base == s.groups[g].base
      && s'.streams == s.streams[g := s.streams[g].(queue := s'.streams[g].queue)]
      && s' == s.(groups := s'.groups, streams := s'.streams, hist := s'.hist)
      && s'.hist == s.hist[g := s.hist[g].(delivered := s'.hist[g].delivered, returned := s'.hist[g].returned)]
      && Groups.Read(GroupParams(cfg, s.groups, g), s.mem, View(s, g), want) == Ok(View(s', g))
      && Groups.Inv(GroupParams(cfg, s.groups, g), s.mem, View(s', g))
  {
    hide PostedFor, Groups.Inv, BufRings.Return;
    var p, v := GroupParams(cfg, s.groups, g), View(s, g);
    assert GroupInv(cfg, s, g);
    Groups.ReadKeeps(p, s.mem, v, want);
    FrontBelongs(p, s.mem, v, want);
  }

  lemma InvSized(p: Groups.Params, mem: seq<byte>, v: Groups.Group)
    requires Groups.Inv(p, mem, v)
    ensures BufRings.Sized(v.ring, p.k)
  {
  }

  lemma {:induction false} FrontBelongs(p: Groups.Params, mem: seq<byte>, v: Groups.Group, want: nat)
    requires Groups.Inv(p, mem, v) && want > 0
    ensures VecRead(mem, v.queue, want).Ok?
    ensures var r := VecRead(mem, v.queue, want).value; r.Got? && r.drained.Some? ==> r.drained.value.bgid == p.bgid
  {
    if v.queue != [] {
      Groups.QueueFrontInMemory(p, mem, v);
      VecReadIsFifo(mem, v.queue, want);
    }
  }

  lemma {:induction false} ReadStep(cfg: Config, s: System, g: nat, want: nat)
    requires Inv(cfg, s) && g < |s.streams| && want > 0
    ensures ReadFrom(cfg, s, g, want).Ok? && Inv(cfg, ReadFrom(cfg, s, g, want).value)
  {
    hide UserData.EventOf, UserData.OwnerOf, UserData.ReqOf, And, ReadFrom, Groups.Read, Groups.Inv,
      PostedFor, SendInv, Fifo, SendEntryOk, RecvEntryOk, CqeOk;
    ReadIsGroupRead(cfg, s, g, want);
    var s' := ReadFrom(cfg, s, g, want).value;
    forall h | 0 <= h < |s'.groups|
      ensures GroupInv(cfg, s', h)
    {
      assert GroupInv(cfg, s, h);
      assert GroupParams(cfg, s'.groups, h) == GroupParams(cfg, s.groups, h);
      if h != g { assert View(s', h) == View(s, h); }
    }
    SameBasesApart(cfg, s.groups, s'.groups);
    InvSized(GroupParams(cfg, s.groups, g), s.mem, View(s', g));
    ReadSized(cfg, s, s', g);
    SendSideUntouched(cfg, s, s');
  }

  lemma ReadSized(cfg: Config, s: System, s': System, g: nat)
    requires WellSized(cfg, s) && g < |s.streams| == |s'.streams| == |s'.groups|
    requires s'.groups == s.groups[g := s'.groups[g]] && BufRings.Sized(s'.groups[g].ring, cfg.k)
    requires s'.streams == s.streams[g := s.streams[g].(queue := s'.streams[g].queue)]
    requires s'.sq == s.sq && |s'.hist| == |s.hist|
    ensures WellSized(cfg, s')
  {
    hide Submission.Valid;
  }

  // ---------- Writing ----------

  /** While no pending send is 2^32 or more writes old, the next key is new. */
  lemma {:induction false} FreshKey(cfg: Config, s: System, g: nat)
    requires WellSized(cfg, s) && StreamsInv(cfg, s.streams, s.hist) && NumberInv(s.streams, s.hist)
    requires g < |s.streams| && YoungPending(s.streams[g], s.hist[g])
    ensures SendKey(s.streams[g]) !in s.streams[g].pending
    ensures SendKey(s.streams[g]) == KeyOfIssue(g, s.hist[g].issued)
  {
    hide UserData.Pack, KeyOfIssue, Submission.Valid, SendKey, IdOfIssue;
    KeyOfNext(s.streams[g], g, s.hist[g].issued);
    FreshNumber(g, s.streams[g].pending, s.hist[g].numbers, s.hist[g].issued);
  }

  lemma {:induction false} FreshNumber(g: nat, pending: map<nat, Payload>, numbers: map<nat, nat>, issued: nat)
    requires g < U16
    requires forall key :: key in pending ==>
      key in numbers && numbers[key] < issued < numbers[key] + U32 && key == KeyOfIssue(g, numbers[key])
    ensures KeyOfIssue(g, issued) !in pending
  {
    hide KeyOfIssue;
    var key := KeyOfIssue(g, issued);
    if key in pending {
      KeysClashIff(g, numbers[key], issued);
      SmallDifference(numbers[key], issued);
    }
  }

  lemma SmallDifference(a: nat, b: nat)
    requires a < b < a + U32
    ensures (b - a) % 0x1_0000_0000 != 0
  {
  }

  /** Exactly when a write would reuse the key of a pending send: some pending send of the stream is a
      multiple of 2^32 writes old. WriteStarvesIff says what becomes of that send. */
  lemma {:induction false} OverwritesIff(cfg: Config, s: System, g: nat)
    requires WellSized(cfg, s) && StreamsInv(cfg, s.streams, s.hist) && NumberInv(s.streams, s.hist) && g < |s.streams|
    ensures SendKey(s.streams[g]) in s.streams[g].pending <==>
      exists key :: key in s.streams[g].pending && key in s.hist[g].numbers
        && (s.hist[g].issued - s.hist[g].numbers[key]) % 0x1_0000_0000 == 0
  {
    hide UserData.Pack, KeyOfIssue, Submission.Valid, SendKey, IdOfIssue;
    var st, h := s.streams[g], s.hist[g];
    KeyOfNext(st, g, h.issued);
    forall key | key in st.pending
      ensures key in h.numbers
      ensures key == KeyOfIssue(g, h.issued) <==> (h.issued - h.numbers[key]) % 0x1_0000_0000 == 0
    {
      KeysClashIff(g, h.numbers[key], h.issued);
    }
  }

  /** The sends the kernel has still to complete are among these. */
  function InFlight(s: System): seq<Sqe>
    requires |s.sq.sqes| > 0
  {
    Fifo(s.sq) + s.sends
  }

  /** A send of stream g that is a multiple of 2^32 writes old. */
  predicate Stale(h: History, g: nat, e: Sqe) {
    && UserData.OwnerOf(e.userData) == g && e.userData in h.numbers
    && (h.issued - h.numbers[e.userData]) % 0x1_0000_0000 == 0
  }

  /** Exactly which sends in flight a write deprives of their payload: those of its own stream that
      are a multiple of 2^32 writes old. The kernel reads freed memory when it completes one. */
  lemma {:induction false} WriteStarvesIff(cfg: Config, s: System, g: nat, ptr: nat, bytes: seq<byte>)
    requires Inv(cfg, s) && WellSized(cfg, s) && g < |s.streams|
    requires bytes != [] && Unconsumed(s.sq) < |s.sq.sqes| && ptr !in s.heap
    ensures WriteTo(cfg, s, g, ptr, bytes).Ok?
    ensures forall i :: 0 <= i < |InFlight(s)| && InFlight(s)[i].opcode == OP_SEND ==>
      && HeapBytes(s.heap, InFlight(s)[i]).Some?
      && (HeapBytes(WriteTo(cfg, s, g, ptr, bytes).value.heap, InFlight(s)[i]).None? <==>
           Stale(s.hist[g], g, InFlight(s)[i]))
    ensures WriteTo(cfg, s, g, ptr, bytes).value.sends == s.sends
    ensures forall i, flags :: 0 <= i < |s.sends| ==>
      (CompleteSend(WriteTo(cfg, s, g, ptr, bytes).value, i, flags) == Panic(KernelReadsFreedPayload) <==>
        Stale(s.hist[g], g, s.sends[i]))
  {
    hide RecvInv, TokenInv, HeapInv, Ledger, SendEntryOk, RecvEntryOk, CqeOk, Fifo, Stale, SendKey, Prepare, HeapBytes,
      NumberInv, StreamsInv, UserData.OwnerOf, UserData.EventOf;
    var st, key := s.streams[g], SendKey(s.streams[g]);
    WritePanicsIff(st, s.sq, cfg.j, ptr, bytes);
    var s' := WriteTo(cfg, s, g, ptr, bytes).value;
    forall i | 0 <= i < |InFlight(s)| && InFlight(s)[i].opcode == OP_SEND
      ensures HeapBytes(s.heap, InFlight(s)[i]).Some?
      ensures HeapBytes(s'.heap, InFlight(s)[i]).None? <==> Stale(s.hist[g], g, InFlight(s)[i])
    {
      EntryKinds(s.streams, InFlight(s)[i]);
      StarvedIff(s.streams, s.heap, g, ptr, bytes, InFlight(s)[i]);
      StaleIff(cfg, s, g, InFlight(s)[i]);
    }
    forall i | 0 <= i < |s.sends|
      ensures s.sends[i] == InFlight(s)[|Fifo(s.sq)| + i] && s.sends[i].opcode == OP_SEND
    {
      assert SendEntryOk(s.streams, s.sends[i]);
      PayloadAlive(s.streams, s.heap, s.sends[i]);
    }
  }

  lemma {:induction false} StarvedIff(streams: seq<Stream>, heap: map<nat, seq<byte>>, g: nat, ptr: nat,
      bytes: seq<byte>, e: Sqe)
    requires HeapInv(streams, heap) && SendEntryOk(streams, e) && g < |streams| && ptr !in heap
    requires streams[g].owner == g < U16 && streams[g].sendId < U32
    ensures var key := SendKey(streams[g]);
      var kept := if key in streams[g].pending then heap - {streams[g].pending[key].ptr} else heap;
      HeapBytes(heap, e).Some? && (HeapBytes(kept[ptr := bytes], e).None? <==> e.userData == key)
  {
    hide UserData.OwnerOf, UserData.EventOf, UserData.Pack, SendKey, HeapInv;
    var key := SendKey(streams[g]);
    KeyParts(streams[g]);
    PayloadAlive(streams, heap, e);
    if key in streams[g].pending && e.userData != key { OtherPointer(streams, heap, key, e.userData); }
  }

  lemma {:induction false} StaleIff(cfg: Config, s: System, g: nat, e: Sqe)
    requires WellSized(cfg, s) && StreamsInv(cfg, s.streams, s.hist) && NumberInv(s.streams, s.hist) && g < |s.streams|
    requires SendEntryOk(s.streams, e)
    ensures e.userData == SendKey(s.streams[g]) <==> Stale(s.hist[g], g, e)
  {
    hide UserData.Pack, UserData.OwnerOf, UserData.EventOf, KeyOfIssue, Submission.Valid, SendKey, IdOfIssue, Intended;
    var st, h := s.streams[g], s.hist[g];
    KeyParts(st);
    KeyOfNext(st, g, h.issued);
    if UserData.OwnerOf(e.userData) == g {
      KeysClashIff(g, h.numbers[e.userData], h.issued);
    }
  }

  lemma KeyOfNext(st: Stream, g: nat, issued: nat)
    requires st.owner == g < U16 && st.sendId == IdOfIssue(issued)
    ensures SendKey(st) == KeyOfIssue(g, issued)
  {
    hide UserData.Pack;
  }

  /** The streams after a write. */
  function With(streams: seq<Stream>, g: nat, key: nat, p: Payload, sendId: nat): seq<Stream>
    requires g < |streams|
  {
    streams[g := streams[g].(sendId := sendId, pending := streams[g].pending[key := p])]
  }

  lemma {:induction false} WriteHandled(cfg: Config, s: System, g: nat, ptr: nat, bytes: seq<byte>)
      returns (s': System, key: nat, e: Sqe)
    requires Inv(cfg, s) && WellSized(cfg, s) && g < |s.streams|
    requires 0 < |bytes| < 0x8000_0000 && Unconsumed(s.sq) < |s.sq.sqes| && ptr !in s.heap
    requires YoungPending(s.streams[g], s.hist[g])
    ensures g < |s.streams| == |s.hist| && key == SendKey(s.streams[g])
    ensures e == Intended(Submission.Send(s.streams[g].fd, ptr, |bytes|, MSG_WAITALL, key))
    ensures s' == s.(streams := s'.streams, sq := s'.sq, heap := s.heap[ptr := bytes],
                     written := s.written + [Message(s.streams[g].fd, bytes)], hist := s'.hist)
    ensures s'.streams == With(s.streams, g, key, Payload(ptr, bytes), (s.streams[g].sendId + 1) % 0x1_0000_0000)
    ensures s'.hist == s.hist[g := s.hist[g].(
      issued := s.hist[g].issued + 1, numbers := s.hist[g].numbers[key := s.hist[g].issued])]
    ensures Valid(s'.sq, cfg.j) && Fifo(s'.sq) == Fifo(s.sq) + [e]
    ensures |s'.sq.sqes| == |s.sq.sqes| && (forall i :: 0 <= i < |s'.sq.sqes| ==> s'.sq.sqes[i].off == 0)
    ensures WriteTo(cfg, s, g, ptr, bytes) == Ok(s')
  {
    hide UserData.Pack, UserData.OwnerOf, UserData.EventOf, And, GroupInv, TokenInv, HeapInv, Ledger,
      SendEntryOk, RecvEntryOk, CqeOk, Fifo, Intended, Submission.Fill, Prepare;
    FreshKey(cfg, s, g);
    key := SendKey(s.streams[g]);
    var op := Submission.Send(s.streams[g].fd, ptr, |bytes|, MSG_WAITALL, key);
    e := Intended(op);
    PreparedEntry(s.sq, cfg.j, op);
    s' := WriteTo(cfg, s, g, ptr, bytes).value;
  }

  lemma {:induction false} PreparedEntry(q: Sq, j: nat, op: Submission.Op)
    requires Valid(q, j) && Unconsumed(q) < |q.sqes| && op.Send?
    requires forall i :: 0 <= i < |q.sqes| ==> q.sqes[i].off == 0
    ensures Prepare(q, op).Ok? && Valid(Prepare(q, op).value, j)
    ensures Fifo(Prepare(q, op).value) == Fifo(q) + [Intended(op)]
    ensures |Prepare(q, op).value.sqes| == |q.sqes|
    ensures forall i :: 0 <= i < |q.sqes| ==> Prepare(q, op).value.sqes[i].off == 0
  {
    hide Prepare, Submission.Fill, Intended, Fifo;
    PrepareAppends(q, j, op);
    PrepareValue(q, j, op);
    FillIsIntendedIff(q.sqes[Mod(q.tail, |q.sqes|)], op);
  }

  /** A new payload under a new key does not concern what was already routed. */
  lemma {:induction false} RoutedWith(streams: seq<Stream>, g: nat, key: nat, p: Payload, id: nat,
      es: seq<Sqe>, cq: seq<Cqe>)
    requires g < |streams| && g == UserData.OwnerOf(key) && key !in streams[g].pending
    ensures forall i :: 0 <= i < |es| && SendEntryOk(streams, es[i]) ==>
      SendEntryOk(With(streams, g, key, p, id), es[i])
    ensures forall i :: 0 <= i < |es| && RecvEntryOk(streams, es[i]) ==>
      RecvEntryOk(With(streams, g, key, p, id), es[i])
    ensures forall i :: 0 <= i < |cq| && CqeOk(streams, cq[i]) ==> CqeOk(With(streams, g, key, p, id), cq[i])
  {
    hide UserData.Pack, UserData.OwnerOf, UserData.EventOf, UserData.ReqOf, And, Intended;
  }

  lemma {:induction false} WrittenTokens(s: System, s': System, g: nat, key: nat, p: Payload, id: nat, e: Sqe)
    requires |s.sq.sqes| > 0 && |s'.sq.sqes| > 0 && TokenInv(s) && g == UserData.OwnerOf(key) < |s.streams|
    requires key !in s.streams[g].pending && s'.streams == With(s.streams, g, key, p, id)
    requires e.opcode == OP_SEND && e.userData == key
    requires Fifo(s'.sq) == Fifo(s.sq) + [e] && s'.sends == s.sends && s'.cq == s.cq
    ensures TokenInv(s')
  {
    hide UserData.OwnerOf, UserData.EventOf, Fifo, EntryKeys, CompletionKeys;
    EntryKeysConcat(Fifo(s.sq), [e]);
    EntryKeysOne(e);
    assert Tokens(s') == Tokens(s) + multiset{key};
    PendingWith(s.streams, g, key, p, id);
    forall k: nat
      ensures Tokens(s')[k] == if PendingUnder(s'.streams, k).Some? then 1 else 0
    {
      assert Tokens(s)[k] == if PendingUnder(s.streams, k).Some? then 1 else 0;
    }
  }

  lemma PendingWith(streams: seq<Stream>, g: nat, key: nat, p: Payload, id: nat)
    requires g < |streams| && g == UserData.OwnerOf(key)
    ensures forall k: nat ::
      PendingUnder(With(streams, g, key, p, id), k) == if k == key then Some(p) else PendingUnder(streams, k)
  {
    hide UserData.OwnerOf;
  }

  lemma {:induction false} HeapWith(streams: seq<Stream>, heap: map<nat, seq<byte>>, g: nat, key: nat,
      ptr: nat, bytes: seq<byte>, id: nat)
    requires HeapInv(streams, heap) && g < |streams| && g == UserData.OwnerOf(key)
    requires UserData.EventOf(key) == UserData.SEND
    requires key !in streams[g].pending && ptr !in heap && 0 < |bytes| < 0x8000_0000
    ensures HeapInv(With(streams, g, key, Payload(ptr, bytes), id), heap[ptr := bytes])
  {
    hide UserData.OwnerOf, UserData.EventOf;
    AliveWith(streams, heap, g, key, ptr, bytes, id);
    var streams' := With(streams, g, key, Payload(ptr, bytes), id);
    forall k: nat
      ensures PendingUnder(streams', k) == if k == key then Some(Payload(ptr, bytes)) else PendingUnder(streams, k)
      ensures k != key && PendingUnder(streams, k).Some? ==> PendingUnder(streams, k).value.ptr != ptr
    {
    }
  }

  lemma {:induction false} AliveWith(streams: seq<Stream>, heap: map<nat, seq<byte>>, g: nat, key: nat,
      ptr: nat, bytes: seq<byte>, id: nat)
    requires Alive(streams, heap) && g < |streams| && g == UserData.OwnerOf(key)
    requires UserData.EventOf(key) == UserData.SEND
    requires key !in streams[g].pending && ptr !in heap && 0 < |bytes| < 0x8000_0000
    ensures Alive(With(streams, g, key, Payload(ptr, bytes), id), heap[ptr := bytes])
  {
    hide UserData.OwnerOf, UserData.EventOf;
  }

  lemma {:induction false} FlightsWith(streams: seq<Stream>, heap: map<nat, seq<byte>>, ptr: nat,
      bytes: seq<byte>, es: seq<Sqe>)
    requires HeapInv(streams, heap) && ptr !in heap
    requires forall i :: 0 <= i < |es| && es[i].opcode == OP_SEND ==> SendEntryOk(streams, es[i])
    ensures Flights(heap, es) == Flights(heap[ptr := bytes], es)
  {
    hide UserData.OwnerOf, UserData.EventOf, Flights, SendEntryOk, HeapInv, PendingUnder;
    forall i | 0 <= i < |es| && es[i].opcode == OP_SEND
      ensures HeapBytes(heap, es[i]) == HeapBytes(heap[ptr := bytes], es[i])
    {
      PayloadAlive(streams, heap, es[i]);
    }
    FlightsFrame(heap, heap[ptr := bytes], es);
  }

  lemma {:induction false} WrittenLedger(s: System, s': System, ptr: nat, bytes: seq<byte>, fd: nat, e: Sqe)
    requires |s.sq.sqes| > 0 && |s'.sq.sqes| > 0 && RouteInv(s) && HeapInv(s.streams, s.heap) && Ledger(s)
    requires ptr !in s.heap && e.opcode == OP_SEND && e.fd == fd && e.addr == ptr && e.len == |bytes|
    requires Fifo(s'.sq) == Fifo(s.sq) + [e] && s'.sends == s.sends
    requires s'.accepted == s.accepted && s'.wire == s.wire
    requires s'.heap == s.heap[ptr := bytes] && s'.written == s.written + [Message(fd, bytes)]
    ensures Ledger(s')
    ensures Flights(s'.heap, Fifo(s'.sq)) == Flights(s.heap, Fifo(s.sq)) + [Message(fd, bytes)]
  {
    hide UserData.OwnerOf, UserData.EventOf, Fifo, Flights, SendEntryOk, RecvEntryOk, CqeOk, HeapInv;
    var f := Fifo(s.sq);
    forall i | 0 <= i < |f| && f[i].opcode == OP_SEND
      ensures SendEntryOk(s.streams, f[i])
    {
      EntryKinds(s.streams, f[i]);
    }
    FlightsWith(s.streams, s.heap, ptr, bytes, f);
    FlightsWith(s.streams, s.heap, ptr, bytes, s.sends);
    FlightsConcat(s'.heap, f, [e]);
    FlightsOne(s'.heap, e);
    assert bytes[..|bytes|] == bytes;
    SeqAssoc(s.accepted, Flights(s.heap, f), [Message(fd, bytes)]);
  }

  lemma {:induction false} WrittenNumbers(cfg: Config, s: System, s': System, g: nat, p: Payload)
    requires |s.streams| == |s.hist| <= 256 && StreamsInv(cfg, s.streams, s.hist)
    requires NumberInv(s.streams, s.hist) && g < |s.streams|
    requires s.streams[g].sendId < U32
    requires var key := SendKey(s.streams[g]);
      && key == KeyOfIssue(g, s.hist[g].issued)
      && s'.streams == With(s.streams, g, key, p, (s.streams[g].sendId + 1) % 0x1_0000_0000)
      && s'.hist == s.hist[g := s.hist[g].(
           issued := s.hist[g].issued + 1, numbers := s.hist[g].numbers[key := s.hist[g].issued])]
    ensures |s'.streams| == |s'.hist| && StreamsInv(cfg, s'.streams, s'.hist) && NumberInv(s'.streams, s'.hist)
  {
    hide UserData.Pack, KeyOfIssue;
    WrapAdd32(FIRST_SEND_ID + s.hist[g].issued, 1);
  }

  lemma {:induction false} WriteStep(cfg: Config, s: System, g: nat, ptr: nat, bytes: seq<byte>)
    requires Inv(cfg, s) && WellSized(cfg, s) && g < |s.streams|
    requires 0 < |bytes| < 0x8000_0000 && Unconsumed(s.sq) < |s.sq.sqes| && ptr !in s.heap
    requires YoungPending(s.streams[g], s.hist[g])
    ensures Kept(cfg, WriteTo(cfg, s, g, ptr, bytes))
    ensures SendKey(s.streams[g]) !in s.streams[g].pending
    ensures var s', message := WriteTo(cfg, s, g, ptr, bytes).value, Message(s.streams[g].fd, bytes);
      && s'.written == s.written + [message]
      && s'.accepted == s.accepted && s'.wire == s.wire && s'.sends == s.sends
      && Flights(s'.heap, Fifo(s'.sq)) == Flights(s.heap, Fifo(s.sq)) + [message]
  {
    hide UserData.Pack, UserData.OwnerOf, UserData.EventOf, UserData.ReqOf, And, WriteTo, GroupInv, TokenInv,
      HeapInv, Ledger, SendEntryOk, RecvEntryOk, CqeOk, Fifo, PostedFor, NumberInv, StreamsInv, YoungPending,
      SendKey;
    FreshKey(cfg, s, g);
    var s', key, e := WriteHandled(cfg, s, g, ptr, bytes);
    var st, p := s.streams[g], Payload(ptr, bytes);
    var id := (st.sendId + 1) % 0x1_0000_0000;
    KeyParts(st);
    NewEntryOk(s.streams, g, key, ptr, bytes, id, e);
    RoutedWith(s.streams, g, key, p, id, Fifo(s.sq), s.cq);
    RoutedWith(s.streams, g, key, p, id, s.armed, s.cq);
    RoutedWith(s.streams, g, key, p, id, s.sends, s.cq);
    WrittenTokens(s, s', g, key, p, id, e);
    HeapWith(s.streams, s.heap, g, key, ptr, bytes, id);
    WrittenLedger(s, s', ptr, bytes, st.fd, e);
    WrittenNumbers(cfg, s, s', g, p);
    assert RouteInv(s');
    RecvSideUntouched(cfg, s, s');
  }

  lemma KeyParts(st: Stream)
    requires st.owner < U16 && st.sendId < U32
    ensures UserData.OwnerOf(SendKey(st)) == st.owner && UserData.EventOf(SendKey(st)) == UserData.SEND
  {
    UserData.RoundTrip(UserData.SEND, st.owner, st.sendId);
  }

  lemma NewEntryOk(streams: seq<Stream>, g: nat, key: nat, ptr: nat, bytes: seq<byte>, id: nat, e: Sqe)
    requires g < |streams| && g == UserData.OwnerOf(key) && UserData.EventOf(key) == UserData.SEND
    requires e == Intended(Submission.Send(streams[g].fd, ptr, |bytes|, MSG_WAITALL, key)) && |bytes| < 0x8000_0000
    ensures SendEntryOk(With(streams, g, key, Payload(ptr, bytes), id), e)
    ensures e.opcode == OP_SEND && e.fd == streams[g].fd && e.addr == ptr && e.len == |bytes| && e.userData == key
  {
    hide UserData.OwnerOf, UserData.EventOf;
  }
}
