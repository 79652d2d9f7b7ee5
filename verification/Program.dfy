/** The program as it runs: streams, readers, buffer rings, submission ring and buffer memory as
    objects, sharing what the program shares. Setup and every step do in place what the system model
    says, so every run of the model is a run of the objects. */
module Programs {
  import opened Bits
  import opened Outcomes
  import opened Readers
  import opened RingMemory
  import opened ReaderObjects
  import opened StreamObjects
  import opened Systems
  import opened SystemUser
  import opened SystemRuns
  import BufRings
  import Groups
  import Streams
  import Submission
  import UserData

  class Program {
    const pool: BufRingPool
    const sq: SubmissionQueue
    var streams: seq<TcpStream>
    const mem: array<byte>

    /** No stream yet, an empty pool and a zeroed submission ring. */
    constructor (cfg: Config, mem: array<byte>)
      requires ConfigOk(cfg)
      ensures Shows(cfg, EmptySystem(cfg, mem[..])) && this.mem == mem && streams == []
      ensures fresh(pool) && fresh(pool.ptrs) && fresh(sq) && fresh(sq.sqes) && pool.Mems() == {}
    {
      this.mem := mem;
      streams := [];
      pool := new BufRingPool();
      sq := new SubmissionQueue(cfg.j);
      new;
      assert sq.sqes[..] == seq(Pow2(cfg.j), i => Submission.ZEROED);
    }

    /** Stream g uses the shared submission ring, and its queued buffers go back to group g's ring. */
    ghost predicate Own(cfg: Config, g: nat)
      requires g < |streams|
      reads this, streams[g], streams[g].inner, streams[g].inner.bufVec, pool.ptrs
    {
      var inner := streams[g].inner;
      && streams[g].Valid() && streams[g].sq == sq
      && g < pool.ptrs.Length && pool.ptrs[g] != null
      && pool.ptrs[g].Valid() && pool.ptrs[g].mem != mem && pool.ptrs[g].k == cfg.k
      && forall i :: 0 <= i < |inner.bufVec| ==> inner.bufVec[i].buf.value.ring == pool.ptrs[g]
    }

    /** Two streams share no object but the submission ring. */
    ghost predicate Separate(g: nat, h: nat)
      requires g < |streams| && h < |streams|
      reads this, streams[g].inner, streams[h].inner, pool.ptrs
    {
      && streams[g] != streams[h] && streams[g].inner != streams[h].inner
      && g < pool.ptrs.Length && h < pool.ptrs.Length && pool.ptrs[g] != null && pool.ptrs[h] != null
      && pool.ptrs[g].mem != pool.ptrs[h].mem
      && forall i, j :: 0 <= i < |streams[g].inner.bufVec| && 0 <= j < |streams[h].inner.bufVec| ==>
           streams[g].inner.bufVec[i] != streams[h].inner.bufVec[j]
    }

    /** Stream g is wired and holds st. */
    ghost predicate Holds(cfg: Config, g: nat, st: Streams.Stream)
      requires g < |streams|
      reads this, streams[g], streams[g].inner, streams[g].inner.bufVec, pool.ptrs
    {
      Own(cfg, g) && streams[g].Abs() == st
    }

    /** The streams hold these values. */
    ghost predicate HoldAll(cfg: Config, held: seq<Streams.Stream>)
      reads *
    {
      |held| == |streams| && forall g :: 0 <= g < |streams| ==> Holds(cfg, g, held[g])
    }

    /** All streams own what they should and nothing else is shared. */
    ghost predicate Wired(cfg: Config)
      reads *
    {
      && (forall g :: 0 <= g < |streams| ==> Own(cfg, g))
      && (forall g, h :: 0 <= g < |streams| && 0 <= h < |streams| && g != h ==> Separate(g, h))
      && (forall g :: |streams| <= g < pool.ptrs.Length ==> pool.ptrs[g] == null)
    }

    /** The objects hold the state s. */
    ghost predicate Shows(cfg: Config, s: System)
      reads *
    {
      && Wired(cfg) && HoldAll(cfg, s.streams) && pool.Valid() && sq.Valid() && |streams| <= Streams.MAX_BUFFER_GROUP
      && pool.Rings() == Rings(s.groups) && sq.Abs() == s.sq && mem[..] == s.mem
    }

    /** Stream g's objects are as they were. */
    twostate predicate Same(g: nat)
      requires streams == old(streams) && g < |streams|
      reads *
    {
      unchanged(streams[g], streams[g].inner, old(streams[g].inner.bufVec), pool.ptrs)
    }

    /** Stream g's readers are those it had, or new ones. */
    twostate predicate NoneBorrowed(g: nat)
      requires streams == old(streams) && g < |streams|
      reads this, streams[g].inner, pool.ptrs
    {
      && unchanged(pool.ptrs)
      && forall i :: 0 <= i < |streams[g].inner.bufVec| ==>
           streams[g].inner.bufVec[i] in old(streams[g].inner.bufVec) || fresh(streams[g].inner.bufVec[i])
    }

    /** Every stream but g holds what it held. */
    twostate predicate Others(cfg: Config, g: nat)
      requires streams == old(streams)
      reads *
    {
      forall h :: 0 <= h < |streams| && h != g ==> old(Own(cfg, h)) && Holds(cfg, h, old(streams[h].Abs()))
    }

    /** Every object the steps may change. */
    ghost function Footprint(): set<object>
      reads *
    {
      {mem, sq, sq.sqes} + pool.Mems()
        + (set st | st in streams :: st) + (set st | st in streams :: st.inner)
        + (set st, v | st in streams && v in st.inner.bufVec :: v)
    }

    lemma InFootprint()
      ensures {mem, sq, sq.sqes} + pool.Mems() <= Footprint()
      ensures forall st :: st in streams ==> st in Footprint() && st.inner in Footprint()
      ensures forall st, v :: st in streams && v in st.inner.bufVec ==> v in Footprint()
    {
    }

    /** No stream has a reader that was another's. */
    twostate predicate Grown()
      reads *
    {
      streams == old(streams) && unchanged(pool.ptrs) && forall g :: 0 <= g < |streams| ==> NoneBorrowed(g)
    }

    /** Read a completion, find its stream by the owner bits, let it handle the completion. */
    method HandleOne(ghost cfg: Config, ghost s: System, cqe: Streams.Cqe) returns (r: Outcome<()>)
      requires Shows(cfg, s) && s.cq != [] && cqe == s.cq[0]
      modifies streams, set st | st in streams :: st.inner
      ensures match DispatchFront(s)
        case Panic(site) => r == Panic(site)
        case Ok(s') => r.Ok? && Shows(cfg, s') && Grown()
    {
      hide DispatchFront, Streams.FromRawEvent, Streams.OnCompletion, UserData.OwnerOf, Returnable, BufRings.GetReadBuf,
        BufRings.Return, BufRing.Abs, Separate, Rings, Wired;
      DispatchParts(s);
      var c := FromRawEvent(pool, cqe);
      assert pool.Rings() == Rings(s.groups);
      if c.Panic? { return Panic(c.site); }
      var g := UserData.OwnerOf(cqe.userData);
      if g >= |streams| { return Panic(StreamMissing); }
      assert Own(cfg, g);
      label decoded:
      r := HandleBy(cfg, g, c.value);
      if r.Ok? {
        forall h | 0 <= h < |streams|
          ensures NoneBorrowed(h)
        {
          assert NoneBorrowed@decoded(h);
        }
      }
      assert pool.Rings() == Rings(s.groups) && sq.Abs() == s.sq;
    }

    method HandleBy(ghost cfg: Config, g: nat, c: Completion) returns (r: Outcome<()>)
      requires g < |streams| && Wired(cfg) && Own(cfg, g)
      requires c.kernelBuf.Some? ==> Returnable(c.kernelBuf.value) && c.kernelBuf.value.ring == pool.ptrs[g]
      modifies streams[g], streams[g].inner, c
      ensures match Streams.OnCompletion(old(streams[g].Abs()), old(c.Abs()))
        case Panic(site) => r == Panic(site)
        case Ok(st) => r.Ok? && Wired(cfg) && Holds(cfg, g, st) && Grown()
      ensures Others(cfg, g)
    {
      hide Streams.OnCompletion, Returnable, BufRing.Abs;
      r := HandleOwn(cfg, g, c);
      forall h | 0 <= h < |streams| && h != g
        ensures Same(h) && Own(cfg, h) && streams[h].Abs() == old(streams[h].Abs())
      {
        assert old(Separate(h, g)) && old(Own(cfg, h));
      }
      if r.Ok? {
        forall h, i | 0 <= h < |streams| && 0 <= i < |streams| && h != i
          ensures Separate(h, i)
        {
          assert old(Separate(h, i)) && (h != g ==> Same(h)) && (i != g ==> Same(i));
        }
      }
    }

    method HandleOwn(ghost cfg: Config, g: nat, c: Completion) returns (r: Outcome<()>)
      requires g < |streams| && Own(cfg, g)
      requires c.kernelBuf.Some? ==> Returnable(c.kernelBuf.value) && c.kernelBuf.value.ring == pool.ptrs[g]
      modifies streams[g], streams[g].inner, c
      ensures match Streams.OnCompletion(old(streams[g].Abs()), old(c.Abs()))
        case Panic(site) => r == Panic(site)
        case Ok(st) => r.Ok? && Holds(cfg, g, st) && NoneBorrowed(g)
    {
      hide Streams.OnCompletion, BufRing.Abs;
      r := streams[g].OnCompletion(c);
    }

    /** A stream's non-blocking read into a slice that is neither buffer nor ring memory. */
    method Read(ghost cfg: Config, ghost s: System, g: nat, out: array<byte>) returns (r: Outcome<Option<nat>>)
      requires Inv(cfg, s) && Shows(cfg, s) && WellSized(cfg, s) && g < |s.streams|
      requires out != mem && out !in pool.Mems()
      modifies streams[g].inner, streams[g].inner.bufVec, out, pool.Mems()
      ensures match ReadFrom(cfg, s, g, out.Length)
        case Panic(site) => r == Panic(site)
        case Ok(s') => r.Ok? && Shows(cfg, s') && Took(s, s', g, r.value, out[..]) && Grown()
    {
      hide Inv, ReadFrom, VecRead, BufRing.Abs, NoneBorrowed, Separate, WellSized, Took, QueueAfter,
        RingAfter, BytesOf, Rings, Wired, Returnable, Same, BufRings.Sized;
      assert Own(cfg, g) && streams[g].Abs() == s.streams[g];
      ReadParts(cfg, s, g, out.Length);
      if s.streams[g].queue != [] { FrontInMemory(cfg, s, g); }
      assert pool.Rings()[g] == Some(pool.ptrs[g].Abs());
      r := ReadBy(cfg, g, out);
      if r.Ok? {
        ghost var res := VecRead(s.mem, s.streams[g].queue, out.Length).value;
        TookFirst(s, ReadFrom(cfg, s, g, out.Length).value, g, res, out[..]);
      }
    }

    lemma RingsApart(cfg: Config, g: nat)
      requires Wired(cfg) && g < |streams| && Own(cfg, g)
      ensures forall h :: 0 <= h < pool.ptrs.Length && h != g && pool.ptrs[h] != null ==>
        pool.ptrs[h].mem != pool.ptrs[g].mem
    {
      forall h | 0 <= h < pool.ptrs.Length && h != g && pool.ptrs[h] != null
        ensures pool.ptrs[h].mem != pool.ptrs[g].mem
      {
        assert h < |streams| && Separate(h, g);
      }
    }

    /** What a read does to stream g and the ring of its group. */
    ghost predicate ReadDone(cfg: Config, g: nat, was: Streams.Stream, ring: BufRings.Ring, res: ReadResult,
                             n: Option<nat>, out: seq<byte>)
      requires g < |streams| && BufRings.Sized(ring, cfg.k)
      reads *
    {
      && Holds(cfg, g, was.(queue := QueueAfter(was.queue, res)))
      && pool.ptrs[g].Abs() == RingAfter(ring, cfg.k, res)
      && BytesOf(res) <= out
      && n == if res.Got? then Some(|BytesOf(res)|) else None
    }

    method ReadBy(ghost cfg: Config, g: nat, out: array<byte>) returns (r: Outcome<Option<nat>>)
      requires pool.Valid() && Wired(cfg) && g < |streams| && Own(cfg, g)
      requires out != mem && out !in pool.Mems() && streams[g].inner.FrontReadable(mem, out)
      modifies streams[g].inner, streams[g].inner.bufVec, out, pool.ptrs[g].mem
      ensures pool.Rings() == old(pool.Rings())[g := Some(pool.ptrs[g].Abs())]
      ensures var res := VecRead(old(mem[..]), old(streams[g].inner.Queue()), out.Length);
        if r.Panic? then res == Panic(r.site)
        else
          && res.Ok? && Wired(cfg) && Grown()
          && ReadDone(cfg, g, old(streams[g].Abs()), old(pool.ptrs[g].Abs()), res.value, r.value, out[..])
      ensures Others(cfg, g)
    {
      hide VecRead, BufRings.Return, BufRing.Abs, Returnable, ReadDone;
      RingsApart(cfg, g);
      r := ReadOwn(cfg, g, out);
      assert pool.Rings() == old(pool.Rings())[g := Some(pool.ptrs[g].Abs())];
      forall h | 0 <= h < |streams| && h != g
        ensures Same(h) && Own(cfg, h) && streams[h].Abs() == old(streams[h].Abs())
      {
        assert old(Separate(h, g)) && old(Own(cfg, h));
      }
      if r.Ok? {
        forall h, i | 0 <= h < |streams| && 0 <= i < |streams| && h != i
          ensures Separate(h, i)
        {
          assert old(Separate(h, i)) && (h != g ==> Same(h)) && (i != g ==> Same(i));
        }
      }
    }

    method ReadOwn(ghost cfg: Config, g: nat, out: array<byte>) returns (r: Outcome<Option<nat>>)
      requires g < |streams| && Own(cfg, g)
      requires out != mem && out != pool.ptrs[g].mem && streams[g].inner.FrontReadable(mem, out)
      modifies streams[g].inner, streams[g].inner.bufVec, out, pool.ptrs[g].mem
      ensures r.Ok? ==> Own(cfg, g) && NoneBorrowed(g)
      ensures var res := VecRead(old(mem[..]), old(streams[g].inner.Queue()), out.Length);
        if r.Panic? then res == Panic(r.site)
        else
          res.Ok? && ReadDone(cfg, g, old(streams[g].Abs()), old(pool.ptrs[g].Abs()), res.value, r.value, out[..])
    {
      hide VecRead, BufRings.Return, BufRing.Abs, Returnable;
      assert streams[g].inner.bufVec != [] ==> streams[g].inner.bufVec[0].buf.value.ring == pool.ptrs[g];
      ReadOfQueue(mem[..], streams[g].inner.Queue(), out.Length);
      r := streams[g].Read(mem, out);
    }

    /** A stream's non-blocking write. */
    method Write(ghost cfg: Config, ghost s: System, g: nat, ptr: nat, bytes: seq<byte>) returns (r: Outcome<nat>)
      requires Shows(cfg, s) && WellSized(cfg, s) && g < |s.streams|
      modifies streams[g], sq`sqeTail, sq.sqes
      ensures Grown()
      ensures match WriteTo(cfg, s, g, ptr, bytes)
        case Panic(site) => r == Panic(site) && Shows(cfg, s)
        case Ok(s') => r == Ok(|bytes|) && Shows(cfg, s')
    {
      hide Streams.Write, WellSized, BufRing.Abs, SubmissionQueue.Abs, Rings, Own, Separate, Wired, NoneBorrowed, Grown;
      assert Holds(cfg, g, s.streams[g]);
      OwnValid(cfg, g);
      assert streams[g].Abs() == s.streams[g];
      WriteParts(cfg, s, g, ptr, bytes);
      r := WriteBy(cfg, g, ptr, bytes);
    }

    lemma OwnValid(cfg: Config, g: nat)
      requires g < |streams| && Own(cfg, g)
      ensures streams[g].Valid()
    {
    }

    method WriteBy(ghost cfg: Config, g: nat, ptr: nat, bytes: seq<byte>) returns (r: Outcome<nat>)
      requires g < |streams| && Wired(cfg) && Own(cfg, g) && sq.Valid()
      modifies streams[g], sq`sqeTail, sq.sqes
      ensures Wired(cfg) && sq.Valid() && Grown()
      ensures match Streams.Write(old(streams[g].Abs()), old(sq.Abs()), ptr, bytes)
        case Panic(site) => r == Panic(site) && Holds(cfg, g, old(streams[g].Abs())) && sq.Abs() == old(sq.Abs())
        case Ok((st, q)) => r == Ok(|bytes|) && Holds(cfg, g, st) && sq.Abs() == q
      ensures Others(cfg, g)
    {
      hide Streams.Write, BufRing.Abs, SubmissionQueue.Abs, Returnable;
      r := streams[g].Write(ptr, bytes);
      assert Own(cfg, g);
      forall h | 0 <= h < |streams| && h != g
        ensures Own(cfg, h) && streams[h].Abs() == old(streams[h].Abs())
      {
        assert old(Separate(h, g)) && old(Own(cfg, h));
      }
      forall h, i | 0 <= h < |streams| && 0 <= i < |streams| && h != i
        ensures Separate(h, i)
      {
        assert old(Separate(h, i));
      }
    }

    // ---------- The kernel's steps on the objects ----------

    /** The kernel writes received bytes into a buffer. */
    method Receive(ghost cfg: Config, ghost s: System, ghost e: Submission.Sqe, addr: nat, data: seq<byte>,
        ghost extra: nat)
      requires Shows(cfg, s) && WellSized(cfg, s) && e.bufIndex < |s.groups|
      requires addr == NextSlot(s.groups[e.bufIndex]).addr && Systems.Receive(cfg, s, e, data, extra).Ok?
      modifies mem
      ensures Shows(cfg, Systems.Receive(cfg, s, e, data, extra).value) && Grown()
    {
      hide WellSized, BufRing.Abs, SubmissionQueue.Abs, Separate, Rings, Systems.Receive, Overwrite;
      ReceiveParts(cfg, s, e, data, extra);
      MemApart(cfg);
      CopyIn(addr, data);
      assert pool.Rings() == Rings(s.groups);
    }

    lemma MemApart(cfg: Config)
      requires Wired(cfg)
      ensures mem !in pool.Mems()
    {
      forall i | 0 <= i < pool.ptrs.Length && pool.ptrs[i] != null
        ensures pool.ptrs[i].mem != mem
      {
        assert Own(cfg, i);
      }
    }

    method CopyIn(addr: nat, data: seq<byte>)
      requires addr + |data| <= mem.Length
      modifies mem
      ensures mem[..] == Overwrite(old(mem[..]), addr, data)
    {
      var i := 0;
      while i < |data|
        invariant i <= |data|
        invariant mem[..] == Overwrite(old(mem[..]), addr, data[..i])
      {
        mem[addr + i] := data[i];
        i := i + 1;
      }
      assert data[..|data|] == data;
    }

    /** The kernel takes an entry off the submission ring. */
    method Consume(ghost cfg: Config, ghost s: System)
      requires Shows(cfg, s) && WellSized(cfg, s) && Submission.CanConsume(s.sq) && ConsumeEntry(s).Ok?
      modifies sq`khead
      ensures Shows(cfg, ConsumeEntry(s).value) && Grown()
    {
      hide WellSized, BufRing.Abs, Separate, And, Submission.Consume;
      var e := sq.Consume();
    }

    method Submit(ghost cfg: Config, ghost s: System)
      requires Shows(cfg, s)
      modifies sq`ktail
      ensures Shows(cfg, s.(sq := Submission.Submit(s.sq))) && Grown()
    {
      hide BufRing.Abs, Separate;
      sq.ktail := sq.sqeTail;
    }

    // ---------- Runs ----------

    /** A read into a slice of its own. */
    method ReadInto(ghost cfg: Config, ghost s: System, g: nat, want: nat)
      requires Inv(cfg, s) && Shows(cfg, s) && WellSized(cfg, s) && g < |s.streams| && ReadFrom(cfg, s, g, want).Ok?
      modifies streams[g].inner, streams[g].inner.bufVec, pool.Mems()
      ensures Shows(cfg, ReadFrom(cfg, s, g, want).value) && Grown()
    {
      hide Inv, Wired, WellSized, ReadFrom, Own, Separate, Rings, Took;
      var out := new byte[want](_ => 0);
      label ready:
      var r := Read(cfg, s, g, out);
      forall h | 0 <= h < |streams|
        ensures NoneBorrowed(h)
      {
        assert NoneBorrowed@ready(h);
      }
    }

    /** Any step of the system, done on the objects. */
    method Do(ghost cfg: Config, s: System, step: Step)
      requires Inv(cfg, s) && Shows(cfg, s) && Enabled(cfg, s, step)
      modifies Footprint()
      ensures Apply(cfg, s, step).Ok? && Inv(cfg, Apply(cfg, s, step).value)
      ensures Shows(cfg, Apply(cfg, s, step).value) && Grown()
    {
      hide Inv, Wired, WellSized, Systems.Receive, ConsumeEntry, DispatchFront, ReadFrom, WriteTo, Own, Separate,
        Rings, Took, Footprint;
      StepKeeps(cfg, s, step);
      InFootprint();
      match step {
        case KernelReceive(a, data, extra) =>
          Receive(cfg, s, s.armed[a], NextSlot(s.groups[s.armed[a].bufIndex]).addr, data, extra);
        case KernelConsume => Consume(cfg, s);
        case KernelCompleteSend(_, _) =>
        case SubmitAll => Submit(cfg, s);
        case Dispatch => var r := HandleOne(cfg, s, s.cq[0]);
        case StreamRead(g, want) => ReadInto(cfg, s, g, want);
        case StreamWrite(g, ptr, bytes) => var r := Write(cfg, s, g, ptr, bytes);
      }
    }

    /** Every run of the system is matched by the objects, step by step, without aborting. */
    method Follow(cfg: Config, s: System, steps: seq<Step>)
      requires Inv(cfg, s) && Shows(cfg, s) && RunEnabled(cfg, s, steps)
      modifies Footprint()
      ensures Run(cfg, s, steps).Ok? && Inv(cfg, Run(cfg, s, steps).value)
      ensures Shows(cfg, Run(cfg, s, steps).value)
      decreases |steps|
    {
      hide Inv, Shows, Enabled, Apply;
      if steps != [] {
        RunKeeps(cfg, s, steps);
        Do(cfg, s, steps[0]);
        forall g | 0 <= g < |streams|
          ensures forall v :: v in streams[g].inner.bufVec ==> v in old(streams[g].inner.bufVec) || fresh(v)
        {
          assert NoneBorrowed(g);
        }
        Follow(cfg, Apply(cfg, s, steps[0]).value, steps[1..]);
      }
    }

    // ---------- Setup ----------

    /** One iteration of the setup loop: a stream, its buffer group, its multishot receive. */
    method AddStream(cfg: Config, ghost s: System, spec: Spec, ring: BufRing)
      requires Shows(cfg, s) && ConfigOk(cfg) && |s.groups| == |s.streams| < 256
      requires BufRings.Sized(spec.ring, cfg.k) && spec.recvId < U32 && |s.sq.sqes| > 0
      requires SystemRuns.AddStream(cfg, s, spec).Ok?
      requires ring.Valid() && ring.k == cfg.k && ring.Abs() == spec.ring && ring.mem !in pool.Mems() && ring.mem != mem
      requires spec.base + Pow2(cfg.k) * cfg.size < U64
      modifies this, pool.ptrs, ring.mem, sq, sq.sqes
      ensures Shows(cfg, SystemRuns.AddStream(cfg, s, spec).value)
      ensures pool.Mems() == old(pool.Mems()) + {ring.mem} && OneMore()
    {
      hide BufRings.NewGroup, Submission.Prepare, BufRing.Abs, UserData.Pack, Rings, SubmissionQueue.Abs,
        SystemRuns.AddStream, And, Own, Separate, Wired;
      var g := |streams|;
      AddStreamParts(cfg, s, spec);
      var data := UserData.FromParts(UserData.MULTISHOT_RECV, g, spec.recvId);
      AddObjects(cfg, s.streams, spec.recvId, spec.fd, data, ring, spec.base);
    }

    /** Only a new stream has been added. */
    twostate predicate OneMore()
      reads this
    {
      && |streams| == |old(streams)| + 1 && streams[..|old(streams)|] == old(streams)
      && fresh(streams[|old(streams)|]) && fresh(streams[|old(streams)|].inner)
    }

    /** The same on the objects alone. */
    method AddObjects(cfg: Config, ghost held: seq<Streams.Stream>, recvId: nat, fd: nat, data: nat,
        ring: BufRing, base: nat)
      requires Wired(cfg) && HoldAll(cfg, held) && pool.Valid() && sq.Valid() && |streams| < 256 && recvId < U32
      requires ring.Valid() && ring.k == cfg.k && ring.mem !in pool.Mems() && ring.mem != mem
      requires cfg.size < U32 && base + Pow2(cfg.k) * cfg.size < U64
      modifies this, pool.ptrs, ring.mem, sq, sq.sqes
      ensures Wired(cfg) && pool.Valid() && sq.Valid()
      ensures HoldAll(cfg, held + [Streams.NewStream(|held|, recvId, fd, Pow2(cfg.k))])
      ensures pool.Mems() == old(pool.Mems()) + {ring.mem} && OneMore()
      ensures pool.Rings() ==
        old(pool.Rings())[|held| := Some(BufRings.NewGroup(old(ring.Abs()), cfg.k, base, cfg.size))]
      ensures match Submission.Prepare(old(sq.Abs()), Submission.Recv(fd, 0, |held|, data))
        case Panic(_) => true
        case Ok(q) => sq.Abs() == q
    {
      hide BufRings.NewGroup, Submission.Prepare, BufRing.Abs, SubmissionQueue.Abs, And, Own, Holds, Separate,
        Wired, Ready;
      var g := |streams|;
      var st := new TcpStream(sq, g, recvId, fd, Pow2(cfg.k));
      ghost var added := st.Abs();
      AddGroup(cfg, held, ring, base, cfg.size);
      Join(cfg, held, st);
      Arm(cfg, held + [added], fd, g, data);
    }

    /** Wired, but for the stream whose group is already in the pool. */
    ghost predicate Ready(cfg: Config)
      reads *
    {
      var g := |streams|;
      && g < pool.ptrs.Length && pool.ptrs[g] != null && pool.ptrs[g].Valid() && pool.ptrs[g].k == cfg.k
      && pool.ptrs[g].mem != mem
      && (forall h :: 0 <= h < pool.ptrs.Length && h != g && pool.ptrs[h] != null ==>
           pool.ptrs[h].mem != pool.ptrs[g].mem)
      && (forall h :: g < h < pool.ptrs.Length ==> pool.ptrs[h] == null)
      && (forall h :: 0 <= h < |streams| ==> Own(cfg, h))
      && (forall h, i :: 0 <= h < |streams| && 0 <= i < |streams| && h != i ==> Separate(h, i))
    }

    /** The next stream's ring joins the pool; no other group or stream notices. */
    method AddGroup(ghost cfg: Config, ghost held: seq<Streams.Stream>, ring: BufRing, base: nat, size: nat)
      requires Wired(cfg) && HoldAll(cfg, held) && pool.Valid() && |streams| < 256
      requires ring.Valid() && ring.k == cfg.k && ring.mem !in pool.Mems() && ring.mem != mem
      requires size < U32 && base + Pow2(cfg.k) * size < U64
      modifies pool.ptrs, ring.mem
      ensures Ready(cfg) && pool.Valid() && HoldAll(cfg, held)
      ensures pool.Rings() ==
        old(pool.Rings())[|streams| := Some(BufRings.NewGroup(old(ring.Abs()), cfg.k, base, size))]
      ensures pool.Mems() == old(pool.Mems()) + {ring.mem}
    {
      hide BufRings.NewGroup, BufRing.Abs;
      var g := |streams|;
      var filled := pool.NewBufferGroup(ring, g, base, size);
      assert forall h :: 0 <= h < pool.ptrs.Length ==> pool.ptrs[h] == if h == g then ring else old(pool.ptrs[..])[h];
      forall h | 0 <= h < |streams|
        ensures Own(cfg, h) && Holds(cfg, h, held[h])
      {
        assert old(Own(cfg, h)) && old(Holds(cfg, h, held[h]));
      }
      forall h, i | 0 <= h < |streams| && 0 <= i < |streams| && h != i
        ensures Separate(h, i)
      {
        assert old(Separate(h, i));
      }
    }

    /** A new stream joins the others once its group is in the pool. */
    method Join(ghost cfg: Config, ghost held: seq<Streams.Stream>, st: TcpStream)
      requires Ready(cfg) && HoldAll(cfg, held) && st.Valid() && st.sq == sq && st.inner.bufVec == []
      requires forall h :: 0 <= h < |streams| ==> streams[h] != st && streams[h].inner != st.inner
      modifies this
      ensures Wired(cfg) && HoldAll(cfg, held + [old(st.Abs())]) && streams == old(streams) + [st]
    {
      streams := streams + [st];
      forall h | 0 <= h < |streams|
        ensures Own(cfg, h) && (h < |held| ==> Holds(cfg, h, held[h]))
      {
        if h < |held| { assert old(Own(cfg, h)) && old(Holds(cfg, h, held[h])); }
      }
      forall h, i | 0 <= h < |streams| && 0 <= i < |streams| && h != i
        ensures Separate(h, i)
      {
        if h < |old(streams)| { assert old(Own(cfg, h)); }
        if i < |old(streams)| { assert old(Own(cfg, i)); }
        if h < |old(streams)| && i < |old(streams)| { assert old(Separate(h, i)); }
      }
    }

    /** Prepare a stream's multishot receive. */
    method Arm(ghost cfg: Config, ghost held: seq<Streams.Stream>, fd: nat, g: nat, data: nat)
      requires Wired(cfg) && HoldAll(cfg, held) && sq.Valid()
      modifies sq, sq.sqes
      ensures Wired(cfg) && HoldAll(cfg, held) && sq.Valid()
      ensures match Submission.Prepare(old(sq.Abs()), Submission.Recv(fd, 0, g, data))
        case Panic(_) => true
        case Ok(q) => sq.Abs() == q
    {
      hide Submission.Prepare, And, SubmissionQueue.Abs;
      var armed := sq.PrepRecv(fd, g, data);
      forall h, i | 0 <= h < |streams| && 0 <= i < |streams| && h != i
        ensures Separate(h, i)
      {
        assert old(Separate(h, i));
      }
    }

    /** The rings the kernel hands out for some specs, none of them in the pool yet. */
    ghost predicate Fits(cfg: Config, specs: seq<Spec>, rings: seq<BufRing>)
      reads this, pool.ptrs, set r | r in rings :: r.mem
    {
      && |rings| == |specs|
      && (forall i :: 0 <= i < |rings| ==>
            && rings[i].Valid() && rings[i].k == cfg.k && rings[i].Abs() == specs[i].ring
            && rings[i].mem != mem && rings[i].mem !in pool.Mems())
      && forall i, j :: 0 <= i < j < |rings| ==> rings[i].mem != rings[j].mem
    }

    method AddNext(cfg: Config, ghost s: System, specs: seq<Spec>, rings: seq<BufRing>)
      requires Fits(cfg, specs, rings) && specs != []
      requires Shows(cfg, s) && ConfigOk(cfg) && |s.groups| == |s.streams| < 256
      requires BufRings.Sized(specs[0].ring, cfg.k) && specs[0].recvId < U32 && |s.sq.sqes| > 0
      requires SystemRuns.AddStream(cfg, s, specs[0]).Ok? && specs[0].base + Pow2(cfg.k) * cfg.size < U64
      modifies this, pool.ptrs, rings[0].mem, sq, sq.sqes
      ensures Shows(cfg, SystemRuns.AddStream(cfg, s, specs[0]).value) && OneMore()
      ensures Fits(cfg, specs[1..], rings[1..]) && pool.Mems() == old(pool.Mems()) + {rings[0].mem}
      ensures mem[..] == old(mem[..])
    {
      hide Shows, SystemRuns.AddStream, BufRings.Sized, BufRing.Abs;
      AddStream(cfg, s, specs[0], rings[0]);
    }

    /** The setup loop on the objects. */
    method SetUp(cfg: Config, specs: seq<Spec>, rings: seq<BufRing>)
      requires mem.Length < U64 && SpecsOk(cfg, mem.Length, specs) && Fits(cfg, specs, rings)
      requires Shows(cfg, EmptySystem(cfg, mem[..]))
      modifies this, pool.ptrs, sq, sq.sqes, RingMems(rings)
      ensures Setup(cfg, mem[..], specs).Ok? && Shows(cfg, Setup(cfg, mem[..], specs).value)
      ensures pool.Mems() <= old(pool.Mems()) + RingMems(rings)
      ensures forall st :: st in streams ==> st in old(streams) || (fresh(st) && fresh(st.inner))
    {
      hide Shows, SystemRuns.AddStream, Inv, SpecOk, BufRings.Sized, SetupUpTo, BufRing.Abs, SpecsOk, Fits;
      ghost var m := mem[..];
      UpToEnds(cfg, m, specs);
      FitsLength(cfg, specs, rings);
      for i := 0 to |specs|
        invariant mem[..] == m && SetupUpTo(cfg, m, specs, i).Ok?
        invariant Shows(cfg, SetupUpTo(cfg, m, specs, i).value)
        invariant Fits(cfg, specs[i..], rings[i..])
        invariant pool.Mems() <= old(pool.Mems()) + RingMems(rings)
        invariant forall st :: st in streams ==> st in old(streams) || (fresh(st) && fresh(st.inner))
      {
        NextSpec(cfg, m, specs, i);
        assert rings[i..][0] == rings[i] && specs[i..][0] == specs[i];
        assert rings[i..][1..] == rings[i + 1..] && specs[i..][1..] == specs[i + 1..];
        AddNext(cfg, SetupUpTo(cfg, m, specs, i).value, specs[i..], rings[i..]);
      }
    }

    lemma FitsLength(cfg: Config, specs: seq<Spec>, rings: seq<BufRing>)
      requires Fits(cfg, specs, rings)
      ensures |rings| == |specs| && specs[0..] == specs && rings[0..] == rings
    {
    }

    /** With nothing queued there are no readers. */
    lemma NothingQueued(cfg: Config, s: System)
      requires Shows(cfg, s) && forall g :: 0 <= g < |s.streams| ==> s.streams[g].queue == []
      ensures forall st :: st in streams ==> st.inner.bufVec == []
    {
      forall g | 0 <= g < |streams|
        ensures streams[g].inner.bufVec == []
      {
        assert Holds(cfg, g, s.streams[g]);
      }
    }
  }

  ghost function RingMems(rings: seq<BufRing>): set<object> { set r | r in rings :: r.mem }

  lemma {:induction false} SetupQueuesNothing(cfg: Config, mem: seq<byte>, specs: seq<Spec>)
    requires Setup(cfg, mem, specs).Ok?
    ensures forall g :: 0 <= g < |Setup(cfg, mem, specs).value.streams| ==>
      Setup(cfg, mem, specs).value.streams[g].queue == []
    decreases |specs|
  {
    hide AddStream, BufRings.Sized;
    if specs != [] {
      SetupQueuesNothing(cfg, mem, specs[..|specs| - 1]);
      AddedQueuesNothing(cfg, Setup(cfg, mem, specs[..|specs| - 1]).value, specs[|specs| - 1]);
    }
  }

  lemma AddedQueuesNothing(cfg: Config, s: System, spec: Spec)
    requires BufRings.Sized(spec.ring, cfg.k) && spec.recvId < U32 && |s.sq.sqes| > 0 && AddStream(cfg, s, spec).Ok?
    requires forall g :: 0 <= g < |s.streams| ==> s.streams[g].queue == []
    ensures var s' := AddStream(cfg, s, spec).value; forall g :: 0 <= g < |s'.streams| ==> s'.streams[g].queue == []
  {
    hide Submission.Prepare, BufRings.NewGroup, UserData.Pack;
  }

  /** The whole program on objects: setup, then any run. It does not abort, and the objects end in the
      state the system model ends in. */
  method RunProgram(cfg: Config, mem: array<byte>, specs: seq<Spec>, rings: seq<BufRing>, steps: seq<Step>)
      returns (program: Program)
    requires mem.Length < U64 && SpecsOk(cfg, mem.Length, specs) && |rings| == |specs|
    requires forall i :: 0 <= i < |rings| ==>
      rings[i].Valid() && rings[i].k == cfg.k && rings[i].Abs() == specs[i].ring && rings[i].mem != mem
    requires forall i, j :: 0 <= i < j < |rings| ==> rings[i].mem != rings[j].mem
    requires Setup(cfg, mem[..], specs).Ok? ==> RunEnabled(cfg, Setup(cfg, mem[..], specs).value, steps)
    modifies mem, RingMems(rings)
    ensures Setup(cfg, old(mem[..]), specs).Ok?
    ensures var s := Setup(cfg, old(mem[..]), specs).value;
      Run(cfg, s, steps).Ok? && program.Shows(cfg, Run(cfg, s, steps).value)
  {
    hide Program.Shows, Inv, BufRings.Sized, SpecOk, Setup, Run, RunEnabled, BufRing.Abs;
    SetupKeeps(cfg, mem[..], specs);
    var s := Setup(cfg, mem[..], specs).value;
    program := new Program(cfg, mem);
    program.SetUp(cfg, specs, rings);
    SetupQueuesNothing(cfg, mem[..], specs);
    program.NothingQueued(cfg, s);
    program.Follow(cfg, s, steps);
  }

  ghost function SetupUpTo(cfg: Config, mem: seq<byte>, specs: seq<Spec>, i: nat): Outcome<System>
    requires i <= |specs|
  {
    Setup(cfg, mem, specs[..i])
  }

  lemma UpToEnds(cfg: Config, mem: seq<byte>, specs: seq<Spec>)
    ensures SetupUpTo(cfg, mem, specs, 0) == Ok(EmptySystem(cfg, mem))
    ensures SetupUpTo(cfg, mem, specs, |specs|) == Setup(cfg, mem, specs)
  {
    assert specs[..|specs|] == specs;
  }

  /** The next stream can be set up. */
  lemma {:induction false} NextSpec(cfg: Config, mem: seq<byte>, specs: seq<Spec>, i: nat)
    requires SpecsOk(cfg, |mem|, specs) && i < |specs| && |mem| < U64
    ensures SetupUpTo(cfg, mem, specs, i).Ok? && SetupUpTo(cfg, mem, specs, i + 1).Ok?
    ensures var s := SetupUpTo(cfg, mem, specs, i).value;
      && |s.groups| == |s.streams| < 256 && |s.sq.sqes| > 0
      && ConfigOk(cfg) && BufRings.Sized(specs[i].ring, cfg.k) && specs[i].recvId < U32
      && specs[i].base + Pow2(cfg.k) * cfg.size < U64
      && AddStream(cfg, s, specs[i]) == SetupUpTo(cfg, mem, specs, i + 1)
  {
    hide SystemRuns.AddStream, Inv, BufRings.Sized;
    PrefixesOk(cfg, |mem|, specs, i);
    PrefixesOk(cfg, |mem|, specs, i + 1);
    SetupKeeps(cfg, mem, specs[..i]);
    SetupKeeps(cfg, mem, specs[..i + 1]);
    assert specs[..i + 1][..i] == specs[..i] && specs[..i + 1][i] == specs[i];
    BufRings.BlockAddress(specs[i].base, cfg.size, Pow2(cfg.k));
  }

  /** What adding a stream changes. */
  lemma {:induction false} AddStreamParts(cfg: Config, s: System, spec: Spec)
    requires BufRings.Sized(spec.ring, cfg.k) && spec.recvId < U32 && |s.sq.sqes| > 0
    requires |s.groups| == |s.streams| < 256 && AddStream(cfg, s, spec).Ok?
    ensures var g, s' := |s.streams|, AddStream(cfg, s, spec).value;
      var q := Submission.Prepare(s.sq, RecvOp(g, spec));
      && q.Ok? && s'.sq == q.value
      && s'.streams == s.streams + [Streams.NewStream(g, spec.recvId, spec.fd, Pow2(cfg.k))]
      && Rings(s'.groups) == Rings(s.groups)[g := Some(BufRings.NewGroup(spec.ring, cfg.k, spec.base, cfg.size))]
      && s'.mem == s.mem
  {
    hide Submission.Prepare, BufRings.NewGroup, UserData.Pack;
  }

  /** What a write changes: its stream and the submission ring. */
  lemma {:induction false} WriteParts(cfg: Config, s: System, g: nat, ptr: nat, bytes: seq<byte>)
    requires WellSized(cfg, s) && g < |s.streams|
    ensures s.streams[g].owner < U16 && s.streams[g].sendId < U32 && |s.sq.sqes| > 0
    ensures match Streams.Write(s.streams[g], s.sq, ptr, bytes)
      case Panic(site) => WriteTo(cfg, s, g, ptr, bytes) == Panic(site)
      case Ok((st, q)) =>
        && WriteTo(cfg, s, g, ptr, bytes).Ok?
        && var s' := WriteTo(cfg, s, g, ptr, bytes).value;
        && s'.streams == s.streams[g := st] && s'.sq == q && s'.groups == s.groups && s'.mem == s.mem
  {
    hide Streams.Write;
  }

  /** What a receive changes of what the objects hold: the memory. */
  lemma {:induction false} ReceiveParts(cfg: Config, s: System, e: Submission.Sqe, data: seq<byte>, extra: nat)
    requires WellSized(cfg, s) && e.bufIndex < |s.groups| && Systems.Receive(cfg, s, e, data, extra).Ok?
    ensures var s', addr := Systems.Receive(cfg, s, e, data, extra).value, NextSlot(s.groups[e.bufIndex]).addr;
      && s'.streams == s.streams && s'.sq == s.sq && Rings(s'.groups) == Rings(s.groups)
      && addr + |data| <= |s.mem| && s'.mem == Overwrite(s.mem, addr, data)
  {
    hide Submission.Valid, Overwrite;
  }

  // ---------- What a read leaves ----------

  function QueueAfter(queue: seq<Reader>, res: ReadResult): seq<Reader> {
    if res.Got? then res.queue else queue
  }

  function RingAfter(ring: BufRings.Ring, k: nat, res: ReadResult): BufRings.Ring
    requires BufRings.Sized(ring, k)
  {
    if res.Got? && res.drained.Some? then BufRings.Return(ring, k, res.drained.value) else ring
  }

  function BytesOf(res: ReadResult): seq<byte> { if res.Got? then res.bytes else [] }

  /** What a read reports is what it delivered: the first bytes of the slice, or none. */
  predicate Took(s: System, s': System, g: nat, n: Option<nat>, out: seq<byte>) {
    var count := if n.Some? then n.value else 0;
    && g < |s.hist| && g < |s'.hist| && count <= |out|
    && s'.hist[g].delivered == s.hist[g].delivered + out[..count]
  }

  lemma TookFirst(s: System, s': System, g: nat, res: ReadResult, out: seq<byte>)
    requires g < |s.hist| && g < |s'.hist| && s'.hist[g].delivered == s.hist[g].delivered + BytesOf(res)
    requires BytesOf(res) <= out
    ensures Took(s, s', g, if res.Got? then Some(|BytesOf(res)|) else None, out)
  {
    assert out[..|BytesOf(res)|] == BytesOf(res);
  }

  lemma ReadOfQueue(mem: seq<byte>, queue: seq<Reader>, want: nat)
    ensures VecRead(mem, queue, want).Ok? ==> (VecRead(mem, queue, want).value.Got? <==> queue != [])
  {
  }

  /** What a read changes: the stream's queue, and its own group's ring. */
  lemma {:induction false} ReadParts(cfg: Config, s: System, g: nat, want: nat)
    requires Inv(cfg, s) && WellSized(cfg, s) && g < |s.streams|
    ensures |s.groups| == |s.streams| == |s.hist| <= Streams.MAX_BUFFER_GROUP && BufRings.Sized(s.groups[g].ring, cfg.k)
    ensures var res, r := VecRead(s.mem, s.streams[g].queue, want), ReadFrom(cfg, s, g, want);
      if res.Panic? then r == Panic(res.site)
      else
        && r.Ok? && |r.value.hist| == |s.hist|
        && r.value.hist[g].delivered == s.hist[g].delivered + BytesOf(res.value)
        && r.value == s.(
             streams := s.streams[g := s.streams[g].(queue := QueueAfter(s.streams[g].queue, res.value))],
             groups := s.groups[g := s.groups[g].(ring := RingAfter(s.groups[g].ring, cfg.k, res.value))],
             hist := r.value.hist)
        && Rings(r.value.groups) == Rings(s.groups)[g := Some(RingAfter(s.groups[g].ring, cfg.k, res.value))]
  {
    hide StreamsInv, RouteInv, SendInv, Groups.Inv, Apart, BufRings.Return, Submission.Valid;
    assert GroupInv(cfg, s, g);
    if want > 0 { FrontBelongs(GroupParams(cfg, s.groups, g), s.mem, View(s, g), want); }
  }

  lemma FrontInMemory(cfg: Config, s: System, g: nat)
    requires Inv(cfg, s) && g < |s.streams| && s.streams[g].queue != []
    ensures InMemory(|s.mem|, s.streams[g].queue[0])
  {
    hide StreamsInv, RouteInv, SendInv, Groups.Inv, Apart, Submission.Valid;
    assert GroupInv(cfg, s, g);
    Groups.QueueFrontInMemory(GroupParams(cfg, s.groups, g), s.mem, View(s, g));
  }

  lemma DispatchParts(s: System)
    requires s.cq != []
    ensures var g, c := UserData.OwnerOf(s.cq[0].userData), Streams.FromRawEvent(Rings(s.groups), s.cq[0]);
      match c
      case Panic(site) => DispatchFront(s) == Panic(site)
      case Ok(completion) =>
        if g >= |s.streams| then DispatchFront(s) == Panic(StreamMissing)
        else
          match Streams.OnCompletion(s.streams[g], completion)
          case Panic(site) => DispatchFront(s) == Panic(site)
          case Ok(st) =>
            && DispatchFront(s).Ok?
            && DispatchFront(s).value ==
                 s.(streams := s.streams[g := st], cq := s.cq[1..], heap := DispatchFront(s).value.heap)
  {
    hide Streams.FromRawEvent, Streams.OnCompletion, Rings;
  }
}
