/** A return as one step. Elsewhere a return, or the setup batch, changes the ring at once; here every
    interleaving of its single stores with kernel takes is shown to come to the same. */
module AtomicReturns {
  import opened Bits
  import opened Outcomes
  import opened Windows
  import opened BufRings
  import opened Publication
  import Groups

  /** The ring, the kernel's index and the entries it has taken. */
  datatype Coarse = Coarse(ring: Ring, head: nat, got: seq<Slot>)

  datatype CoarseStep = ReturnAll(batch: seq<Slot>) | TakeOne

  /** The first j adds of a batch. */
  function AddAll(r: Ring, k: nat, batch: seq<Slot>, j: nat): (r': Ring)
    requires Sized(r, k) && j <= |batch|
    ensures Sized(r', k) && r'.tail == r.tail
  {
    if j == 0 then r else Add(AddAll(r, k, batch, j - 1), k, batch[j - 1], j - 1)
  }

  /** All adds of a batch and the one advance after them. */
  function ReturnBatch(r: Ring, k: nat, batch: seq<Slot>): (r': Ring)
    requires Sized(r, k)
    ensures Sized(r', k)
  {
    Advance(AddAll(r, k, batch, |batch|), k, |batch|)
  }

  predicate CoarseEnabled(c: Coarse, k: nat, step: CoarseStep) {
    Sized(c.ring, k) && (step.TakeOne? ==> c.head != c.ring.tail)
  }

  function CoarseApply(c: Coarse, k: nat, step: CoarseStep): (c': Coarse)
    requires CoarseEnabled(c, k, step)
    ensures Sized(c'.ring, k)
  {
    match step
    case ReturnAll(batch) => c.(ring := ReturnBatch(c.ring, k, batch))
    case TakeOne =>
      c.(head := (c.head + 1) % 0x1_0000, got := c.got + [c.ring.slots[Mod(c.head, |c.ring.slots|)]])
  }

  predicate CoarseRunEnabled(c: Coarse, k: nat, steps: seq<CoarseStep>)
    decreases |steps|
  {
    steps == [] || (CoarseEnabled(c, k, steps[0]) && CoarseRunEnabled(CoarseApply(c, k, steps[0]), k, steps[1..]))
  }

  function CoarseRun(c: Coarse, k: nat, steps: seq<CoarseStep>): Coarse
    requires CoarseRunEnabled(c, k, steps)
    decreases |steps|
  {
    if steps == [] then c else CoarseRun(CoarseApply(c, k, steps[0]), k, steps[1..])
  }

  /** What one store-by-store step is as a coarse step: a publication returns the whole batch, a take
      is a take, and beginning or storing is nothing. */
  function Seen(s: State, k: nat, step: Step): seq<CoarseStep>
    requires Enabled(s, k, step)
  {
    match step
    case Begin(_) => []
    case StoreField => []
    case Publish => [ReturnAll(s.pc.batch)]
    case KernelTake => [TakeOne]
  }

  function SeenRun(s: State, k: nat, steps: seq<Step>): seq<CoarseStep>
    requires RunEnabled(s, k, steps)
    decreases |steps|
  {
    if steps == [] then [] else Seen(s, k, steps[0]) + SeenRun(Apply(s, k, steps[0]), k, steps[1..])
  }

  // ---------- The coupling ----------

  /** Entry j of a batch with its first fields stored over what the slot held. */
  function Partly(was: Slot, now: Slot, fields: nat): Slot {
    Slot(if fields >= 1 then now.addr else was.addr, if fields >= 2 then now.len else was.len, was.bid)
  }

  /** Outside a batch the two rings are equal; inside, the stores made so far are already in the fine
      one. */
  predicate Coupled(s: State, c: Coarse, k: nat) {
    && Sized(c.ring, k) && Sized(s.ring, k)
    && c.head == s.head && c.got == s.got && c.ring.tail == s.ring.tail
    && match s.pc
       case Idle => s.ring == c.ring
       case Storing(batch, j, fields) =>
         && j <= |batch| && fields < 3
         && var done, idx := AddAll(c.ring, k, batch, j), SlotIndex(c.ring, j);
         if j == |batch| then s.ring == done
         else s.ring == done.(slots := done.slots[idx := Partly(done.slots[idx], batch[j], fields)])
  }

  lemma {:induction false} StoreCoupled(s: State, c: Coarse, k: nat)
    requires Coupled(s, c, k) && Enabled(s, k, StoreField)
    ensures Coupled(Apply(s, k, StoreField), c, k)
  {
    hide Mod;
    var Storing(batch, j, fields) := s.pc;
    var done, idx := AddAll(c.ring, k, batch, j), SlotIndex(c.ring, j);
    var s' := Apply(s, k, StoreField);
    assert s'.ring.slots == done.slots[idx := StoreOne(Partly(done.slots[idx], batch[j], fields), batch[j], fields)];
    if fields == 2 {
      var next := AddAll(c.ring, k, batch, j + 1);
      assert next.slots == done.slots[idx := batch[j]];
      if j + 1 < |batch| {
        var at := SlotIndex(c.ring, j + 1);
        assert next.slots[at := Partly(next.slots[at], batch[j + 1], 0)] == next.slots;
      }
    }
  }

  /** The adds of a batch change only the slots they are for. */
  lemma {:induction false} AddAllElsewhere(r: Ring, k: nat, batch: seq<Slot>, j: nat, at: nat)
    requires Sized(r, k) && j <= |batch| && at < |r.slots|
    requires forall i :: 0 <= i < j ==> SlotIndex(r, i) != at
    ensures AddAll(r, k, batch, j).slots[at] == r.slots[at]
    decreases j
  {
    hide Mod;
    if j > 0 {
      AddAllElsewhere(r, k, batch, j - 1, at);
      assert SlotIndex(AddAll(r, k, batch, j - 1), j - 1) == SlotIndex(r, j - 1);
    }
  }

  /** The kernel's next entry is not one being stored. */
  lemma {:induction false} TakeSame(s: State, c: Coarse, k: nat)
    requires Inv(s, k) && Coupled(s, c, k) && s.head != s.ring.tail
    ensures var at := Mod(s.head, |s.ring.slots|); s.ring.slots[at] == c.ring.slots[at]
  {
    hide Mod, Window, AddAll;
    if s.pc.Storing? {
      var Storing(batch, j, fields) := s.pc;
      var n, at := |s.ring.slots|, Mod(s.head, |s.ring.slots|);
      WrappedTail(|s.got|, |s.log|, k, 0);
      forall i | 0 <= i < |batch|
        ensures SlotIndex(c.ring, i) != at
      {
        WrappedTail(|s.got|, |s.log|, k, i);
        ModDistinct(|s.got|, |s.log| + i, n);
      }
      AddAllElsewhere(c.ring, k, batch, j, at);
    }
  }

  lemma {:induction false} StepRefines(s: State, c: Coarse, k: nat, step: Step)
    requires Inv(s, k) && Coupled(s, c, k) && Enabled(s, k, step)
    ensures CoarseRunEnabled(c, k, Seen(s, k, step))
    ensures Coupled(Apply(s, k, step), CoarseRun(c, k, Seen(s, k, step)), k)
  {
    match step {
      case Begin(batch) => BeginCoupled(s, c, k, batch);
      case StoreField => StoreCoupled(s, c, k);
      case Publish =>
      case KernelTake => TakeSame(s, c, k);
    }
  }

  lemma BeginCoupled(s: State, c: Coarse, k: nat, batch: seq<Slot>)
    requires Coupled(s, c, k) && Enabled(s, k, Begin(batch))
    ensures Coupled(Apply(s, k, Begin(batch)), c, k)
  {
    if batch != [] {
      var at := SlotIndex(c.ring, 0);
      assert c.ring.slots[at := Partly(c.ring.slots[at], batch[0], 0)] == c.ring.slots;
    }
  }

  lemma {:induction false} CoarseConcat(c: Coarse, k: nat, a: seq<CoarseStep>, b: seq<CoarseStep>)
    requires CoarseRunEnabled(c, k, a) && CoarseRunEnabled(CoarseRun(c, k, a), k, b)
    ensures CoarseRunEnabled(c, k, a + b) && CoarseRun(c, k, a + b) == CoarseRun(CoarseRun(c, k, a), k, b)
    decreases |a|
  {
    if a == [] {
      assert a + b == b;
    } else {
      assert (a + b)[0] == a[0] && (a + b)[1..] == a[1..] + b;
      CoarseConcat(CoarseApply(c, k, a[0]), k, a[1..], b);
    }
  }

  /** Every run of single stores, publications and takes does to ring, kernel index and entries taken
      what the run of whole returns and takes does. */
  lemma {:induction false} RunRefines(s: State, c: Coarse, k: nat, steps: seq<Step>)
    requires Inv(s, k) && Coupled(s, c, k) && RunEnabled(s, k, steps)
    ensures CoarseRunEnabled(c, k, SeenRun(s, k, steps))
    ensures Coupled(Run(s, k, steps), CoarseRun(c, k, SeenRun(s, k, steps)), k)
    decreases |steps|
  {
    hide Inv, Coupled, Apply, CoarseApply;
    if steps != [] {
      var s1 := Apply(s, k, steps[0]);
      StepRefines(s, c, k, steps[0]);
      StepInv(s, k, steps[0]);
      var c1 := CoarseRun(c, k, Seen(s, k, steps[0]));
      RunRefines(s1, c1, k, steps[1..]);
      CoarseConcat(c, k, Seen(s, k, steps[0]), SeenRun(s1, k, steps[1..]));
    }
  }

  lemma {:induction false} StepInv(s: State, k: nat, step: Step)
    requires Inv(s, k) && Enabled(s, k, step)
    ensures Inv(Apply(s, k, step), k)
  {
    hide Mod, Window;
    RunKeeps(s, k, [step]);
    assert [step][0] == step && [step][1..] == [];
    assert Run(Apply(s, k, step), k, []) == Apply(s, k, step);
  }

  // ---------- The two batches of the program ----------

  function AsSlot(b: KernelBuffer): Slot { Slot(b.addr, b.bufLen, b.bid) }

  /** A batch of one is the return of a dropped buffer. */
  lemma {:induction false} SingleIsReturn(r: Ring, k: nat, b: KernelBuffer)
    requires Sized(r, k)
    ensures ReturnBatch(r, k, [AsSlot(b)]) == Return(r, k, b)
  {
    assert AddAll(r, k, [AsSlot(b)], 1) == Add(AddAll(r, k, [AsSlot(b)], 0), k, AsSlot(b), 0);
  }

  /** A batch of every buffer at home is the setup of a group. */
  lemma {:induction false} FullIsSetup(r: Ring, k: nat, base: nat, size: nat, batch: seq<Slot>)
    requires Sized(r, k) && |batch| == |r.slots|
    requires forall i :: 0 <= i < |batch| ==> batch[i] == Home(base, size, i)
    ensures ReturnBatch(r, k, batch) == NewGroup(r, k, base, size)
  {
    AddsAreFill(r, k, base, size, batch, |batch|);
  }

  lemma {:induction false} AddsAreFill(r: Ring, k: nat, base: nat, size: nat, batch: seq<Slot>, i: nat)
    requires Sized(r, k) && i <= |batch|
    requires forall i :: 0 <= i < |batch| ==> batch[i] == Home(base, size, i)
    ensures AddAll(r, k, batch, i) == Fill(r, k, base, size, i)
    decreases i
  {
    if i > 0 { AddsAreFill(r, k, base, size, batch, i - 1); }
  }

  // ---------- One return of a group ----------

  /** The store-by-store state of a group's ring, outside any batch. */
  predicate Shows(s: State, p: Groups.Params, g: Groups.Group) {
    && Inv(s, p.k) && s.pc.Idle?
    && s.ring == g.ring && s.head == g.head && |s.log| == g.returned && |s.got| == g.taken
  }

  /** Conservation lets the drained buffer be returned: fewer entries are in the ring than fit. */
  lemma {:induction false} ReturnMayBegin(s: State, p: Groups.Params, g: Groups.Group)
    requires Groups.Layout(p, g) && g.queue != [] && Shows(s, p, g)
    ensures Enabled(s, p.k, Begin([AsSlot(g.queue[0].buf)]))
  {
  }

  /** The kernel taking t entries in a row from a ring that does not change. */
  function Takes(t: nat): seq<CoarseStep> { seq(t, _ => TakeOne) }

  predicate StoresAndTakes(steps: seq<Step>) {
    forall i :: 0 <= i < |steps| ==> steps[i].StoreField? || steps[i].KernelTake?
  }

  lemma {:induction false} SeenTakes(s: State, k: nat, steps: seq<Step>) returns (t: nat)
    requires RunEnabled(s, k, steps) && StoresAndTakes(steps)
    ensures SeenRun(s, k, steps) == Takes(t) && |Run(s, k, steps).got| == |s.got| + t
    ensures Run(s, k, steps).log == s.log
    ensures s.pc.Storing? ==> Run(s, k, steps).pc.Storing? && Run(s, k, steps).pc.batch == s.pc.batch
    decreases |steps|
  {
    t := 0;
    if steps != [] {
      var more := SeenTakes(Apply(s, k, steps[0]), k, steps[1..]);
      t := if steps[0].KernelTake? then more + 1 else more;
    }
  }

  lemma {:induction false} RunSplit(s: State, k: nat, a: seq<Step>, b: seq<Step>)
    requires RunEnabled(s, k, a + b)
    ensures RunEnabled(s, k, a) && RunEnabled(Run(s, k, a), k, b)
    ensures Run(s, k, a + b) == Run(Run(s, k, a), k, b)
    ensures SeenRun(s, k, a + b) == SeenRun(s, k, a) + SeenRun(Run(s, k, a), k, b)
    decreases |a|
  {
    hide Enabled, Apply, Seen;
    if a == [] {
      assert a + b == b;
    } else {
      assert (a + b)[0] == a[0] && (a + b)[1..] == a[1..] + b;
      RunSplit(Apply(s, k, a[0]), k, a[1..], b);
    }
  }

  lemma {:induction false} TakesRun(c: Coarse, k: nat, t: nat)
    requires CoarseRunEnabled(c, k, Takes(t)) && Sized(c.ring, k) && c.head < U16
    ensures var c' := CoarseRun(c, k, Takes(t));
      c'.ring == c.ring && c'.head == (c.head + t) % 0x1_0000 && |c'.got| == |c.got| + t
    decreases t
  {
    hide Mod;
    if t > 0 {
      assert Takes(t)[1..] == Takes(t - 1);
      TakesRun(CoarseApply(c, k, TakeOne), k, t - 1);
      WrapAdd16(c.head + 1, t - 1);
    }
  }

  /** Returning a group's oldest buffer store by store, the kernel taking t entries in between, leaves
      what t takes and the one-step return leave: the same ring, the same index, and a ring ready for
      the next return. */
  lemma {:induction false} FineReturn(s: State, p: Groups.Params, g: Groups.Group, between: seq<Step>) returns (t: nat)
    requires Groups.Layout(p, g) && g.queue != [] && Shows(s, p, g) && StoresAndTakes(between)
    requires RunEnabled(s, p.k, [Begin([AsSlot(g.queue[0].buf)])] + between + [Publish])
    ensures Shows(
      Run(s, p.k, [Begin([AsSlot(g.queue[0].buf)])] + between + [Publish]), p,
      Groups.GiveBack(p, g, Some(g.queue[0].buf)).(head := (g.head + t) % 0x1_0000, taken := g.taken + t))
  {
    hide Mod, Window, Groups.Layout, CoarseRun, CoarseRunEnabled, ReturnBatch, BufRings.Return;
    var b := g.queue[0].buf;
    LayoutSized(p, g);
    var begin := Begin([AsSlot(b)]);
    var steps := [begin] + between + [Publish];
    RunSplit(s, p.k, [begin] + between, [Publish]);
    RunSplit(s, p.k, [begin], between);
    var s1 := Run(s, p.k, [begin]);
    t := SeenTakes(s1, p.k, between);
    var s2, s3 := Run(s1, p.k, between), Run(s, p.k, steps);
    assert s1 == Apply(s, p.k, begin) && s3 == Apply(s2, p.k, Publish);
    var c := Coarse(s.ring, s.head, s.got);
    RunRefines(s, c, p.k, steps);
    assert SeenRun(s, p.k, steps) == Takes(t) + [ReturnAll([AsSlot(b)])];
    RunKeeps(s, p.k, steps);
    SingleIsReturn(g.ring, p.k, b);
    TakesThenReturn(c, p.k, t, [AsSlot(b)]);
  }

  /** Such a return is always there to be made: the three stores and the publication go through with no
      help from the kernel. */
  lemma {:induction false} ReturnGoesThrough(s: State, p: Groups.Params, g: Groups.Group)
    requires Groups.Layout(p, g) && g.queue != [] && Shows(s, p, g)
    ensures RunEnabled(s, p.k,
      [Begin([AsSlot(g.queue[0].buf)])] + [StoreField, StoreField, StoreField] + [Publish])
  {
    hide Mod, Window, Groups.Layout;
    var slot := AsSlot(g.queue[0].buf);
    ReturnMayBegin(s, p, g);
    var s1 := Apply(s, p.k, Begin([slot]));
    var s2 := Apply(s1, p.k, StoreField);
    var s3 := Apply(s2, p.k, StoreField);
    var s4 := Apply(s3, p.k, StoreField);
    assert Enabled(s4, p.k, Publish);
    RunFirst(s4, p.k, Publish, []);
    RunFirst(s3, p.k, StoreField, [Publish]);
    RunFirst(s2, p.k, StoreField, [StoreField, Publish]);
    RunFirst(s1, p.k, StoreField, [StoreField, StoreField, Publish]);
    RunFirst(s, p.k, Begin([slot]), [StoreField, StoreField, StoreField, Publish]);
    assert [Begin([slot])] + [StoreField, StoreField, StoreField] + [Publish]
        == [Begin([slot]), StoreField, StoreField, StoreField, Publish];
  }

  lemma RunFirst(s: State, k: nat, step: Step, steps: seq<Step>)
    requires Enabled(s, k, step) && RunEnabled(Apply(s, k, step), k, steps)
    ensures RunEnabled(s, k, [step] + steps)
  {
    hide Enabled, Apply;
    assert ([step] + steps)[0] == step && ([step] + steps)[1..] == steps;
  }

  lemma LayoutSized(p: Groups.Params, g: Groups.Group)
    requires Groups.Layout(p, g)
    ensures Sized(g.ring, p.k)
  {
  }

  lemma {:induction false} TakesThenReturn(c: Coarse, k: nat, t: nat, batch: seq<Slot>)
    requires Sized(c.ring, k) && c.head < U16 && CoarseRunEnabled(c, k, Takes(t) + [ReturnAll(batch)])
    ensures var c' := CoarseRun(c, k, Takes(t) + [ReturnAll(batch)]);
      && c'.ring == ReturnBatch(c.ring, k, batch)
      && c'.head == (c.head + t) % 0x1_0000 && |c'.got| == |c.got| + t
  {
    hide Mod;
    CoarseSplit(c, k, Takes(t), [ReturnAll(batch)]);
    TakesRun(c, k, t);
  }

  lemma {:induction false} CoarseSplit(c: Coarse, k: nat, a: seq<CoarseStep>, b: seq<CoarseStep>)
    requires CoarseRunEnabled(c, k, a + b)
    ensures CoarseRunEnabled(c, k, a) && CoarseRunEnabled(CoarseRun(c, k, a), k, b)
    ensures CoarseRun(c, k, a + b) == CoarseRun(CoarseRun(c, k, a), k, b)
    decreases |a|
  {
    if a == [] {
      assert a + b == b;
    } else {
      assert (a + b)[0] == a[0] && (a + b)[1..] == a[1..] + b;
      CoarseSplit(CoarseApply(c, k, a[0]), k, a[1..], b);
    }
  }
}
