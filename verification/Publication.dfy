/** Publication of buffer-ring entries, one store at a time. User code writes the three fields of
    each entry and only then moves the tail; the kernel may take an entry between any two stores. */
module Publication {
  import opened Bits
  import opened Windows
  import opened BufRings

  /** Where user code is: outside, or storing entry `j` of a batch with `fields` of it written. */
  datatype Pc = Idle | Storing(batch: seq<Slot>, j: nat, fields: nat)

  /** `log` lists the entries published so far, `got` those the kernel has read. */
  datatype State = State(ring: Ring, head: nat, pc: Pc, log: seq<Slot>, got: seq<Slot>)

  /** A batch of one entry is a single return; the setup loop is a batch of all entries. */
  datatype Step = Begin(batch: seq<Slot>) | StoreField | Publish | KernelTake

  /** A batch begins only when it fits: no more buffers are returned than were taken. AtomicReturns
      derives that from conservation. */
  predicate Enabled(s: State, k: nat, step: Step) {
    && Sized(s.ring, k)
    && match step
       case Begin(batch) => s.pc.Idle? && |s.log| + |batch| <= |s.got| + |s.ring.slots|
       case StoreField => s.pc.Storing? && s.pc.j < |s.pc.batch| && s.pc.fields < 3
       case Publish => s.pc.Storing? && s.pc.j == |s.pc.batch|
       case KernelTake => s.head != s.ring.tail
  }

  /** One of the three stores of an add. */
  function StoreOne(was: Slot, now: Slot, field: nat): Slot {
    if field == 0 then was.(addr := now.addr)
    else if field == 1 then was.(len := now.len)
    else was.(bid := now.bid)
  }

  function Apply(s: State, k: nat, step: Step): State
    requires Enabled(s, k, step)
  {
    match step
    case Begin(batch) => s.(pc := Storing(batch, 0, 0))
    case StoreField =>
      var Storing(batch, j, fields) := s.pc;
      var idx := SlotIndex(s.ring, j);
      s.(ring := s.ring.(slots := s.ring.slots[idx := StoreOne(s.ring.slots[idx], batch[j], fields)]),
         pc := if fields == 2 then Storing(batch, j + 1, 0) else Storing(batch, j, fields + 1))
    case Publish =>
      s.(ring := Advance(s.ring, k, |s.pc.batch|), pc := Idle, log := s.log + s.pc.batch)
    case KernelTake =>
      s.(head := (s.head + 1) % 0x1_0000, got := s.got + [s.ring.slots[Mod(s.head, |s.ring.slots|)]])
  }

  predicate Counts(s: State, k: nat) {
    && Sized(s.ring, k)
    && |s.got| <= |s.log| <= |s.got| + |s.ring.slots|
    && s.ring.tail == |s.log| % 0x1_0000
    && s.head == |s.got| % 0x1_0000
  }

  /** Entries of the batch before `j` are in place, and entry `j` has its first fields. */
  predicate Stored(s: State, k: nat)
    requires Counts(s, k) && s.pc.Storing?
  {
    var Storing(batch, j, fields) := s.pc;
    && |s.log| + |batch| <= |s.got| + |s.ring.slots|
    && j <= |batch| && fields < 3
    && (forall i :: 0 <= i < j ==> s.ring.slots[Mod(|s.log| + i, |s.ring.slots|)] == batch[i])
    && (j < |batch| ==> var cur := s.ring.slots[Mod(|s.log| + j, |s.ring.slots|)];
         && (fields >= 1 ==> cur.addr == batch[j].addr)
         && (fields >= 2 ==> cur.len == batch[j].len))
  }

  predicate Inv(s: State, k: nat) {
    && Counts(s, k)
    && s.got == s.log[..|s.got|]
    && Window(s.ring.slots, |s.got|, |s.log| - |s.got|) == s.log[|s.got|..]
    && (s.pc.Storing? ==> Stored(s, k))
  }

  lemma {:induction false} StoreKeeps(s: State, k: nat)
    requires Inv(s, k) && Enabled(s, k, StoreField)
    ensures Inv(Apply(s, k, StoreField), k)
    ensures Window(Apply(s, k, StoreField).ring.slots, |s.got|, |s.log| - |s.got|) == s.log[|s.got|..]
  {
    hide Mod;
    var Storing(batch, j, fields) := s.pc;
    WrappedTail(|s.got|, |s.log|, k, j);
    var idx := SlotIndex(s.ring, j);
    var x := StoreOne(s.ring.slots[idx], batch[j], fields);
    WindowUntouched(s.ring.slots, |s.got|, |s.log| - |s.got|, |s.log| + j, x);
    StoreStored(s, k, idx, x, Apply(s, k, StoreField));
  }

  lemma {:induction false} StoreStored(s: State, k: nat, idx: nat, x: Slot, s': State)
    requires Inv(s, k) && Enabled(s, k, StoreField)
    requires idx == Mod(|s.log| + s.pc.j, |s.ring.slots|)
    requires x == StoreOne(s.ring.slots[idx], s.pc.batch[s.pc.j], s.pc.fields)
    requires s' == s.(ring := s.ring.(slots := s.ring.slots[idx := x]), pc := s'.pc)
    requires s'.pc == if s.pc.fields == 2 then Storing(s.pc.batch, s.pc.j + 1, 0)
                      else Storing(s.pc.batch, s.pc.j, s.pc.fields + 1)
    ensures Counts(s', k) && Stored(s', k)
  {
    hide Mod, Window;
    var j, n := s.pc.j, |s.ring.slots|;
    forall i | 0 <= i < s'.pc.j
      ensures s'.ring.slots[Mod(|s.log| + i, n)] == s.pc.batch[i]
    {
      if i < j { ModDistinct(|s.log| + i, |s.log| + j, n); }
    }
  }

  lemma {:induction false} PublishKeeps(s: State, k: nat)
    requires Inv(s, k) && Enabled(s, k, Publish)
    ensures Inv(Apply(s, k, Publish), k)
  {
    var batch := s.pc.batch;
    var s' := Apply(s, k, Publish);
    var count := |s.log| - |s.got|;
    WrapAdd16(|s.log|, |batch|);
    WindowExtend(s.ring.slots, |s.got|, count, batch);
    assert |s'.log| - |s'.got| == count + |batch|;
    assert s'.log[|s'.got|..] == s.log[|s.got|..] + batch;
  }

  lemma {:induction false} TakeKeeps(s: State, k: nat)
    requires Inv(s, k) && Enabled(s, k, KernelTake)
    ensures Inv(Apply(s, k, KernelTake), k)
    ensures |s.got| < |s.log| && Apply(s, k, KernelTake).got == s.got + [s.log[|s.got|]]
  {
    hide Mod, Window;
    WrappedTail(|s.got|, |s.log|, k, 0);
    WrapAdd16(|s.got|, 1);
    TakenState(s, k, Apply(s, k, KernelTake));
  }

  lemma {:induction false} TakenState(s: State, k: nat, s': State)
    requires Inv(s, k) && |s.got| < |s.log|
    requires s' == s.(head := (|s.got| + 1) % 0x1_0000, got := s.got + [s.ring.slots[Mod(|s.got|, |s.ring.slots|)]])
    ensures Inv(s', k) && s'.got == s.got + [s.log[|s.got|]]
  {
    WindowPop(s.ring.slots, |s.got|, |s.log| - |s.got|);
    TakeFront(s.log, |s.got|);
    StoredAfterTake(s, k, s');
  }

  lemma StoredAfterTake(s: State, k: nat, s': State)
    requires Counts(s, k) && Counts(s', k) && s'.ring == s.ring && s'.pc == s.pc && s'.log == s.log
    requires |s'.got| == |s.got| + 1
    ensures s.pc.Storing? && Stored(s, k) ==> Stored(s', k)
  {
  }

  lemma TakeFront<T>(log: seq<T>, n: nat)
    requires n < |log|
    ensures log[n..][0] == log[n] && log[n..][1..] == log[n + 1..] && log[..n] + [log[n]] == log[..n + 1]
  {
  }

  predicate RunEnabled(s: State, k: nat, steps: seq<Step>)
    decreases |steps|
  {
    steps == [] || (Enabled(s, k, steps[0]) && RunEnabled(Apply(s, k, steps[0]), k, steps[1..]))
  }

  function Run(s: State, k: nat, steps: seq<Step>): State
    requires RunEnabled(s, k, steps)
    decreases |steps|
  {
    if steps == [] then s else Run(Apply(s, k, steps[0]), k, steps[1..])
  }

  function Start(slots: seq<Slot>): State { State(Ring(slots, 0), 0, Idle, [], []) }

  lemma {:induction false} RunKeeps(s: State, k: nat, steps: seq<Step>)
    requires Inv(s, k) && RunEnabled(s, k, steps)
    ensures Inv(Run(s, k, steps), k)
    decreases |steps|
  {
    if steps != [] {
      match steps[0] {
        case Begin(batch) =>
        case StoreField => StoreKeeps(s, k);
        case Publish => PublishKeeps(s, k);
        case KernelTake => TakeKeeps(s, k);
      }
      RunKeeps(Apply(s, k, steps[0]), k, steps[1..]);
    }
  }

  /** Starting from a ring with arbitrary contents and tail 0, in every interleaving of field
      stores, publications and kernel takes: what the kernel has read is exactly the published
      entries in order, and what it can still read is exactly the rest, complete and unchanged. */
  lemma {:induction false} KernelSeesWholeEntries(slots: seq<Slot>, k: nat, steps: seq<Step>)
    requires k <= 15 && |slots| == Pow2(k) && RunEnabled(Start(slots), k, steps)
    ensures var s := Run(Start(slots), k, steps);
      && |s.got| <= |s.log| && s.ring.slots != []
      && s.got + Window(s.ring.slots, |s.got|, |s.log| - |s.got|) == s.log
  {
    assert Inv(Start(slots), k);
    RunKeeps(Start(slots), k, steps);
  }
}
