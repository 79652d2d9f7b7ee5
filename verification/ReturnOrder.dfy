/** What happens to a buffer ring when buffers may come back in any order. The kernel takes entries
    at its head; user code may drop any buffer it holds. */
module ReturnOrder {
  import opened Bits
  import opened Outcomes
  import opened Windows
  import opened BufRings

  /** A buffer out of the ring: the entry the kernel read, and the number of that take. */
  datatype Hold = Hold(slot: Slot, at: nat)

  /** `log` lists the ids in the order taken; `returned` counts all buffers ever published. */
  datatype Machine = Machine(ring: Ring, head: nat, held: seq<Hold>, log: seq<nat>, returned: nat)

  datatype Step = Take | GiveBack(i: nat)

  datatype Params = Params(k: nat, base: nat, size: nat)

  // ---------- Steps ----------

  predicate Enabled(m: Machine, p: Params, step: Step) {
    && Sized(m.ring, p.k)
    && match step
       case Take => m.head != m.ring.tail
       case GiveBack(i) => i < |m.held|
  }

  function AsBuffer(s: Slot): KernelBuffer { KernelBuffer(s.addr, 0, s.bid, 0, s.len) }

  function Apply(m: Machine, p: Params, step: Step): Machine
    requires Enabled(m, p, step)
  {
    match step
    case Take =>
      var slot := m.ring.slots[Mod(m.head, |m.ring.slots|)];
      m.(head := (m.head + 1) % 0x1_0000, held := m.held + [Hold(slot, |m.log|)], log := m.log + [slot.bid])
    case GiveBack(i) =>
      m.(ring := Return(m.ring, p.k, AsBuffer(m.held[i].slot)),
         held := m.held[..i] + m.held[i + 1..], returned := m.returned + 1)
  }

  function Start(p: Params): Machine
    requires p.k <= 15
  {
    var empty := Ring(seq(Pow2(p.k), i => Slot(0, 0, 0)), 0);
    Machine(NewGroup(empty, p.k, p.base, p.size), 0, [], [], Pow2(p.k))
  }

  // ---------- Invariant ----------

  predicate Counts(m: Machine, p: Params) {
    && Sized(m.ring, p.k)
    && |m.log| <= m.returned
    && |m.ring.slots| <= m.returned
    && |m.held| + m.returned == |m.log| + |m.ring.slots|
    && m.ring.tail == m.returned % 0x1_0000
    && m.head == |m.log| % 0x1_0000
  }

  /** The entries the kernel may still take, oldest first. */
  function Published(m: Machine): seq<Slot>
    requires |m.ring.slots| > 0 && |m.log| <= m.returned
  {
    Window(m.ring.slots, |m.log|, m.returned - |m.log|)
  }

  function HeldSlots(held: seq<Hold>): (s: seq<Slot>)
    ensures |s| == |held| && forall i :: 0 <= i < |s| ==> s[i] == held[i].slot
  {
    seq(|held|, i requires 0 <= i < |held| => held[i].slot)
  }

  ghost function Homes(p: Params, n: nat): set<Slot> { set i | 0 <= i < n :: Home(p.base, p.size, i) }

  /** Every buffer of the group is in exactly one place, with its own address. */
  ghost predicate Placed(m: Machine, p: Params)
    requires Counts(m, p)
  {
    multiset(HeldSlots(m.held)) + multiset(Published(m)) == multiset(Homes(p, |m.ring.slots|))
  }

  /** Held buffers are listed by their latest take. */
  predicate Ordered(m: Machine) {
    && (forall i :: 0 <= i < |m.held| ==> m.held[i].at < |m.log| && m.log[m.held[i].at] == m.held[i].slot.bid)
    && (forall i, j :: 0 <= i < j < |m.held| ==> m.held[i].at < m.held[j].at)
    && (forall i, t :: 0 <= i < |m.held| && m.held[i].at < t < |m.log| ==> m.log[t] != m.held[i].slot.bid)
  }

  /** A slot outside the window still shows the entry last taken from it. */
  predicate Stale(m: Machine, p: Params)
    requires Counts(m, p)
  {
    forall t :: m.returned - |m.ring.slots| <= t < |m.log| ==> m.ring.slots[Mod(t, |m.ring.slots|)].bid == m.log[t]
  }

  ghost predicate Inv(m: Machine, p: Params) {
    Counts(m, p) && Placed(m, p) && Ordered(m) && Stale(m, p)
  }

  // ---------- Conservation under any order ----------

  lemma HomesInjective(p: Params, n: nat, a: Slot, b: Slot)
    requires a in Homes(p, n) && b in Homes(p, n) && a.bid == b.bid
    ensures a == b == Home(p.base, p.size, a.bid) && a.bid < n
  {
  }

  /** No id is published twice, none is held twice, and none is both. */
  lemma {:induction false} NoDuplicates(m: Machine, p: Params)
    requires Counts(m, p) && Placed(m, p)
    ensures forall i, j :: 0 <= i < j < |Published(m)| ==> Published(m)[i].bid != Published(m)[j].bid
    ensures forall i, j :: 0 <= i < j < |m.held| ==> m.held[i].slot.bid != m.held[j].slot.bid
    ensures forall i, j :: 0 <= i < |m.held| && 0 <= j < |Published(m)| ==> m.held[i].slot.bid != Published(m)[j].bid
  {
    var h, w := HeldSlots(m.held), Published(m);
    var homes := Homes(p, |m.ring.slots|);
    assert multiset(h + w) == multiset(h) + multiset(w);
    var all: seq<Slot> := h + w;
    forall i, j | 0 <= i < j < |all|
      ensures all[i].bid != all[j].bid
    {
      OnceInSeq(h + w, homes, i, j);
      HomesMember(h + w, homes, i); HomesMember(h + w, homes, j);
      if all[i].bid == all[j].bid {
        HomesInjective(p, |m.ring.slots|, all[i], all[j]);
      }
    }
    forall i, j | 0 <= i < j < |w|
      ensures w[i].bid != w[j].bid
    {
      assert all[|h| + i] == w[i] && all[|h| + j] == w[j];
    }
    forall i, j | 0 <= i < j < |h|
      ensures m.held[i].slot.bid != m.held[j].slot.bid
    {
      assert all[i] == h[i] && all[j] == h[j];
    }
    forall i, j | 0 <= i < |h| && 0 <= j < |w|
      ensures m.held[i].slot.bid != w[j].bid
    {
      assert all[i] == h[i] && all[|h| + j] == w[j];
    }
  }

  lemma {:induction false} OnceInSeq<T>(s: seq<T>, xs: set<T>, i: nat, j: nat)
    requires multiset(s) == multiset(xs) && i < j < |s|
    ensures s[i] != s[j]
  {
    var a, b := s[..j], s[j..];
    assert s == a + b;
    assert a[i] == s[i] && b[0] == s[j];
    assert multiset(s)[s[j]] == multiset(a)[s[j]] + multiset(b)[s[j]];
  }

  lemma HomesMember<T>(s: seq<T>, xs: set<T>, i: nat)
    requires multiset(s) == multiset(xs) && i < |s|
    ensures s[i] in xs
  {
    assert s[i] in multiset(s);
  }

  // ---------- The invariant holds in every run ----------

  lemma {:induction false} StartInv(p: Params)
    requires p.k <= 15
    ensures Inv(Start(p), p) && Identity(Start(p).ring, p.base, p.size)
  {
    var m := Start(p);
    var empty := Ring(seq(Pow2(p.k), i => Slot(0, 0, 0)), 0);
    SetupIdentityIff(empty, p.k, p.base, p.size);
    SetupTail(empty, p.k, p.base, p.size);
    IdentityWindow(m.ring.slots, p);
  }

  lemma {:induction false} IdentityWindow(slots: seq<Slot>, p: Params)
    requires |slots| > 0 && forall i :: 0 <= i < |slots| ==> slots[i] == Home(p.base, p.size, i)
    ensures multiset(Window(slots, 0, |slots|)) == multiset(Homes(p, |slots|))
  {
    forall i | 0 <= i < |slots| ensures Window(slots, 0, |slots|)[i] == slots[i] {
    }
    assert Window(slots, 0, |slots|) == slots;
    PrefixHomes(slots, p, |slots|);
    assert slots[..|slots|] == slots;
  }

  lemma {:induction false} PrefixHomes(slots: seq<Slot>, p: Params, n: nat)
    requires n <= |slots| && forall i :: 0 <= i < |slots| ==> slots[i] == Home(p.base, p.size, i)
    ensures multiset(slots[..n]) == multiset(Homes(p, n))
  {
    if n > 0 {
      PrefixHomes(slots, p, n - 1);
      assert slots[..n] == slots[..n - 1] + [slots[n - 1]];
      assert Homes(p, n) == Homes(p, n - 1) + {Home(p.base, p.size, n - 1)};
      assert Home(p.base, p.size, n - 1) !in Homes(p, n - 1);
    }
  }

  lemma {:induction false} TakeKeeps(m: Machine, p: Params)
    requires Inv(m, p) && Enabled(m, p, Take)
    ensures Inv(Apply(m, p, Take), p)
  {
    TakeSlot(m, p);
    var slot := m.ring.slots[Mod(|m.log|, |m.ring.slots|)];
    TakePlaced(m, p, slot, Apply(m, p, Take));
    TakeOrdered(m, p, slot, Apply(m, p, Take));
  }

  /** A take reads the slot of the true count. */
  lemma {:induction false} TakeSlot(m: Machine, p: Params)
    requires Counts(m, p) && Enabled(m, p, Take)
    ensures var m', slot := Apply(m, p, Take), m.ring.slots[Mod(|m.log|, |m.ring.slots|)];
      && m' == m.(head := m'.head, held := m.held + [Hold(slot, |m.log|)], log := m.log + [slot.bid])
      && Counts(m', p) && |m.log| < m.returned
  {
    WrappedTail(|m.log|, m.returned, p.k, 0);
    WrapAdd16(|m.log|, 1);
  }

  lemma {:induction false} TakePlaced(m: Machine, p: Params, slot: Slot, m': Machine)
    requires Counts(m, p) && Placed(m, p) && |m.log| < m.returned
    requires slot == m.ring.slots[Mod(|m.log|, |m.ring.slots|)]
    requires m' == m.(head := m'.head, held := m.held + [Hold(slot, |m.log|)], log := m.log + [slot.bid])
    requires Counts(m', p)
    ensures Placed(m', p) && Published(m)[0] == slot
  {
    WindowPop(m.ring.slots, |m.log|, m.returned - |m.log|);
    assert Published(m) == [slot] + Published(m');
    assert HeldSlots(m'.held) == HeldSlots(m.held) + [slot];
  }

  lemma {:induction false} TakeOrdered(m: Machine, p: Params, slot: Slot, m': Machine)
    requires Inv(m, p) && |m.log| < m.returned && Published(m)[0] == slot
    requires slot == m.ring.slots[Mod(|m.log|, |m.ring.slots|)]
    requires m' == m.(head := m'.head, held := m.held + [Hold(slot, |m.log|)], log := m.log + [slot.bid])
    requires Counts(m', p)
    ensures Ordered(m') && Stale(m', p)
  {
    NoDuplicates(m, p);
    assert forall i :: 0 <= i < |m.held| ==> m.held[i].slot.bid != slot.bid;
  }

  lemma {:induction false} GiveBackKeeps(m: Machine, p: Params, i: nat)
    requires Inv(m, p) && Enabled(m, p, GiveBack(i))
    ensures Inv(Apply(m, p, GiveBack(i)), p)
  {
    var m' := Apply(m, p, GiveBack(i));
    GiveBackSlot(m, p, i);
    GiveBackPlaced(m, p, i);
    StaleAfterReturn(m, p, Mod(m.returned, |m.ring.slots|), m.held[i].slot, m');
    OrderedWithout(m, m', i);
  }

  /** A return writes the slot just outside the published window, then publishes it. */
  lemma {:induction false} GiveBackSlot(m: Machine, p: Params, i: nat)
    requires Counts(m, p) && Enabled(m, p, GiveBack(i))
    ensures var m' := Apply(m, p, GiveBack(i));
      && m'.ring.slots == m.ring.slots[Mod(m.returned, |m.ring.slots|) := m.held[i].slot]
      && Counts(m', p)
  {
    hide Mod;
    WrappedTail(|m.log|, m.returned, p.k, 0);
    WrapAdd16(m.returned, 1);
    assert SlotIndex(m.ring, 0) == Mod(m.returned, |m.ring.slots|);
  }

  lemma {:induction false} GiveBackPlaced(m: Machine, p: Params, i: nat)
    requires Inv(m, p) && Enabled(m, p, GiveBack(i)) && Counts(Apply(m, p, GiveBack(i)), p)
    requires Apply(m, p, GiveBack(i)).ring.slots == m.ring.slots[Mod(m.returned, |m.ring.slots|) := m.held[i].slot]
    ensures Placed(Apply(m, p, GiveBack(i)), p)
    ensures Published(Apply(m, p, GiveBack(i))) == Published(m) + [m.held[i].slot]
  {
    PlacedWithout(m, p, i, Apply(m, p, GiveBack(i)));
  }

  lemma {:induction false} PlacedWithout(m: Machine, p: Params, i: nat, m': Machine)
    requires Counts(m, p) && Placed(m, p) && Counts(m', p) && i < |m.held|
    requires m'.ring.slots == m.ring.slots[Mod(m.returned, |m.ring.slots|) := m.held[i].slot]
    requires m'.log == m.log && m'.returned == m.returned + 1
    requires m'.held == m.held[..i] + m.held[i + 1..]
    ensures Placed(m', p)
    ensures Published(m') == Published(m) + [m.held[i].slot]
  {
    WindowPush(m.ring.slots, |m.log|, m.returned - |m.log|, m.held[i].slot);
    RemoveHeld(m.held, i);
  }

  lemma OrderedWithout(m: Machine, m': Machine, i: nat)
    requires Ordered(m) && i < |m.held| && m'.log == m.log && m'.held == m.held[..i] + m.held[i + 1..]
    ensures Ordered(m')
  {
  }

  lemma {:induction false} RemoveHeld(held: seq<Hold>, i: nat)
    requires i < |held|
    ensures multiset(HeldSlots(held)) == multiset(HeldSlots(held[..i] + held[i + 1..])) + multiset{held[i].slot}
  {
    var s := HeldSlots(held);
    assert s == s[..i] + [s[i]] + s[i + 1..];
    assert HeldSlots(held[..i] + held[i + 1..]) == s[..i] + s[i + 1..];
  }

  lemma {:induction false} StaleAfterReturn(m: Machine, p: Params, idx: nat, slot: Slot, m': Machine)
    requires Counts(m, p) && Stale(m, p) && Counts(m', p)
    requires idx == Mod(m.returned, |m.ring.slots|)
    requires m'.ring.slots == m.ring.slots[idx := slot] && m'.log == m.log && m'.returned == m.returned + 1
    ensures Stale(m', p)
  {
    var n := |m.ring.slots|;
    forall t | m'.returned - n <= t < |m.log|
      ensures m'.ring.slots[Mod(t, n)].bid == m.log[t]
    {
      ModDistinct(t, m.returned, n);
    }
  }

  // ---------- FIFO is exactly what the lookup needs ----------

  /** While the layout is the identity, the held buffer listed first is the one at `tail & mask`. */
  lemma {:induction false} OldestIsAtTail(m: Machine, p: Params)
    requires Inv(m, p) && Identity(m.ring, p.base, p.size) && |m.held| > 0
    ensures m.held[0].slot.bid == SlotIndex(m.ring, 0)
  {
    hide Placed;
    var n := |m.ring.slots|;
    var first := m.returned - n;
    WrappedTail(|m.log|, m.returned, p.k, 0);
    assert SlotIndex(m.ring, 0) == Mod(first, n);
    HeldAtRecentTake(m, p, 0);
    var i := HolderOf(m, p, first);
    HeldAtRecentTake(m, p, i);
    if m.held[i].at > first {
      RecentTake(m, p, m.held[i].at);
      ModDistinct(first, m.held[i].at, n);
    }
    assert m.held[0].at <= m.held[i].at;
  }

  lemma {:induction false} RecentTake(m: Machine, p: Params, t: nat)
    requires Inv(m, p) && Identity(m.ring, p.base, p.size)
    requires m.returned - |m.ring.slots| <= t < |m.log|
    ensures m.log[t] == Mod(t, |m.ring.slots|)
  {
    var s := Mod(t, |m.ring.slots|);
    assert m.ring.slots[s] == Home(p.base, p.size, s);
  }

  /** Under the identity layout every held buffer was last taken in the current lap. */
  lemma {:induction false} HeldAtRecentTake(m: Machine, p: Params, i: nat)
    requires Inv(m, p) && Identity(m.ring, p.base, p.size) && i < |m.held|
    ensures m.returned - |m.ring.slots| <= m.held[i].at
  {
    var n, c := |m.ring.slots|, m.held[i].slot.bid;
    var first := m.returned - n;
    assert m.held[i].slot in HeldSlots(m.held);
    assert m.held[i].slot in multiset(Homes(p, n));
    var t := Representative(first, c, n);
    if t < |m.log| {
      RecentTake(m, p, t);
    } else {
      NoDuplicates(m, p);
      PublishedUnderIdentity(m, p, t);
    }
  }

  lemma PublishedUnderIdentity(m: Machine, p: Params, t: nat)
    requires Inv(m, p) && Identity(m.ring, p.base, p.size) && |m.log| <= t < m.returned
    ensures Published(m)[t - |m.log|] == Home(p.base, p.size, Mod(t, |m.ring.slots|))
  {
  }

  /** Under the identity layout some held buffer has the id taken at step `t` of this lap. */
  lemma {:induction false} HolderOf(m: Machine, p: Params, t: nat) returns (i: nat)
    requires Inv(m, p) && Identity(m.ring, p.base, p.size)
    requires m.returned - |m.ring.slots| <= t < |m.log|
    ensures i < |m.held| && m.held[i].slot.bid == Mod(t, |m.ring.slots|)
  {
    hide Mod, Ordered, Stale;
    var n := |m.ring.slots|;
    var home := Home(p.base, p.size, Mod(t, n));
    assert home in Homes(p, n);
    assert home in multiset(HeldSlots(m.held)) + multiset(Published(m));
    if home in Published(m) {
      var j :| 0 <= j < |Published(m)| && Published(m)[j] == home;
      var u := |m.log| + j;
      assert m.ring.slots[Mod(u, n)] == Home(p.base, p.size, Mod(u, n));
      ModDistinct(t, u, n);
      assert false;
    }
    assert home in HeldSlots(m.held);
    i :| 0 <= i < |HeldSlots(m.held)| && HeldSlots(m.held)[i] == home;
  }

  /** Giving a buffer back keeps slot-equals-id exactly when it is the oldest one held. */
  lemma {:induction false} IdentityKeptIffOldest(m: Machine, p: Params, i: nat)
    requires Inv(m, p) && Identity(m.ring, p.base, p.size) && i < |m.held|
    ensures Identity(Apply(m, p, GiveBack(i)).ring, p.base, p.size) <==> i == 0
  {
    OldestIsAtTail(m, p);
    NoDuplicates(m, p);
    var slot := m.held[i].slot;
    assert slot in HeldSlots(m.held);
    assert slot in multiset(Homes(p, |m.ring.slots|));
    ReturnKeepsIdentityIff(m.ring, p.k, p.base, p.size, AsBuffer(slot));
  }

  /** Dropping two neighbours the wrong way round leaves an entry in the published window whose
      completion makes the lookup abort. */
  lemma {:induction false} SwappedReturnPanics(m: Machine, p: Params, bgid: nat, len: nat)
    requires Inv(m, p) && Identity(m.ring, p.base, p.size) && |m.held| >= 2
    ensures var m1 := Apply(m, p, GiveBack(1));
      var m' := Apply(m1, p, GiveBack(0));
      && Inv(m', p)
      && m.held[1].slot in Published(m')
      && GetReadBuf(m'.ring, bgid, m.held[1].slot.bid, len) == Panic(BufferIdMismatch)
  {
    var s0, s1 := m.held[0].slot, m.held[1].slot;
    var m1 := Apply(m, p, GiveBack(1));
    var m' := Apply(m1, p, GiveBack(0));
    GiveBackKeeps(m, p, 1);
    GiveBackKeeps(m1, p, 0);
    GiveBackPlacedAfter(m, p, 1, m1);
    GiveBackPlacedAfter(m1, p, 0, m');
    assert Published(m)+ [s1] + [s0] == Published(m');
    assert s1 == (Published(m) + [s1])[|Published(m)|];
    NeighbourIds(m, p);
    GiveBackSlot(m, p, 1);
    GiveBackSlot(m1, p, 0);
    NoDuplicates(m, p);
  }

  lemma GiveBackPlacedAfter(m: Machine, p: Params, i: nat, m': Machine)
    requires Inv(m, p) && Enabled(m, p, GiveBack(i)) && m' == Apply(m, p, GiveBack(i)) && Counts(m', p)
    ensures Published(m') == Published(m) + [m.held[i].slot]
  {
    GiveBackSlot(m, p, i);
    GiveBackPlaced(m, p, i);
  }

  lemma {:induction false} OldestId(m: Machine, p: Params)
    requires Inv(m, p) && Identity(m.ring, p.base, p.size) && |m.held| > 0
    ensures m.held[0].slot.bid == Mod(m.returned, |m.ring.slots|)
  {
    hide Placed, Ordered, Stale, Identity, Mod;
    OldestIsAtTail(m, p);
    WrappedTail(|m.log|, m.returned, p.k, 0);
  }

  /** Under the identity layout the two oldest buffers belong to the next two slots to be written. */
  lemma {:induction false} NeighbourIds(m: Machine, p: Params)
    requires Inv(m, p) && Identity(m.ring, p.base, p.size) && |m.held| >= 2
    ensures m.held[0].slot.bid == Mod(m.returned, |m.ring.slots|)
    ensures m.held[1].slot.bid == Mod(m.returned + 1, |m.ring.slots|)
  {
    OldestId(m, p);
    IdentityKeptIffOldest(m, p, 0);
    GiveBackKeeps(m, p, 0);
    OldestId(Apply(m, p, GiveBack(0)), p);
  }

  // ---------- Whole runs ----------

  predicate RunEnabled(m: Machine, p: Params, steps: seq<Step>)
    decreases |steps|
  {
    steps == [] || (Enabled(m, p, steps[0]) && RunEnabled(Apply(m, p, steps[0]), p, steps[1..]))
  }

  function Run(m: Machine, p: Params, steps: seq<Step>): Machine
    requires RunEnabled(m, p, steps)
    decreases |steps|
  {
    if steps == [] then m else Run(Apply(m, p, steps[0]), p, steps[1..])
  }

  lemma {:induction false} RunKeeps(m: Machine, p: Params, steps: seq<Step>)
    requires Inv(m, p) && RunEnabled(m, p, steps)
    ensures Inv(Run(m, p, steps), p)
    decreases |steps|
  {
    if steps != [] {
      match steps[0] {
        case Take => TakeKeeps(m, p);
        case GiveBack(i) => GiveBackKeeps(m, p, i);
      }
      RunKeeps(Apply(m, p, steps[0]), p, steps[1..]);
    }
  }

  /** How many steps of a run are takes. */
  function TakeCount(steps: seq<Step>): nat {
    if steps == [] then 0 else (if steps[0].Take? then 1 else 0) + TakeCount(steps[1..])
  }

  /** Each take moves one buffer out of the ring, each return one back. */
  lemma {:induction false} RunCounts(m: Machine, p: Params, steps: seq<Step>)
    requires RunEnabled(m, p, steps)
    ensures var m' := Run(m, p, steps);
      && |m'.log| == |m.log| + TakeCount(steps)
      && m'.returned == m.returned + (|steps| - TakeCount(steps))
      && TakeCount(steps) <= |steps|
    decreases |steps|
  {
    if steps != [] { RunCounts(Apply(m, p, steps[0]), p, steps[1..]); }
  }

  /** In every run from a fresh group, whatever the order of returns, no buffer is ever published
      twice, held twice, or both published and held. */
  lemma {:induction false} AnyOrderConserves(p: Params, steps: seq<Step>)
    requires p.k <= 15 && RunEnabled(Start(p), p, steps)
    ensures var m := Run(Start(p), p, steps);
      && Inv(m, p)
      && multiset(HeldSlots(m.held)) + multiset(Published(m)) == multiset(Homes(p, |m.ring.slots|))
      && |m.held| == TakeCount(steps) - (|steps| - TakeCount(steps))
      && |Published(m)| + |m.held| == |m.ring.slots| == Pow2(p.k)
      && forall i, j :: 0 <= i < j < |Published(m)| ==> Published(m)[i].bid != Published(m)[j].bid
  {
    RunCounts(Start(p), p, steps);
    StartInv(p);
    RunKeeps(Start(p), p, steps);
    NoDuplicates(Run(Start(p), p, steps), p);
  }

  /** Every return of the run gives back the buffer held longest. */
  predicate FifoReturns(steps: seq<Step>) {
    forall i :: 0 <= i < |steps| && steps[i].GiveBack? ==> steps[i].i == 0
  }

  /** Runs that only give back the oldest buffer keep slot-equals-id for ever, across every
      wrap-around of the 16-bit tail. */
  lemma {:induction false} FifoRunKeepsIdentity(m: Machine, p: Params, steps: seq<Step>)
    requires Inv(m, p) && Identity(m.ring, p.base, p.size)
    requires RunEnabled(m, p, steps) && FifoReturns(steps)
    ensures Identity(Run(m, p, steps).ring, p.base, p.size)
    decreases |steps|
  {
    if steps != [] {
      match steps[0] {
        case Take => TakeKeeps(m, p);
        case GiveBack(i) => GiveBackKeeps(m, p, i); IdentityKeptIffOldest(m, p, i);
      }
      FifoRunKeepsIdentity(Apply(m, p, steps[0]), p, steps[1..]);
    }
  }
}
