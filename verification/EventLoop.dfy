/** The completion ring and the event loop's batch: completions are handled through pointers into
    the ring while the kernel keeps posting, and slots are released one at a time. */
module EventLoops {
  import opened Bits
  import opened Outcomes
  import opened Windows
  import opened Streams
  import opened Systems
  import opened SystemRuns
  import Submission

  const BATCH: nat := 10

  /** A u32 head moved on by `n`. */
  function HeadAfter(head: nat, n: nat): nat { (head + n) % 0x1_0000_0000 }

  class CompletionQueue {
    const m: nat
    const cqes: array<Cqe>
    var khead: nat
    var ktail: nat

    function Ready(): nat
      reads this
    {
      (ktail - khead) % 0x1_0000_0000
    }

    predicate Valid()
      reads this
    {
      m <= 31 && cqes.Length == Pow2(m) && khead < U32 && ktail < U32 && Ready() <= cqes.Length
    }

    /** The completions posted and not released, oldest first. */
    function Fifo(): (f: seq<Cqe>)
      requires Valid()
      reads this, cqes
      ensures |f| == Ready()
    {
      Window(cqes[..], khead, Ready())
    }

    /** The kernel posts a completion into the slot after the last. */
    method Post(c: Cqe)
      requires Valid() && Ready() < cqes.Length
      modifies this`ktail, cqes
      ensures Valid() && Fifo() == old(Fifo()) + [c]
    {
      hide Mod, And;
      PostSlot(khead, ktail, m);
      WindowPush(cqes[..], khead, Ready(), c);
      AndMask(ktail, m);
      var idx := And(ktail, cqes.Length - 1);
      ghost var before := cqes[..];
      cqes[idx] := c;
      assert cqes[..] == before[idx := c];
      ktail := (ktail + 1) % 0x1_0000_0000;
    }

    /** Pointers to the oldest ready completions, at most `max` of them. */
    method PeekBatch(max: nat) returns (batch: seq<nat>)
      requires Valid()
      ensures |batch| == (if Ready() < max then Ready() else max)
      ensures forall i :: 0 <= i < |batch| ==> batch[i] == Mod(khead + i, cqes.Length)
    {
      hide Mod, And;
      var n := if Ready() < max then Ready() else max;
      batch := [];
      while |batch| < n
        invariant |batch| <= n
        invariant forall i :: 0 <= i < |batch| ==> batch[i] == Mod(khead + i, cqes.Length)
      {
        AndMask(khead + |batch|, m);
        batch := batch + [And(khead + |batch|, cqes.Length - 1)];
      }
    }

    /** Release the oldest `nr` slots to the kernel. */
    method Advance(nr: nat)
      requires Valid() && nr <= Ready()
      modifies this`khead
      ensures Valid() && khead == (old(khead) + nr) % 0x1_0000_0000
      ensures Fifo() == old(Fifo())[nr..]
    {
      hide Mod;
      AdvanceCounts(khead, ktail, nr);
      WindowDrop(cqes[..], khead, Ready(), nr);
      Submission.WindowFromWrapped(cqes[..], khead + nr, Ready() - nr, m);
      khead := (khead + nr) % 0x1_0000_0000;
    }
  }

  lemma {:induction false} PostSlot(head: nat, tail: nat, m: nat)
    requires m <= 31 && head < U32 && tail < U32 && (tail - head) % 0x1_0000_0000 < Pow2(m)
    ensures Mod(tail, Pow2(m)) == Mod(head + (tail - head) % 0x1_0000_0000, Pow2(m))
    ensures ((tail + 1) % 0x1_0000_0000 - head) % 0x1_0000_0000 == (tail - head) % 0x1_0000_0000 + 1
  {
    Submission.RingFits32(m);
    Submission.TailFromHead(tail, head);
    Submission.NextDistance(tail, head);
    WrapMod32(head + (tail - head) % 0x1_0000_0000, m);
  }

  lemma AdvanceCounts(head: nat, tail: nat, nr: nat)
    requires head < U32 && tail < U32 && nr <= (tail - head) % 0x1_0000_0000
    ensures (tail - (head + nr) % 0x1_0000_0000) % 0x1_0000_0000 == (tail - head) % 0x1_0000_0000 - nr
  {
  }

  lemma {:induction false} WindowDrop<T>(slots: seq<T>, start: nat, count: nat, n: nat)
    requires |slots| > 0 && n <= count
    ensures Window(slots, start + n, count - n) == Window(slots, start, count)[n..]
  {
    var w := Window(slots, start + n, count - n);
    forall i | 0 <= i < count - n
      ensures w[i] == Window(slots, start, count)[n..][i]
    {
      assert start + n + i == start + (n + i);
    }
  }

  /** Only handling takes a completion away; every other step posts at most one. */
  lemma {:induction false} StepPosts(cfg: Config, s: System, step: Step)
    requires Enabled(cfg, s, step) && !step.Dispatch? && Apply(cfg, s, step).Ok?
    ensures var s' := Apply(cfg, s, step).value;
      s'.cq == s.cq || (|s'.cq| == |s.cq| + 1 && s'.cq[..|s.cq|] == s.cq)
  {
    hide And, Mod, Submission.Valid, Write;
  }

  /** How many completions a run handles. */
  function Dispatches(steps: seq<Step>): nat {
    if steps == [] then 0 else (if steps[0].Dispatch? then 1 else 0) + Dispatches(steps[1..])
  }

  lemma {:induction false} DispatchesConcat(a: seq<Step>, b: seq<Step>)
    ensures Dispatches(a + b) == Dispatches(a) + Dispatches(b)
    decreases |a|
  {
    if a == [] {
      assert a + b == b;
    } else {
      assert (a + b)[1..] == a[1..] + b;
      DispatchesConcat(a[1..], b);
    }
  }

  lemma DispatchesOne(step: Step)
    ensures Dispatches([step]) == if step.Dispatch? then 1 else 0
  {
    assert [step][1..] == [];
  }

  /** A run of the system from s to s' that handles n completions. */
  ghost predicate Ran(cfg: Config, s: System, steps: seq<Step>, s': System, n: nat) {
    Reaches(cfg, s, steps, s') && Dispatches(steps) == n
  }

  lemma RanConcat(cfg: Config, s: System, a: seq<Step>, s1: System, m: nat, b: seq<Step>, s2: System, n: nat)
    requires Ran(cfg, s, a, s1, m) && Ran(cfg, s1, b, s2, n)
    ensures Ran(cfg, s, a + b, s2, m + n)
  {
    hide Reaches;
    ReachesConcat(cfg, s, a, s1, b, s2);
    DispatchesConcat(a, b);
  }

  lemma RanOne(cfg: Config, s: System, step: Step, s': System)
    requires Enabled(cfg, s, step) && Apply(cfg, s, step) == Ok(s')
    ensures Ran(cfg, s, [step], s', if step.Dispatch? then 1 else 0)
  {
    hide Enabled, Apply, Reaches;
    ReachesOne(cfg, s, step, s');
    DispatchesOne(step);
  }

  lemma RanNothing(cfg: Config, s: System)
    ensures Ran(cfg, s, [], s, 0)
  {
  }

  /** The loop's state: the streams and everything they share, and the ring their completions come
      from. `sys.cq` lists the completions not yet handled; `inHand` is the one being handled, which
      still occupies its slot. */
  class EventLoop {
    const cfg: Config
    const queue: CompletionQueue
    var sys: System
    ghost var inHand: seq<Cqe>

    ghost predicate Valid()
      reads this, queue, queue.cqes
    {
      && Inv(cfg, sys)
      && queue.Valid() && |inHand| <= 1
      && queue.Fifo() == inHand + sys.cq
    }

    constructor (cfg: Config, sys: System, queue: CompletionQueue)
      requires Inv(cfg, sys) && queue.Valid() && queue.Fifo() == sys.cq
      ensures Valid() && this.cfg == cfg && this.sys == sys && this.queue == queue && inHand == []
    {
      hide Inv, CompletionQueue.Fifo;
      this.cfg, this.sys, this.queue := cfg, sys, queue;
      inHand := [];
    }

    /** Anything the environment and the handler may do between two steps of the loop: the kernel
        receives, consumes, completes and posts while the ring has room; streams are read and
        written. The number and choice of steps is arbitrary. */
    method Meanwhile() returns (ghost posted: seq<Cqe>, ghost steps: seq<Step>)
      requires Valid()
      modifies this`sys, queue`ktail, queue.cqes
      ensures Valid()
      ensures queue.Fifo() == old(queue.Fifo()) + posted
      ensures sys.cq == old(sys.cq) + posted
      ensures Ran(cfg, old(sys), steps, sys, 0)
    {
      hide Apply, Enabled, Inv, CompletionQueue.Fifo, Ran;
      posted, steps := [], [];
      RanNothing(cfg, sys);
      var fuel: nat := *;
      while fuel > 0
        invariant Valid()
        invariant queue.Fifo() == old(queue.Fifo()) + posted
        invariant sys.cq == old(sys.cq) + posted
        invariant Ran(cfg, old(sys), steps, sys, 0)
      {
        var step: Step := *;
        if Enabled(cfg, sys, step) && !step.Dispatch? && queue.Ready() < queue.cqes.Length {
          StepKeeps(cfg, sys, step);
          StepPosts(cfg, sys, step);
          var next := Apply(cfg, sys, step).value;
          if |next.cq| > |sys.cq| {
            var c := next.cq[|sys.cq|];
            assert next.cq == sys.cq + [c];
            queue.Post(c);
            posted := posted + [c];
          }
          RanOne(cfg, sys, step, next);
          RanConcat(cfg, old(sys), steps, sys, 0, [step], next, 0);
          steps := steps + [step];
          sys := next;
        }
        fuel := fuel - 1;
      }
    }

    /** One item: read the completion through its pointer, handle it, let the handler and the kernel
        run, release its slot. */
    method HandleOne(slot: nat) returns (cqe: Cqe, ghost posted: seq<Cqe>, ghost steps: seq<Step>)
      requires Valid() && inHand == [] && slot < queue.cqes.Length
      requires queue.Ready() > 0 && queue.cqes[slot] == queue.Fifo()[0]
      modifies this, queue, queue.cqes
      ensures Valid() && inHand == []
      ensures cqe == old(queue.Fifo())[0]
      ensures queue.Fifo() == old(queue.Fifo())[1..] + posted
      ensures queue.khead == HeadAfter(old(queue.khead), 1)
      ensures steps != [] && steps[0] == Dispatch && Ran(cfg, old(sys), steps, sys, 1)
    {
      hide Apply, Inv, CompletionQueue.Fifo, Mod, Enabled, Ran;
      cqe := queue.cqes[slot];
      DispatchEnabled(cfg, sys);
      StepKeeps(cfg, sys, Dispatch);
      DispatchPops(cfg, sys);
      sys, inHand := Apply(cfg, sys, Dispatch).value, [cqe];
      RanOne(cfg, old(sys), Dispatch, sys);
      ghost var handled := sys;
      posted, steps := Meanwhile();
      RanConcat(cfg, old(sys), [Dispatch], handled, 1, steps, sys, 0);
      steps := [Dispatch] + steps;
      queue.Advance(1);
      inHand := [];
    }

    /** One more item of a run that has handled n. */
    method HandleNext(slot: nat, ghost start: System, ghost run: seq<Step>, ghost n: nat)
        returns (cqe: Cqe, ghost posted: seq<Cqe>, ghost run': seq<Step>)
      requires Valid() && inHand == [] && slot < queue.cqes.Length
      requires queue.Ready() > 0 && queue.cqes[slot] == queue.Fifo()[0]
      requires Ran(cfg, start, run, sys, n)
      modifies this, queue, queue.cqes
      ensures Valid() && inHand == []
      ensures cqe == old(queue.Fifo())[0]
      ensures queue.Fifo() == old(queue.Fifo())[1..] + posted
      ensures queue.khead == HeadAfter(old(queue.khead), 1)
      ensures Ran(cfg, start, run', sys, n + 1)
    {
      hide Inv, CompletionQueue.Fifo, CompletionQueue.Valid, HeadAfter, Ran;
      ghost var before := sys;
      ghost var taken;
      cqe, posted, taken := HandleOne(slot);
      RanConcat(cfg, start, run, before, n, taken, sys, 1);
      run' := run + taken;
    }

    /** Handle a batch of completions through pointers taken before the first was handled. Each is
        handled once, in ring order, whatever is posted meanwhile; when item i is handled exactly i
        slots of the batch have been released; and nothing aborts. */
    method HandleBatch(batch: seq<nat>)
        returns (handled: seq<Cqe>, heads: seq<nat>, ghost posted: seq<Cqe>, ghost steps: seq<Step>)
      requires Valid() && inHand == []
      requires |batch| <= queue.Ready()
      requires forall i :: 0 <= i < |batch| ==> batch[i] == Mod(queue.khead + i, queue.cqes.Length)
      modifies this, queue, queue.cqes
      ensures Valid() && inHand == []
      ensures handled == old(queue.Fifo())[..|batch|]
      ensures queue.Fifo() == old(queue.Fifo())[|batch|..] + posted
      ensures handled + queue.Fifo() == old(queue.Fifo()) + posted
      ensures |heads| == |batch| && forall i :: 0 <= i < |batch| ==> heads[i] == HeadAfter(old(queue.khead), i)
      ensures Ran(cfg, old(sys), steps, sys, |batch|)
    {
      hide Inv, CompletionQueue.Fifo, CompletionQueue.Valid, Mod, HeadAfter, Progress, Ran;
      ghost var ready := queue.Fifo();
      handled, heads, posted, steps := [], [], [], [];
      RanNothing(cfg, sys);
      HeadFits(queue);
      ProgressStart(ready);
      for i := 0 to |batch|
        invariant Valid() && inHand == []
        invariant queue.khead == HeadAfter(old(queue.khead), i)
        invariant Progress(ready, i, handled, queue.Fifo(), posted)
        invariant Ran(cfg, old(sys), steps, sys, i)
        invariant |heads| == i && forall k :: 0 <= k < i ==> heads[k] == HeadAfter(old(queue.khead), k)
      {
        ghost var fifo := queue.Fifo();
        ProgressLeft(ready, i, handled, fifo, posted);
        PointerIsFront(queue, old(queue.khead), i);
        heads := heads + [queue.khead];
        ghost var more, run;
        var cqe;
        cqe, more, run := HandleNext(batch[i], old(sys), steps, i);
        steps := run;
        ProgressStep(ready, i, handled, fifo, posted, cqe, more);
        handled, posted := handled + [cqe], posted + more;
        HeadStep(old(queue.khead), i);
      }
      ProgressEnd(ready, |batch|, handled, queue.Fifo(), posted);
    }

    /** Tell the kernel about every entry prepared so far. */
    method SubmitPrepared()
      requires Valid() && inHand == []
      modifies this`sys
      ensures Valid() && sys == old(sys).(sq := old(sys).sq.(ktail := old(sys).sq.tail))
      ensures Ran(cfg, old(sys), [SubmitAll], sys, 0)
    {
      hide Apply, Inv, CompletionQueue.Fifo, Enabled, Ran;
      SubmitEnabled(cfg, sys);
      StepKeeps(cfg, sys, SubmitAll);
      RanOne(cfg, sys, SubmitAll, Apply(cfg, sys, SubmitAll).value);
      sys := Apply(cfg, sys, SubmitAll).value;
    }

    /** One turn of the loop: submit, take a batch, or wait for a single completion when none is
        ready, and handle it. What was prepared before the turn is shown to the kernel before any
        completion is taken. `first` is what is posted before the batch is taken, `waited` during the
        wait, `more` while completions are handled: a full batch is handled if that many are ready,
        else all that are, and after a wait the first of those that arrived. */
    method Turn()
        returns (handled: seq<Cqe>, ghost flushed: System, ghost first: seq<Cqe>, ghost waited: seq<Cqe>,
                 ghost more: seq<Cqe>, ghost steps: seq<Step>)
      requires Valid() && inHand == []
      modifies this, queue, queue.cqes
      ensures Valid() && inHand == []
      ensures flushed == old(sys).(sq := flushed.sq) && |flushed.sq.sqes| > 0 && |old(sys).sq.sqes| > 0
      ensures Submission.Fifo(flushed.sq) == Submission.Fifo(old(sys).sq)
      ensures Submission.Submitted(flushed.sq) == |Submission.Fifo(old(sys).sq)|
      ensures Ran(cfg, old(sys), [SubmitAll], flushed, 0) && Ran(cfg, flushed, steps, sys, |handled|)
      ensures old(queue.Fifo()) + first != [] ==> waited == []
      ensures var ready := old(queue.Fifo()) + first;
        && |handled| == (if ready != [] then AtMost(|ready|, BATCH) else AtMost(|waited|, 1))
        && |handled| >= AtMost(|old(queue.Fifo())|, BATCH)
        && ready + waited + more == handled + queue.Fifo()
    {
      hide Inv, CompletionQueue.Fifo, Mod, And, Ran;
      FlushShows(cfg, sys);
      SubmitPrepared();
      flushed := sys;
      first, steps := Meanwhile();
      var batch := queue.PeekBatch(BATCH);
      waited := [];
      if batch == [] {
        ghost var s1, idle := sys, steps;
        ghost var arrivals;
        waited, arrivals := Meanwhile();
        RanConcat(cfg, flushed, idle, s1, 0, arrivals, sys, 0);
        steps := idle + arrivals;
        batch := queue.PeekBatch(1);
      }
      ghost var s2, taken := sys, steps;
      ghost var rest;
      var heads;
      handled, heads, more, rest := HandleBatch(batch);
      RanConcat(cfg, flushed, taken, s2, 0, rest, sys, |batch|);
      steps := taken + rest;
    }
  
    /** Any number of turns: a run of the system that handles every completion once, in the order
        posted. */
    method Turns(n: nat)
        returns (handled: seq<Cqe>, ghost posted: seq<Cqe>, ghost steps: seq<Step>)
      requires Valid() && inHand == []
      modifies this, queue, queue.cqes
      ensures Valid() && inHand == []
      ensures handled + queue.Fifo() == old(queue.Fifo()) + posted
      ensures Ran(cfg, old(sys), steps, sys, |handled|)
    {
      hide Inv, CompletionQueue.Fifo, CompletionQueue.Valid, Ran;
      handled, posted, steps := [], [], [];
      RanNothing(cfg, sys);
      for i := 0 to n
        invariant Valid() && inHand == []
        invariant handled + queue.Fifo() == old(queue.Fifo()) + posted
        invariant Ran(cfg, old(sys), steps, sys, |handled|)
      {
        ghost var before, fifo := sys, queue.Fifo();
        var more;
        ghost var flushed, first, waited, late, taken;
        more, flushed, first, waited, late, taken := Turn();
        RanConcat(cfg, before, [SubmitAll], flushed, 0, taken, sys, |more|);
        RanConcat(cfg, old(sys), steps, before, |handled|, [SubmitAll] + taken, sys, |more|);
        TurnTotals(old(queue.Fifo()), handled, fifo, posted, first + waited + late, more, queue.Fifo());
        handled, posted, steps := handled + more, posted + (first + waited + late), steps + ([SubmitAll] + taken);
      }
    }
  }

  lemma TurnTotals(start: seq<Cqe>, handled: seq<Cqe>, fifo: seq<Cqe>, posted: seq<Cqe>, arrived: seq<Cqe>,
      more: seq<Cqe>, left: seq<Cqe>)
    requires handled + fifo == start + posted && fifo + arrived == more + left
    ensures handled + more + left == start + (posted + arrived)
  {
    assert handled + (fifo + arrived) == (handled + fifo) + arrived;
    assert (start + posted) + arrived == start + (posted + arrived);
    assert handled + more + left == handled + (more + left);
  }

  function AtMost(n: nat, most: nat): nat { if n < most then n else most }

  /** After a submission every entry waiting is the kernel's to take. */
  lemma FlushShows(cfg: Config, s: System)
    requires Inv(cfg, s)
    ensures |s.sq.sqes| > 0
    ensures var q := s.sq.(ktail := s.sq.tail);
      Submission.Fifo(q) == Submission.Fifo(s.sq) && Submission.Submitted(q) == |Submission.Fifo(s.sq)|
  {
    hide RouteInv, SendInv, StreamsInv, GroupInv, Apart;
    Submission.SubmitKeeps(s.sq, cfg.j);
  }

  lemma SubmitEnabled(cfg: Config, s: System)
    requires Inv(cfg, s)
    ensures Enabled(cfg, s, SubmitAll) && Apply(cfg, s, SubmitAll) == Ok(s.(sq := Submission.Submit(s.sq)))
  {
    hide StreamsInv, RouteInv, SendInv, GroupInv;
  }

  lemma HeadFits(queue: CompletionQueue)
    requires queue.Valid()
    ensures HeadAfter(queue.khead, 0) == queue.khead
  {
  }

  lemma HeadStep(head: nat, i: nat)
    ensures HeadAfter(HeadAfter(head, i), 1) == HeadAfter(head, i + 1)
  {
    WrapAdd32(head + i, 1);
  }

  /** After i items: the first i completions are handled, the rest are still in the ring, followed
      by those posted meanwhile. */
  ghost predicate Progress(ready: seq<Cqe>, i: nat, handled: seq<Cqe>, fifo: seq<Cqe>, posted: seq<Cqe>) {
    i <= |ready| && handled == ready[..i] && fifo == ready[i..] + posted
  }

  lemma ProgressStart(ready: seq<Cqe>)
    ensures Progress(ready, 0, [], ready, [])
  {
  }

  lemma ProgressLeft(ready: seq<Cqe>, i: nat, handled: seq<Cqe>, fifo: seq<Cqe>, posted: seq<Cqe>)
    requires Progress(ready, i, handled, fifo, posted) && i < |ready|
    ensures |fifo| > 0
  {
  }

  lemma ProgressStep(ready: seq<Cqe>, i: nat, handled: seq<Cqe>, fifo: seq<Cqe>, posted: seq<Cqe>, cqe: Cqe,
      more: seq<Cqe>)
    requires Progress(ready, i, handled, fifo, posted) && i < |ready| && cqe == fifo[0]
    ensures Progress(ready, i + 1, handled + [cqe], fifo[1..] + more, posted + more)
  {
    assert fifo[1..] == ready[i + 1..] + posted;
    assert fifo[1..] + more == ready[i + 1..] + (posted + more);
  }

  lemma ProgressEnd(ready: seq<Cqe>, i: nat, handled: seq<Cqe>, fifo: seq<Cqe>, posted: seq<Cqe>)
    requires Progress(ready, i, handled, fifo, posted)
    ensures i <= |ready| && handled == ready[..i] && fifo == ready[i..] + posted
    ensures handled + fifo == ready + posted
  {
    assert ready[..i] + ready[i..] == ready;
  }

  lemma DispatchEnabled(cfg: Config, s: System)
    requires Inv(cfg, s) && s.cq != []
    ensures Enabled(cfg, s, Dispatch)
  {
    hide StreamsInv, RouteInv, SendInv, GroupInv;
  }

  lemma DispatchPops(cfg: Config, s: System)
    requires Enabled(cfg, s, Dispatch) && Apply(cfg, s, Dispatch).Ok?
    ensures Apply(cfg, s, Dispatch).value.cq == s.cq[1..]
  {
    hide FromRawEvent, OnCompletion, Rings, WellSized;
  }

  /** The pointer taken for item i still points at the oldest unreleased completion when i slots
      have been released. */
  lemma {:induction false} PointerIsFront(queue: CompletionQueue, start: nat, i: nat)
    requires queue.Valid() && queue.Ready() > 0 && queue.khead == HeadAfter(start, i)
    ensures queue.cqes[Mod(start + i, queue.cqes.Length)] == queue.Fifo()[0]
  {
    hide Mod;
    WrapMod32(start + i, queue.m);
    WindowPop(queue.cqes[..], queue.khead, queue.Ready());
  }
}
