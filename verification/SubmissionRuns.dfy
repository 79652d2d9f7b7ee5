/** Whole runs of the submission ring from a zeroed start: order of consumption, and which entries
    are free of what an earlier use left in their slot. */
module SubmissionRuns {
  import opened Bits
  import opened Outcomes
  import opened Submission

  datatype Step = Claim(op: Op) | Flush | Take

  /** A run remembers what was prepared and what the kernel consumed. */
  datatype Machine = Machine(q: Sq, ops: seq<Op>, prepared: seq<Sqe>, consumed: seq<Sqe>)

  predicate Enabled(m: Machine, step: Step) {
    && |m.q.sqes| > 0
    && match step
       case Claim(op) => Prepare(m.q, op).Ok?
       case Flush => true
       case Take => CanConsume(m.q)
  }

  function Apply(m: Machine, step: Step): Machine
    requires Enabled(m, step)
  {
    match step
    case Claim(op) =>
      var idx := Mod(m.q.tail, |m.q.sqes|);
      var q' := Prepare(m.q, op).value;
      m.(q := q', ops := m.ops + [op], prepared := m.prepared + [q'.sqes[idx]])
    case Flush => m.(q := Submit(m.q))
    case Take => var (q', e) := Consume(m.q); m.(q := q', consumed := m.consumed + [e])
  }

  function Start(j: nat): Machine {
    Machine(Sq(seq(Pow2(j), i => ZEROED), 0, 0, 0), [], [], [])
  }

  /** The address and length left in a slot by the preparations so far: those of the last send
      prepared in it, or zero. Preparation i uses slot i modulo the ring size. */
  function Residue(ops: seq<Op>, slot: nat, n: nat): (nat, nat)
    requires n > 0
    decreases |ops|
  {
    if ops == [] then (0, 0)
    else
      var last := |ops| - 1;
      if ops[last].Send? && Mod(last, n) == slot then (ops[last].ptr, ops[last].len % 0x1_0000_0000)
      else Residue(ops[..last], slot, n)
  }

  predicate Slots(m: Machine) {
    forall i :: 0 <= i < |m.q.sqes| ==>
      m.q.sqes[i].off == 0 && (m.q.sqes[i].addr, m.q.sqes[i].len) == Residue(m.ops, i, |m.q.sqes|)
  }

  predicate Inv(m: Machine, j: nat) {
    && Valid(m.q, j)
    && |m.prepared| == |m.ops|
    && m.q.tail == |m.ops| % 0x1_0000_0000
    && m.consumed + Fifo(m.q) == m.prepared
    && Slots(m)
  }

  lemma SlotAt(m: Machine, i: nat)
    requires Slots(m) && i < |m.q.sqes|
    ensures m.q.sqes[i].off == 0 && (m.q.sqes[i].addr, m.q.sqes[i].len) == Residue(m.ops, i, |m.q.sqes|)
  {
  }

  lemma {:induction false} ClaimKeeps(m: Machine, j: nat, op: Op)
    requires Inv(m, j) && Enabled(m, Claim(op))
    ensures Inv(Apply(m, Claim(op)), j)
    ensures var slot := Mod(|m.ops|, |m.q.sqes|); var entry := Apply(m, Claim(op)).prepared[|m.ops|];
      entry == Intended(op) <==> (op.Send? || Residue(m.ops, slot, |m.q.sqes|) == (0, 0))
  {
    hide Residue, Slots, Fill, Intended, Fifo, Mod;
    var m', idx := Apply(m, Claim(op)), Mod(m.q.tail, |m.q.sqes|);
    PrepareValue(m.q, j, op);
    PrepareAppends(m.q, j, op);
    WrapMod32(|m.ops|, j);
    WrapAdd32(|m.ops|, 1);
    SlotAt(m, idx);
    FillIsIntendedIff(m.q.sqes[idx], op);
    assert m'.consumed + Fifo(m'.q) == m.consumed + Fifo(m.q) + [m'.q.sqes[idx]];
    ClaimSlots(m, op, m');
  }

  lemma {:induction false} ClaimSlots(m: Machine, op: Op, m': Machine)
    requires |m.q.sqes| > 0 && Slots(m)
    requires var idx := Mod(|m.ops|, |m.q.sqes|);
      m'.ops == m.ops + [op] && m'.q.sqes == m.q.sqes[idx := Fill(m.q.sqes[idx], op)]
    ensures Slots(m')
  {
    var n, idx := |m.q.sqes|, Mod(|m.ops|, |m.q.sqes|);
    assert m'.ops[..|m.ops|] == m.ops;
    forall i | 0 <= i < n
      ensures m'.q.sqes[i].off == 0 && (m'.q.sqes[i].addr, m'.q.sqes[i].len) == Residue(m'.ops, i, n)
    {
      FillIsIntendedIff(m.q.sqes[i], op);
      assert m'.ops[|m.ops|] == op;
    }
  }

  lemma {:induction false} TakeKeeps(m: Machine, j: nat)
    requires Inv(m, j) && Enabled(m, Take)
    ensures Inv(Apply(m, Take), j)
  {
    ConsumePops(m.q, j);
    MoveFront(m.consumed, Fifo(m.q));
    assert Apply(m, Take) == m.(q := Consume(m.q).0, consumed := m.consumed + [Consume(m.q).1]);
    assert Slots(Apply(m, Take));
  }

  lemma MoveFront<T>(a: seq<T>, b: seq<T>)
    requires b != []
    ensures a + [b[0]] + b[1..] == a + b
  {
  }

  predicate RunEnabled(m: Machine, steps: seq<Step>)
    decreases |steps|
  {
    steps == [] || (Enabled(m, steps[0]) && RunEnabled(Apply(m, steps[0]), steps[1..]))
  }

  function Run(m: Machine, steps: seq<Step>): Machine
    requires RunEnabled(m, steps)
    decreases |steps|
  {
    if steps == [] then m else Run(Apply(m, steps[0]), steps[1..])
  }

  lemma {:induction false} StartInv(j: nat)
    requires j <= 31
    ensures Inv(Start(j), j)
  {
    assert Fifo(Start(j).q) == [];
  }

  /** What entry i of a run is, given the preparations before it. */
  predicate Reuse(m: Machine, n: nat)
    requires n > 0
  {
    && |m.prepared| == |m.ops|
    && forall i :: 0 <= i < |m.ops| ==>
         (m.prepared[i] == Intended(m.ops[i]) <==>
           (m.ops[i].Send? || Residue(m.ops[..i], Mod(i, n), n) == (0, 0)))
  }

  lemma {:induction false} ClaimReuse(m: Machine, j: nat, op: Op)
    requires Inv(m, j) && Enabled(m, Claim(op)) && Reuse(m, |m.q.sqes|)
    ensures Reuse(Apply(m, Claim(op)), |m.q.sqes|)
  {
    var m', n := Apply(m, Claim(op)), |m.q.sqes|;
    ClaimKeeps(m, j, op);
    forall i | 0 <= i < |m'.ops|
      ensures m'.prepared[i] == Intended(m'.ops[i]) <==>
        (m'.ops[i].Send? || Residue(m'.ops[..i], Mod(i, n), n) == (0, 0))
    {
      if i < |m.ops| { assert m'.ops[..i] == m.ops[..i]; } else { assert m'.ops[..i] == m.ops; }
    }
  }

  lemma {:induction false} RunKeeps(m: Machine, j: nat, steps: seq<Step>)
    requires Inv(m, j) && Reuse(m, |m.q.sqes|) && RunEnabled(m, steps)
    ensures Inv(Run(m, steps), j) && |Run(m, steps).q.sqes| == |m.q.sqes|
    ensures Reuse(Run(m, steps), |m.q.sqes|)
    decreases |steps|
  {
    if steps != [] {
      match steps[0] {
        case Claim(op) => ClaimKeeps(m, j, op); ClaimReuse(m, j, op);
        case Flush => SubmitKeeps(m.q, j);
        case Take => TakeKeeps(m, j);
      }
      RunKeeps(Apply(m, steps[0]), j, steps[1..]);
    }
  }

  /** In every run on a zeroed ring, across every wrap-around: the kernel consumes the prepared
      entries in order, none lost or altered; every send entry depends on its own arguments alone;
      and a receive entry does so exactly when no earlier send left an address or length in its
      slot. */
  lemma {:induction false} SubmissionRun(j: nat, steps: seq<Step>)
    requires j <= 31 && RunEnabled(Start(j), steps)
    ensures var m := Run(Start(j), steps);
      && |m.q.sqes| == Pow2(j) && |m.prepared| == |m.ops|
      && m.consumed + Fifo(m.q) == m.prepared
      && |Fifo(m.q)| <= Pow2(j)
      && forall i :: 0 <= i < |m.ops| ==>
           (m.prepared[i] == Intended(m.ops[i]) <==>
             (m.ops[i].Send? || Residue(m.ops[..i], Mod(i, Pow2(j)), Pow2(j)) == (0, 0)))
  {
    StartInv(j);
    RunKeeps(Start(j), j, steps);
  }

  function Takes(n: nat): seq<Step> { seq(n, _ => Take) }

  /** Nothing submitted is lost or left: after a flush the kernel can take every entry waiting, one by
      one, and has then consumed all that was ever prepared. */
  lemma {:induction false} FlushedAllConsumed(m: Machine, j: nat)
    requires Inv(m, j)
    ensures Enabled(m, Flush) && RunEnabled(Apply(m, Flush), Takes(Unconsumed(m.q)))
    ensures var m' := Run(Apply(m, Flush), Takes(Unconsumed(m.q)));
      |m'.q.sqes| > 0 && m'.consumed == m.prepared == m'.prepared && Fifo(m'.q) == []
  {
    hide Fifo, Submitted, Unconsumed;
    SubmitKeeps(m.q, j);
    TakeAll(Apply(m, Flush), j);
  }

  lemma {:induction false} TakeAll(m: Machine, j: nat)
    requires Inv(m, j) && Submitted(m.q) == Unconsumed(m.q)
    ensures RunEnabled(m, Takes(Unconsumed(m.q)))
    ensures var m' := Run(m, Takes(Unconsumed(m.q)));
      |m'.q.sqes| > 0 && m'.consumed == m.prepared == m'.prepared && Fifo(m'.q) == []
    decreases Unconsumed(m.q)
  {
    hide Slots, Mod;
    if Unconsumed(m.q) == 0 {
      assert Fifo(m.q) == [];
    } else {
      HeadDistance(m.q.ktail, m.q.khead);
      TakeKeeps(m, j);
      ConsumeCounts(m.q);
      assert Takes(Unconsumed(m.q))[1..] == Takes(Unconsumed(m.q) - 1);
      TakeAll(Apply(m, Take), j);
    }
  }

  lemma {:induction false} ResidueOfLastLap(ops: seq<Op>, n: nat, since: nat)
    requires n > 0 && n <= |ops| && since < n && ops[|ops| - n].Send?
    ensures var send := ops[|ops| - n];
      Residue(ops[..|ops| - since], Mod(|ops|, n), n) == (send.ptr, send.len % 0x1_0000_0000)
    decreases n - since
  {
    var last := |ops| - since - 1;
    assert ops[..|ops| - since][..last] == ops[..last];
    if since + 1 == n {
      assert Mod(last, n) == Mod(last + n, n);
    } else {
      ModDistinct(last, |ops|, n);
      ResidueOfLastLap(ops, n, since + 1);
    }
  }

  /** A receive prepared in a slot whose last use, one lap earlier, was a send inherits that send's
      address and length. */
  lemma {:induction false} RecvInheritsSend(m: Machine, j: nat, recv: Op)
    requires Inv(m, j) && Enabled(m, Claim(recv)) && recv.Recv?
    requires |m.q.sqes| <= |m.ops| && m.ops[|m.ops| - |m.q.sqes|].Send?
    ensures var send := m.ops[|m.ops| - |m.q.sqes|];
      Apply(m, Claim(recv)).prepared[|m.ops|] == Intended(recv).(addr := send.ptr, len := send.len % 0x1_0000_0000)
  {
    var n := |m.q.sqes|;
    var slot := Mod(|m.ops|, n);
    ResidueOfLastLap(m.ops, n, 0);
    assert m.ops[..|m.ops|] == m.ops;
    PrepareValue(m.q, j, recv);
    WrapMod32(|m.ops|, j);
    assert Apply(m, Claim(recv)).prepared[|m.ops|] == Fill(m.q.sqes[slot], recv);
    FillRecvKeeps(m.q.sqes[slot], recv);
  }

  const SEND: Op := Send(1, 7, 5, MSG_WAITALL, 9)
  const RECV: Op := Recv(1, 0, 0, 3)
  const LEAKED: Sqe := Intended(RECV).(addr := 7, len := 5)

  /** The shortest run that leaks: one slot; a send is submitted and consumed, and the receive after
      it carries the send's address 7 and length 5. */
  lemma {:induction false} RecvLeakRun()
    ensures var steps := [Claim(SEND), Flush, Take, Claim(RECV)];
      && RunEnabled(Start(0), steps)
      && Run(Start(0), steps) ==
           Machine(Sq([LEAKED], 2, 1, 1), [SEND, RECV], [Intended(SEND), LEAKED], [Intended(SEND)])
    ensures LEAKED != Intended(RECV)
  {
    hide Apply, Enabled, Run, RunEnabled;
    var e := Intended(SEND);
    var m1 := Machine(Sq([e], 1, 0, 0), [SEND], [e], []);
    var m2 := Machine(Sq([e], 1, 1, 0), [SEND], [e], []);
    var m3 := Machine(Sq([e], 1, 1, 1), [SEND], [e], [e]);
    var m4 := Machine(Sq([LEAKED], 2, 1, 1), [SEND, RECV], [e, LEAKED], [e]);
    LeakSteps(m1, m2, m3, m4);
    assert [Claim(SEND)] + [Flush, Take, Claim(RECV)] == [Claim(SEND), Flush, Take, Claim(RECV)];
    assert [Flush] + [Take, Claim(RECV)] == [Flush, Take, Claim(RECV)];
    assert [Take] + [Claim(RECV)] == [Take, Claim(RECV)];
    assert [Claim(RECV)] + [] == [Claim(RECV)];
    RunEmpty(m4);
    RunFirst(m3, Claim(RECV), []);
    RunFirst(m2, Take, [Claim(RECV)]);
    RunFirst(m1, Flush, [Take, Claim(RECV)]);
    RunFirst(Start(0), Claim(SEND), [Flush, Take, Claim(RECV)]);
  }

  lemma RunEmpty(m: Machine)
    ensures RunEnabled(m, []) && Run(m, []) == m
  {
  }

  lemma RunFirst(m: Machine, step: Step, steps: seq<Step>)
    requires Enabled(m, step) && RunEnabled(Apply(m, step), steps)
    ensures RunEnabled(m, [step] + steps) && Run(m, [step] + steps) == Run(Apply(m, step), steps)
  {
    assert ([step] + steps)[1..] == steps;
  }

  lemma LeakSteps(m1: Machine, m2: Machine, m3: Machine, m4: Machine)
    requires m1 == Machine(Sq([Intended(SEND)], 1, 0, 0), [SEND], [Intended(SEND)], [])
    requires m2 == m1.(q := m1.q.(ktail := 1))
    requires m3 == m2.(q := m2.q.(khead := 1), consumed := [Intended(SEND)])
    requires m4 == Machine(Sq([LEAKED], 2, 1, 1), [SEND, RECV], [Intended(SEND), LEAKED], [Intended(SEND)])
    ensures Enabled(Start(0), Claim(SEND)) && Apply(Start(0), Claim(SEND)) == m1
    ensures Enabled(m1, Flush) && Apply(m1, Flush) == m2
    ensures Enabled(m2, Take) && Apply(m2, Take) == m3
    ensures Enabled(m3, Claim(RECV)) && Apply(m3, Claim(RECV)) == m4
  {
    hide And, Or;
    AndZero(MSG_WAITALL);
    assert Pow2(0) == 1;
    assert Start(0).q.sqes == [ZEROED];
    OrZero(BUFFER_SELECT);
  }

  lemma FillRecvKeeps(e: Sqe, recv: Op)
    requires recv.Recv? && e.off == 0
    ensures Fill(e, recv) == Intended(recv).(addr := e.addr, len := e.len)
  {
  }
}
