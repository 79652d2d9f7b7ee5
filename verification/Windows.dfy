/** The view of a ring of slots as a bounded FIFO; every ring of the program is read through it. */
module Windows {
  import opened Bits

  /** The `count` entries of a ring that follow running index `start`, oldest first. */
  function Window<T>(slots: seq<T>, start: nat, count: nat): (w: seq<T>)
    requires |slots| > 0
    ensures |w| == count
    ensures forall i :: 0 <= i < count ==> w[i] == slots[Mod(start + i, |slots|)]
  {
    seq(count, i requires 0 <= i < count => slots[Mod(start + i, |slots|)])
  }

  /** Writing the slot after the window and widening it appends; nothing in the window is touched. */
  lemma {:induction false} WindowPush<T>(slots: seq<T>, start: nat, count: nat, x: T)
    requires count < |slots|
    ensures var idx := Mod(start + count, |slots|);
      && Window(slots[idx := x], start, count) == Window(slots, start, count)
      && Window(slots[idx := x], start, count + 1) == Window(slots, start, count) + [x]
  {
    var idx := Mod(start + count, |slots|);
    var w := Window(slots[idx := x], start, count);
    forall i | 0 <= i < count
      ensures w[i] == Window(slots, start, count)[i]
    {
      ModDistinct(start + i, start + count, |slots|);
    }
    var v := Window(slots[idx := x], start, count + 1);
    forall i | 0 <= i < count + 1
      ensures v[i] == (Window(slots, start, count) + [x])[i]
    {
      if i < count { assert v[i] == w[i]; }
    }
  }

  /** Writing any slot ahead of the window leaves the window alone. */
  lemma {:induction false} WindowUntouched<T>(slots: seq<T>, start: nat, count: nat, at: nat, x: T)
    requires start + count <= at < start + |slots|
    ensures Window(slots[Mod(at, |slots|) := x], start, count) == Window(slots, start, count)
  {
    var w := Window(slots[Mod(at, |slots|) := x], start, count);
    forall i | 0 <= i < count
      ensures w[i] == Window(slots, start, count)[i]
    {
      ModDistinct(start + i, at, |slots|);
    }
  }

  /** Widening a window over slots already filled appends what they hold. */
  lemma {:induction false} WindowExtend<T>(slots: seq<T>, start: nat, count: nat, more: seq<T>)
    requires |slots| > 0
    requires forall i :: 0 <= i < |more| ==> slots[Mod(start + count + i, |slots|)] == more[i]
    ensures Window(slots, start, count + |more|) == Window(slots, start, count) + more
  {
    var w, w' := Window(slots, start, count), Window(slots, start, count + |more|);
    forall i | 0 <= i < count + |more|
      ensures w'[i] == (w + more)[i]
    {
      if i >= count { assert start + i == start + count + (i - count); }
    }
  }

  lemma {:induction false} WindowPop<T>(slots: seq<T>, start: nat, count: nat)
    requires 0 < count && |slots| > 0
    ensures Window(slots, start, count)[0] == slots[Mod(start, |slots|)]
    ensures Window(slots, start + 1, count - 1) == Window(slots, start, count)[1..]
  {
    var w := Window(slots, start + 1, count - 1);
    forall i | 0 <= i < count - 1
      ensures w[i] == Window(slots, start, count)[1..][i]
    {
      assert start + 1 + i == start + (i + 1);
    }
  }
}
