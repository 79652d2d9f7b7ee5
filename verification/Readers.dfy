/** The zero-copy reader: a queue of kernel buffers with the part of each already claimed. The bytes
    stay in memory shared with the kernel until a read copies them out. */
module Readers {
  import opened Bits
  import opened Outcomes
  import opened BufRings

  datatype Reader = Reader(buf: KernelBuffer, claimed: nat)

  /** What one read of the queue yields; `drained` is the buffer it gives up. */
  datatype ReadResult =
    | WouldBlock
    | Got(bytes: seq<byte>, queue: seq<Reader>, drained: Option<KernelBuffer>)

  function Min(a: nat, b: nat): nat { if a < b then a else b }

  predicate InMemory(size: nat, r: Reader) {
    r.claimed <= r.buf.dataLen && r.buf.addr + r.buf.dataLen <= size
  }

  /** The next `n` unclaimed bytes of a buffer, wherever they are in memory. */
  function NextBytes(mem: seq<byte>, r: Reader, n: nat): (bytes: seq<byte>)
    requires InMemory(|mem|, r) && r.claimed + n <= r.buf.dataLen
    ensures |bytes| == n
  {
    mem[r.buf.addr + r.claimed..r.buf.addr + r.claimed + n]
  }

  function Commit(r: Reader, n: nat): Reader { r.(claimed := r.claimed + n) }

  /** A read into a slice of `want` bytes: only the front buffer is looked at; it is dropped when
      this read empties it. An empty slice with data waiting aborts. */
  function VecRead(mem: seq<byte>, queue: seq<Reader>, want: nat): Outcome<ReadResult> {
    if queue == [] then Ok(WouldBlock)
    else if !InMemory(|mem|, queue[0]) then Panic(ReaderOutsideMemory)
    else
      var front := queue[0];
      var remaining := front.buf.dataLen - front.claimed;
      var n := Min(want, remaining);
      if remaining == 0 then Panic(DrainedBufferQueued)
      else if n == 0 then Panic(NothingClaimed)
      else
        var bytes := NextBytes(mem, front, n);
        if n == remaining then Ok(Got(bytes, queue[1..], Some(front.buf)))
        else Ok(Got(bytes, [Commit(front, n)] + queue[1..], None))
  }

  // ---------- The bytes a queue stands for ----------

  datatype Chunk = Chunk(lo: nat, len: nat)

  function Slice(mem: seq<byte>, c: Chunk): seq<byte> {
    if c.lo + c.len <= |mem| then mem[c.lo..c.lo + c.len] else []
  }

  function Content(mem: seq<byte>, chunks: seq<Chunk>): seq<byte> {
    if chunks == [] then [] else Slice(mem, chunks[0]) + Content(mem, chunks[1..])
  }

  function Unclaimed(r: Reader): Chunk {
    if r.claimed <= r.buf.dataLen then Chunk(r.buf.addr + r.claimed, r.buf.dataLen - r.claimed)
    else Chunk(r.buf.addr, 0)
  }

  function QueueChunks(queue: seq<Reader>): (c: seq<Chunk>)
    ensures |c| == |queue| && forall i :: 0 <= i < |c| ==> c[i] == Unclaimed(queue[i])
  {
    seq(|queue|, i requires 0 <= i < |queue| => Unclaimed(queue[i]))
  }

  lemma {:induction false} ContentConcat(mem: seq<byte>, a: seq<Chunk>, b: seq<Chunk>)
    ensures Content(mem, a + b) == Content(mem, a) + Content(mem, b)
    decreases |a|
  {
    if a == [] {
      assert a + b == b;
    } else {
      assert (a + b)[1..] == a[1..] + b;
      ContentConcat(mem, a[1..], b);
    }
  }

  lemma ContentOne(mem: seq<byte>, c: Chunk)
    ensures Content(mem, [c]) == Slice(mem, c)
  {
    assert Content(mem, [c]) == Slice(mem, c) + Content(mem, [c][1..]);
  }

  /** Only the bytes the chunks name matter. */
  lemma {:induction false} ContentFrame(mem: seq<byte>, mem': seq<byte>, chunks: seq<Chunk>)
    requires forall i :: 0 <= i < |chunks| ==> Slice(mem, chunks[i]) == Slice(mem', chunks[i])
    ensures Content(mem, chunks) == Content(mem', chunks)
    decreases |chunks|
  {
    if chunks != [] {
      assert forall i :: 0 <= i < |chunks[1..]| ==> chunks[1..][i] == chunks[i + 1];
      ContentFrame(mem, mem', chunks[1..]);
    }
  }

  function Overwrite(mem: seq<byte>, lo: nat, data: seq<byte>): (mem': seq<byte>)
    requires lo + |data| <= |mem|
    ensures |mem'| == |mem|
    ensures forall i :: 0 <= i < |mem| ==> mem'[i] == if lo <= i < lo + |data| then data[i - lo] else mem[i]
  {
    mem[..lo] + data + mem[lo + |data|..]
  }

  lemma SliceOutside(mem: seq<byte>, lo: nat, data: seq<byte>, c: Chunk)
    requires lo + |data| <= |mem|
    requires c.lo + c.len <= lo || lo + |data| <= c.lo
    ensures Slice(Overwrite(mem, lo, data), c) == Slice(mem, c)
  {
  }

  lemma SliceInside(mem: seq<byte>, lo: nat, data: seq<byte>)
    requires lo + |data| <= |mem|
    ensures Slice(Overwrite(mem, lo, data), Chunk(lo, |data|)) == data
  {
  }

  /** Memory that differs only outside an area leaves the chunks inside the area alone. */
  lemma {:induction false} FrameInArea(mem: seq<byte>, mem': seq<byte>, chunks: seq<Chunk>, lo: nat, hi: nat)
    requires forall i :: 0 <= i < |chunks| ==> lo <= chunks[i].lo && chunks[i].lo + chunks[i].len <= hi
    requires |mem| == |mem'| && forall i :: lo <= i < hi && i < |mem| ==> mem[i] == mem'[i]
    ensures Content(mem, chunks) == Content(mem', chunks)
  {
    forall i | 0 <= i < |chunks|
      ensures Slice(mem, chunks[i]) == Slice(mem', chunks[i])
    {
    }
    ContentFrame(mem, mem', chunks);
  }

  /** Writing data into memory no chunk names appends exactly that data as one more chunk. */
  lemma {:induction false} ContentAppendWritten(mem: seq<byte>, chunks: seq<Chunk>, lo: nat, data: seq<byte>)
    requires lo + |data| <= |mem|
    requires forall i :: 0 <= i < |chunks| ==> chunks[i].lo + chunks[i].len <= lo || lo + |data| <= chunks[i].lo
    ensures Content(Overwrite(mem, lo, data), chunks + [Chunk(lo, |data|)]) == Content(mem, chunks) + data
  {
    var mem' := Overwrite(mem, lo, data);
    forall i | 0 <= i < |chunks|
      ensures Slice(mem, chunks[i]) == Slice(mem', chunks[i])
    {
      SliceOutside(mem, lo, data, chunks[i]);
    }
    ContentFrame(mem, mem', chunks);
    ContentConcat(mem', chunks, [Chunk(lo, |data|)]);
    ContentOne(mem', Chunk(lo, |data|));
    SliceInside(mem, lo, data);
  }

  /** A read returns the first bytes of the queue's content and leaves the rest, in order. It blocks
      exactly when the queue is empty, and drops a buffer exactly when it takes its last byte. */
  lemma {:induction false} VecReadIsFifo(mem: seq<byte>, queue: seq<Reader>, want: nat)
    requires queue != [] ==> InMemory(|mem|, queue[0]) && queue[0].claimed < queue[0].buf.dataLen
    ensures VecRead(mem, queue, want).Panic? <==> queue != [] && want == 0
    ensures VecRead(mem, queue, want) == Ok(WouldBlock) <==> queue == []
    ensures VecRead(mem, queue, want).Ok? && queue != [] ==>
      var r := VecRead(mem, queue, want).value;
      && r.Got?
      && |r.bytes| == Min(want, queue[0].buf.dataLen - queue[0].claimed) > 0
      && r.bytes + Content(mem, QueueChunks(r.queue)) == Content(mem, QueueChunks(queue))
      && (r.drained.Some? <==> |r.queue| < |queue|)
      && (r.drained.Some? ==> r.drained == Some(queue[0].buf) && r.queue == queue[1..])
      && (r.drained.None? ==> r.queue == [Commit(queue[0], |r.bytes|)] + queue[1..])
  {
    if queue != [] && want > 0 {
      ReadFront(mem, queue, want);
    }
  }

  /** A queue's content is its front buffer's unclaimed bytes, then the rest. */
  lemma {:induction false} ContentFront(mem: seq<byte>, queue: seq<Reader>)
    requires queue != []
    ensures Content(mem, QueueChunks(queue)) == Slice(mem, Unclaimed(queue[0])) + Content(mem, QueueChunks(queue[1..]))
  {
    assert QueueChunks(queue)[1..] == QueueChunks(queue[1..]);
  }

  lemma Regroup(a: seq<byte>, b: seq<byte>, c: seq<byte>)
    ensures (a + b) + c == a + (b + c)
  {
  }

  lemma {:induction false} ReadFront(mem: seq<byte>, queue: seq<Reader>, want: nat)
    requires queue != [] && InMemory(|mem|, queue[0]) && queue[0].claimed < queue[0].buf.dataLen && want > 0
    ensures VecRead(mem, queue, want).Ok? && VecRead(mem, queue, want).value.Got?
    ensures var r := VecRead(mem, queue, want).value;
      r.bytes + Content(mem, QueueChunks(r.queue)) == Content(mem, QueueChunks(queue))
  {
    hide Content, NextBytes;
    var remaining := queue[0].buf.dataLen - queue[0].claimed;
    if want < remaining {
      VecReadPart(mem, queue, want);
      ReadSome(mem, queue, want);
    } else {
      VecReadLast(mem, queue, want);
      ReadLast(mem, queue, remaining);
    }
  }

  lemma VecReadPart(mem: seq<byte>, queue: seq<Reader>, want: nat)
    requires queue != [] && InMemory(|mem|, queue[0]) && 0 < want < queue[0].buf.dataLen - queue[0].claimed
    ensures VecRead(mem, queue, want)
         == Ok(Got(NextBytes(mem, queue[0], want), [Commit(queue[0], want)] + queue[1..], None))
  {
  }

  lemma VecReadLast(mem: seq<byte>, queue: seq<Reader>, want: nat)
    requires queue != [] && InMemory(|mem|, queue[0]) && 0 < queue[0].buf.dataLen - queue[0].claimed <= want
    ensures VecRead(mem, queue, want)
         == Ok(Got(NextBytes(mem, queue[0], queue[0].buf.dataLen - queue[0].claimed), queue[1..], Some(queue[0].buf)))
  {
  }

  lemma {:induction false} ReadLast(mem: seq<byte>, queue: seq<Reader>, n: nat)
    requires queue != [] && InMemory(|mem|, queue[0]) && queue[0].claimed + n == queue[0].buf.dataLen
    ensures NextBytes(mem, queue[0], n) + Content(mem, QueueChunks(queue[1..])) == Content(mem, QueueChunks(queue))
  {
    ContentFront(mem, queue);
  }

  lemma {:induction false} ReadSome(mem: seq<byte>, queue: seq<Reader>, n: nat)
    requires queue != [] && InMemory(|mem|, queue[0]) && queue[0].claimed + n <= queue[0].buf.dataLen
    ensures NextBytes(mem, queue[0], n) + Content(mem, QueueChunks([Commit(queue[0], n)] + queue[1..]))
        == Content(mem, QueueChunks(queue))
  {
    ReadPart(mem, queue[0], n);
    PartRead(mem, queue[0], Commit(queue[0], n), queue[1..], NextBytes(mem, queue[0], n));
    assert [queue[0]] + queue[1..] == queue;
  }

  lemma {:induction false} PartRead(mem: seq<byte>, front: Reader, front': Reader, rest: seq<Reader>, bytes: seq<byte>)
    requires bytes + Slice(mem, Unclaimed(front')) == Slice(mem, Unclaimed(front))
    ensures bytes + Content(mem, QueueChunks([front'] + rest)) == Content(mem, QueueChunks([front] + rest))
  {
    ContentCons(mem, front, rest);
    ContentCons(mem, front', rest);
    Regroup(bytes, Slice(mem, Unclaimed(front')), Content(mem, QueueChunks(rest)));
  }

  lemma {:induction false} ContentCons(mem: seq<byte>, front: Reader, rest: seq<Reader>)
    ensures Content(mem, QueueChunks([front] + rest)) == Slice(mem, Unclaimed(front)) + Content(mem, QueueChunks(rest))
  {
    ContentFront(mem, [front] + rest);
    assert ([front] + rest)[1..] == rest;
  }

  lemma {:induction false} ReadPart(mem: seq<byte>, front: Reader, n: nat)
    requires InMemory(|mem|, front) && front.claimed + n <= front.buf.dataLen
    ensures NextBytes(mem, front, n) + Slice(mem, Unclaimed(Commit(front, n))) == Slice(mem, Unclaimed(front))
  {
    var from, end := front.buf.addr + front.claimed, front.buf.addr + front.buf.dataLen;
    SliceJoin(mem, from, from + n, end);
    assert Slice(mem, Unclaimed(front)) == mem[from..end];
    assert Slice(mem, Unclaimed(Commit(front, n))) == mem[from + n..end];
  }

  lemma SliceJoin(mem: seq<byte>, a: nat, b: nat, c: nat)
    requires a <= b <= c <= |mem|
    ensures mem[a..b] + mem[b..c] == mem[a..c]
  {
  }
}
