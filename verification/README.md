# Provided buffers, submissions and sends over io_uring: a verified model

The program (`ws_uring`) reads WebSocket bytes without copying. The kernel writes received data into
buffers it was lent through a shared ring; user code reads them in place and lends each buffer back
when it is drained. Sends go through a submission ring whose slots are reused, and every written
payload is kept alive until its completion arrives. This project models that protocol in Dafny and
proves it correct over every interleaving of kernel and user steps.

## How it is organised

| file | content |
|---|---|
| `Bits.dfy` | words as naturals, `&`, `\|`, shifts, masks, wrapped counters |
| `Outcomes.dfy`, `Windows.dfy` | abort sites as values; a ring of slots seen as a bounded FIFO |
| `UserData.dfy` | the packed 64-bit tag |
| `BufRing.dfy` | one buffer ring on values: add, advance, return, lookup, setup |
| `RingMemory.dfy` | the same ring as the bytes of shared memory, a class proved to refine it |
| `Publication.dfy`, `AtomicReturns.dfy` | publication one store at a time, the kernel running in between, and why a return can be treated as one step |
| `ReturnOrder.dfy` | buffers returned in any order: what survives and what needs FIFO |
| `Readers.dfy`, `Group.dfy` | the zero-copy reader; one group and its stream against a kernel that rewrites memory |
| `ReaderObjects.dfy` | pool and reader classes working in place |
| `Submission.dfy`, `SubmissionRuns.dfy` | the submission ring: claiming, FIFO order, what slot reuse leaves behind |
| `Streams.dfy`, `StreamObjects.dfy` | stream, completion and submission-ring operations on values and as classes |
| `Systems.dfy`, `SystemSteps.dfy`, `SystemUser.dfy`, `SystemRuns.dfy` | the whole system as a state machine, its invariant, every step, setup and all runs |
| `SystemProgress.dfy` | nothing gets stuck: every run can be brought to rest, and what rest then means |
| `SystemFailures.dfy` | a run from setup that loses a payload once the stated limit on pending sends is passed |
| `Program.dfy` | the whole program as objects that share memory: setup and every run of the system carried out in place |
| `EventLoop.dfy` | the completion ring and the event loop's batch |

Operations are functions on values; the classes update arrays, bytes and fields in place and their
contracts say that they do what those functions say. Failed assertions, unwraps of nothing and bad
indexes are explicit `Panic` outcomes, so "never aborts" is a theorem and not an assumption. The pool
size 2^k (k <= 15), the buffer size, the number of submission entries 2^j and the number of streams
(<= 256) are arbitrary; the program's own sizes (1024, 1500, 1024) are one instance (`ProgramSizes`).

## What the environment is assumed to do

`Systems.Enabled` lists the assumptions on steps:

- a receive happens only while a buffer is available, takes the entry at the kernel's head, writes
  between 1 and that entry's length bytes and posts one completion naming the buffer; so completions
  of one multishot receive arrive in the order its buffers were taken;
- a completion reports a buffer only for an entry that selected one, and never a partially used one;
- a send completes with the full length of its entry, and the allocator returns addresses not in use;
- the handler reads into non-empty slices and writes non-empty payloads below 2 GiB while the
  submission ring has room, and no send stays pending for 2^32 later writes of its stream.

Steps of the system treat a return as one step; `RunRefines` and `FineReturn` prove that its single
stores, interleaved with kernel takes, come to the same. A new buffer ring has tail 0 and a new submission ring is zeroed; buffer allocations of different
groups and the sockets of different streams are distinct. Completions are taken from the ring as
`peek_batch` gives them: a prefix of those ready, in order. The kernel posts only while the
completion ring has room. Steps are sequentially consistent.

## Where the code falls short, exactly

- Slot equals buffer id only because returns are FIFO: `IdentityKeptIffOldest` gives the condition,
  `SwappedReturnPanics` a continuation in which the lookup aborts.
- `op::multishot_recv` writes neither address nor length, and initialisation resets neither. A receive
  entry is clean exactly when no earlier send left something in its slot (`SubmissionRun`);
  `RecvInheritsSend` shows what leaks, `RecvLeakRun` is the shortest run that does. The program
  prepares its receives before its first send.
- A completion's result is a signed 32-bit number and `_prep_send` cuts the length to 32 bits. A send
  that transmits its whole payload is accepted exactly when the payload is below 2^31 bytes
  (`FullSendAcceptedIff`). Above that it aborts as a completion error, a zero result or a short send,
  depending on the low 32 bits of the length; `FullSendRefused` has 2^31, 2^32 and 2^32 + 1 bytes.
- A write reuses the key of a pending send exactly when one is a multiple of 2^32 writes old
  (`OverwritesIff`). It frees the payload of exactly those sends still in the submission ring or the
  kernel that are (`WriteStarvesIff`), and completing one then reads freed memory. `OverwriteReached`
  is a run from setup to such a state.
- The "must not reallocate" assertion in `KernelBufferVecReader::push` compares the length with the
  capacity after the push, which a growing queue always satisfies. The model lets the queue grow and
  proves what the assertion is for: the capacity never changes (`QueueBound`).

## Model

| member | source | states |
|---|---|---|
| Bits.Mask | src/buf_ring.rs:176-199 | Masking with a power of two less one is the remainder by that power, for every index. |
| Bits.WrapIndex16 | src/buf_ring.rs:174-177 | A 16-bit wrapped counter plus an offset selects the same slot as the unbounded counter, for every ring size up to 2^16. |
| Bits.OrDisjoint | src/lib.rs:69-75 | Or-ing a field into zeroed low bits adds it. |
| Bits.BitsOfAndOr | src/lib.rs:65-96 | And and or are what they should be on every bit of every word. |
| UserData.Pack | src/lib.rs:65-78 | The packed word is the four-field word with zero reserved bits and fits 64 bits. |
| UserData.FromParts | src/lib.rs:65-78 | Three or-assignments build the packed word, from which all three parts can be read. |
| UserData.RoundTrip | src/lib.rs:83-96 | Unpacking after packing returns event, owner and request. |
| UserData.PackInjective | src/lib.rs:65-96 | Two tags are equal exactly when all parts are. |
| UserData.PackedIffReservedZero | src/lib.rs:65-96 | A 64-bit word is the packing of its own parts exactly when bits 32-39 are zero. |
| BufRings.SlotIndexIsMasked | src/buf_ring.rs:174-177 | The slot an add writes is (tail + offset) & mask, whatever the buffer id. |
| BufRings.LookupUnderIdentity | src/buf_ring.rs:105-150 | With slot equal to id, the lookup by id succeeds and names that id's own block. |
| BufRings.GetReadBufIff | src/buf_ring.rs:111-150 | The lookup succeeds exactly when the slot holds the id asked for and its buffer is long enough, and hands out that slot's memory. |
| BufRings.ReturnKeepsIdentityIff | src/buf_ring.rs:176-184 | A return keeps slot equal to id exactly when the returned id is tail & mask. |
| BufRings.FillSlots | src/buf_ring.rs:58-79 | From any tail, setup iteration i fills slot (tail + i) & mask with id i and its block, and no later iteration disturbs it. |
| BufRings.SetupIdentityIff | src/buf_ring.rs:58-82 | Setup yields slot equal to id exactly when the starting tail is a multiple of the ring size. |
| BufRings.SetupTail | src/buf_ring.rs:80-82 | After setup the tail has moved by the ring size, wrapping at 2^16. |
| BufRings.WrappedTail | src/buf_ring.rs:174-206 | Wrapped tail and head select the slots of the true counts; their wrapped difference is the true number available, never above the ring size, and zero exactly when none is. |
| BufRings.MaskedTail | src/buf_ring.rs:174-177 | The mask of the wrapped tail is the true return count modulo the ring size. |
| RingMemory.StoreSlotKeepsTail | src/buf_ring.rs:179-184 | At byte level, filling any slot, slot 0 included, changes that slot alone and never the tail in bytes 14-15. |
| RingMemory.StoreTailKeepsSlots | src/buf_ring.rs:202-206 | At byte level, storing the tail changes no slot's address, length or id. |
| RingMemory.LoadStore | src/sys.rs:222-241 | A little-endian field read back is the value stored. |
| RingMemory.BufRing.Add | src/buf_ring.rs:165-194 | The byte stores refine the add on values. |
| RingMemory.BufRing.Advance | src/buf_ring.rs:202-206 | The fetch-and-add on the tail bytes refines the wrapping advance. |
| RingMemory.BufRing.AddAdvance | src/buf_ring.rs:209-232 | Dropping a buffer refines the return: add at offset 0, then advance by one. |
| RingMemory.BufRing.FillAll | src/buf_ring.rs:58-82 | The setup loop refines NewGroup. |
| RingMemory.BufRing.GetReadBuf | src/buf_ring.rs:93-151 | The lookup in memory refines the lookup on values, with its mismatch panic. An id past the ring, where the source reads past the slots unchecked, is reported as that mismatch. |
| Publication.KernelSeesWholeEntries | src/buf_ring.rs:165-206 | With every field store a separate step, for returns and for the setup batch alike, what the kernel has read and can still read is exactly the published entries, complete and in order. |
| Publication.StoreKeeps | src/buf_ring.rs:179-184 | A field store leaves every published entry the kernel has not read as it was published, and keeps the invariant. |
| Publication.StoreStored | src/buf_ring.rs:179-184 | A field store completes the entry in hand field by field and leaves the entries of the batch before it in place. |
| AtomicReturns.RunRefines | src/buf_ring.rs:165-206 | Every interleaving of field stores, publications and takes does to ring, kernel index and entries taken what whole returns and takes do. |
| AtomicReturns.SingleIsReturn | src/buf_ring.rs:209-232 | The batch of one is the return of a dropped buffer. |
| AtomicReturns.FullIsSetup | src/buf_ring.rs:58-82 | The batch of every buffer is the setup of a group. |
| AtomicReturns.ReturnMayBegin | src/buf_ring.rs:223-231 | By conservation alone, a buffer out of the ring always has a free slot to be returned to. |
| AtomicReturns.ReturnGoesThrough | src/buf_ring.rs:209-232 | A return can always be made: its three stores and its publication need nothing from the kernel. |
| AtomicReturns.FineReturn | src/buf_ring.rs:209-232 | A group's oldest buffer returned store by store, the kernel taking t entries in between, leaves what t takes and the one-step return leave. |
| ReturnOrder.NoDuplicates | src/buf_ring.rs:223-231 | Conservation implies no id is published twice, held twice, or both. |
| ReturnOrder.AnyOrderConserves | src/buf_ring.rs:209-232 | In every run, whatever the order of returns, each buffer is in exactly one place, no id is published twice, and as many are held as were taken and not returned. |
| ReturnOrder.OldestIsAtTail | src/buf_ring.rs:174-184 | While slot equals id, the buffer at tail & mask is the one held longest. |
| ReturnOrder.IdentityKeptIffOldest | src/buf_ring.rs:223-231 | In a reachable state with slot equal to id, a return keeps it exactly when it is the buffer held longest. |
| ReturnOrder.FifoRunKeepsIdentity | src/read_buf.rs:161-165 | Runs that return in FIFO order keep slot equal to id for ever, across tail wrap-around. |
| ReturnOrder.SwappedReturnPanics | src/buf_ring.rs:111-139 | Two neighbours returned the wrong way round leave a published entry whose lookup aborts. |
| Readers.VecReadIsFifo | src/read_buf.rs:145-170 | A read returns the next bytes of the queue and leaves the rest in order; it aborts exactly for an empty slice with data waiting, blocks exactly when nothing is queued, and drops the front buffer exactly with its last byte. |
| Readers.ContentAppendWritten | src/read_buf.rs:30-32 | Data written to memory outside every queued chunk appends exactly that data. |
| Groups.ReceiveKeeps | src/buf_ring.rs:44-79 | A receive puts its data in the next published buffer, inside the group's allocation, overwrites no byte still to be read, and posts that buffer and length; head and count move by one. |
| Groups.PickKeeps | src/buf_ring.rs:93-151 | The mismatch panic is unreachable, and the buffer queued is the memory the kernel wrote. |
| Groups.ReadKeeps | src/read_buf.rs:145-170 | A read into a non-empty slice never aborts and keeps layout, conservation and byte order. |
| Groups.ReturnOldest | src/read_buf.rs:161-165 | The drained buffer is the one at tail & mask, and returning it keeps the invariant. |
| Groups.BuffersApart | src/buf_ring.rs:58-79 | Any two of the group's buffers, queued, completed or published, have different ids, their full size, and addresses inside the allocation that do not overlap. |
| Groups.Conservation | src/buf_ring.rs:142-150 | Each of the group's buffers is in exactly one of reader queue, waiting completions and published ring, and the wrapped indices count the published ones. |
| Groups.ReadProgress | src/read_buf.rs:149-165 | Each read of a non-empty queue takes at least one byte and returns a buffer exactly when the queue shrinks. |
| Groups.DrainDeliversAll | src/net.rs:131-143 | Reading until it would block ends within one read per queued byte, returns every queued byte in order and hands every queued buffer back. |
| ReaderObjects.BufRingPool.NewBufferGroup | src/buf_ring.rs:30-90 | The ring is filled and stored under its id, overwriting what was there; an id past the table aborts. |
| ReaderObjects.BufRingPool.GetReadBuf | src/buf_ring.rs:93-162 | The lookup goes to the ring stored under the group id. An id past the table aborts; a null pointer, which the source dereferences, is reported as the same abort. |
| ReaderObjects.KernelBufferReader.constructor | src/read_buf.rs:68-73 | A new reader owns its buffer with nothing claimed. |
| ReaderObjects.KernelBufferReader.Commit | src/read_buf.rs:76-79 | Committing adds to the claim and aborts exactly when it passes the data length. |
| ReaderObjects.KernelBufferReader.Read | src/read_buf.rs:111-123 | The bytes copied out are the next unclaimed bytes of shared memory, as many as fit, and the rest of the slice is untouched. |
| ReaderObjects.KernelBufferReader.Drop | src/read_buf.rs:39-43 | Dropping gives the buffer up and returns it to its own ring. |
| ReaderObjects.KernelBufferVecReader.constructor | src/read_buf.rs:131-135 | A new queue is empty with the capacity asked for. |
| ReaderObjects.KernelBufferVecReader.Push | src/read_buf.rs:136-142 | A push appends the buffer unclaimed and grows the capacity only when full. |
| ReaderObjects.KernelBufferVecReader.Read | src/read_buf.rs:145-170 | The in-place read does exactly what VecRead says, to queue, slice and ring. |
| Submission.FillIsIntendedIff | src/op.rs:59-86 | A filled entry depends on its arguments alone exactly when the slot's offset is zero and, for a receive, its address and length are zero too. |
| Submission.GetSqeIff | src/ring.rs:56-73 | For every wrapped head and tail, a slot is handed out exactly when fewer than ring_entries are unconsumed. |
| Submission.PrepareAppends | src/ring.rs:31-74 | A preparation appends one entry to the unconsumed ones and disturbs none; it fails exactly when full or on a flagged receive. |
| Submission.PrepareValue | src/ring.rs:52-97 | A preparation changes the claimed slot and the tail and nothing else. |
| Submission.ConsumePops | src/ring.rs:60-68 | The kernel's next entry is the oldest unconsumed one. |
| Submission.SubmitKeeps | src/ping_pong.rs:118-123 | A submission shows the kernel every entry claimed so far and changes none. |
| SubmissionRuns.SubmissionRun | src/ring.rs:52-89 | In every run on a zeroed ring, entries are consumed in the order prepared, none lost or altered; sends are clean, and a receive is clean exactly when no earlier send left an address or length in its slot. |
| SubmissionRuns.FlushedAllConsumed | src/ping_pong.rs:118-123 | In every reachable state, after a flush the kernel can take every waiting entry, and has then consumed all that was ever prepared. |
| SubmissionRuns.RecvInheritsSend | src/op.rs:71-86 | A receive prepared where a send was prepared one lap earlier inherits its address and length. |
| SubmissionRuns.RecvLeakRun | src/op.rs:71-86 | One send submitted and consumed, then one receive in the same slot: the receive carries the send's address and length. |
| StreamObjects.SubmissionQueue.InitializeSqe | src/ring.rs:79-89 | Initialisation resets exactly the eight fields it names. |
| StreamObjects.SubmissionQueue.GetSqe | src/ring.rs:52-74 | Claiming refines the function, and changes nothing when it fails. |
| StreamObjects.SubmissionQueue.FillSend | src/op.rs:60-68 | A send writes opcode, socket, address, flags and length of its slot. |
| StreamObjects.SubmissionQueue.FillRecv | src/op.rs:71-86 | A receive writes its six fields, and aborts exactly when asked to wait for all. |
| StreamObjects.SubmissionQueue.SetData | src/ring.rs:94-97 | Only the user data of the slot changes. |
| StreamObjects.SubmissionQueue.PrepSend | src/ring.rs:31-41 | Claim and fill, with the length cut to 32 bits; a full ring aborts. |
| StreamObjects.SubmissionQueue.PrepRecv | src/io_uring_probe_v2.rs:82-86 | The setup loop's receive refines the preparation on values. |
| StreamObjects.FromRawEvent | src/cqe.rs:10-57 | Decoding a completion, with each of its aborts, refines the function on values. |
| StreamObjects.Completion.TakeKernelBuf | src/cqe.rs:66-68 | Taking the buffer empties the completion. |
| StreamObjects.Completion.Drop | src/cqe.rs:71-76 | Dropping aborts exactly when the buffer was not taken. |
| StreamObjects.TcpStream.constructor | src/net.rs:31-45 | A new stream has an empty queue of the pool's capacity, first send id 1000 and nothing pending. |
| StreamObjects.TcpStream.OnCompletion | src/net.rs:54-102 | Handling a completion, with each of its aborts, refines the function on values. |
| StreamObjects.TcpStream.Read | src/net.rs:131-143 | A non-blocking read refines the reader and reports would-block exactly when the queue is empty. |
| StreamObjects.TcpStream.Write | src/net.rs:167-195 | A non-blocking write refines the function on stream and submission ring, and changes neither when it aborts. |
| StreamObjects.TcpStream.NextSendId | src/net.rs:122-126 | Send ids count up and wrap at 2^32. |
| Streams.WritePanicsIff | src/net.rs:174-188 | A write aborts exactly when it is empty or the submission ring is full. |
| Streams.FromRawEventIff | src/cqe.rs:10-57 | Exactly which raw completions decode, whatever their tag, and to what. |
| Streams.OnCompletionIff | src/net.rs:54-102 | Exactly which receive and send completions a stream handles without aborting, and what it then holds. |
| Streams.FullSendAcceptedIff | src/net.rs:59-74 | Decoded and handled, a completion that reports the whole payload is accepted exactly when the payload is below 2^31 bytes; otherwise the low 32 bits of its length decide between completion error, zero result and short send. |
| Streams.FullSendRefused | src/cqe.rs:15-18 | Payloads of 2^31, 2^32 and 2^32 + 1 bytes abort in those three ways. |
| Streams.KeysClashIff | src/net.rs:122-126 | Two writes of a stream share a key exactly when their numbers differ by a multiple of 2^32. |
| Streams.RecvFlags | src/cqe.rs:25-39 | The buffer id and both flag tests read back what the kernel packed into the flags word. |
| SystemSteps.ReceiveStep | src/buf_ring.rs:105-150 | A kernel receive on any armed entry puts its data in the group's next buffer, appends it to what the socket received, and posts one completion with that length, tag and buffer id; it changes no byte outside the group's allocation and keeps every stream's bytes, every group's layout and all routing. |
| SystemSteps.ReceiveOther | src/cqe.rs:43-45 | A receive in one group leaves the invariant of every other group intact. |
| SystemSteps.ConsumeStep | src/ring.rs:60-68 | The entry consumed is the oldest one, a well-formed send or receive; a receive becomes armed, a send is in the kernel's hands, and the ledger of messages is kept. |
| SystemSteps.CompleteStep | src/net.rs:59-74 | The kernel finds the payload alive and unchanged, transmits it once, and posts one completion with its full length and without a buffer. |
| SystemSteps.SubmitStep | src/ping_pong.rs:118-123 | Every entry waiting is the kernel's to take, and the invariant holds. |
| SystemUser.RecvLookup | src/cqe.rs:34-50 | For the oldest receive completion of a stream the decode succeeds and yields the buffer the single-group model picks. |
| SystemUser.RecvHandled | src/net.rs:76-96 | A receive completion queues exactly its own buffer on exactly its own stream. |
| SystemUser.OnlyToken | src/net.rs:66-66 | No other send in flight carries the key of the completion at hand. |
| SystemUser.SendHandled | src/net.rs:59-74 | A send completion removes exactly its own pending entry and frees exactly its own payload. |
| SystemUser.DispatchStep | src/ping_pong.rs:162-170 | Handling any completion never aborts: no mismatch, no missing stream, no missing or wrong pending send, no buffer left in a dropped completion. |
| SystemUser.DispatchIff | src/ping_pong.rs:162-170 | In any state, the front completion is handled exactly when its owner is a stream and the completion decodes and is accepted by it; only that stream changes. |
| SystemUser.ReadIsGroupRead | src/read_buf.rs:161-165 | A stream's read is a read of its own group: the drained buffer goes back where it came from and no other group or stream changes. |
| SystemUser.ReadStep | src/net.rs:131-143 | A read into a non-empty slice never aborts and keeps the whole invariant. |
| SystemUser.ReadPanicsIff | src/read_buf.rs:145-170 | A read aborts exactly when it is given an empty slice while bytes are queued. |
| SystemUser.FreshKey | src/net.rs:122-126 | While no pending send is 2^32 or more writes old, the next key is new. |
| SystemUser.OverwritesIff | src/net.rs:190-193 | A write reuses the key of a pending send exactly when one is a multiple of 2^32 writes old. |
| SystemUser.WriteStarvesIff | src/net.rs:190-193 | A write frees the payload of exactly those sends in flight that are its own stream's and a multiple of 2^32 writes old; the kernel then reads freed memory. |
| SystemUser.WriteStep | src/net.rs:167-195 | A write never aborts under the stated conditions, takes a key no pending send has, and appends exactly one message to those waiting in the submission ring. |
| SystemUser.WriteHandled | src/net.rs:167-195 | A write appends the intended send of its payload, files the payload under the key that send carries, allocates it at its address, and takes the next id. |
| SystemRuns.SetupLoop | src/io_uring_probe_v2.rs:68-87 | The setup loop builds the value of Setup, one stream, group and receive at a time, without aborting. |
| SystemRuns.SetupKeeps | src/io_uring_probe_v2.rs:68-87 | Setup of any number of streams up to 256 succeeds and establishes the invariant. |
| SystemRuns.SetupInitial | src/io_uring_probe_v2.rs:68-87 | What setup leaves: each stream new, each ring filled and published, one intended receive per stream waiting in order, and nothing else anywhere. |
| SystemRuns.StepKeeps | src/ping_pong.rs:106-190 | No kernel or user step aborts, and each keeps the invariant. |
| SystemRuns.StepEffect | src/ping_pong.rs:106-190 | What each step adds: a receive its data to its socket, a write its message to those written, and every receive prepared is armed or waiting; streams and sockets stay. |
| SystemRuns.StreamIntegrity | src/net.rs:92-96 | Delivered bytes, then queued bytes, then bytes of waiting completions are exactly what the kernel received on that socket. |
| SystemRuns.QueueBound | src/read_buf.rs:136-142 | The reader queue stays within the capacity chosen at creation, which never changes. |
| SystemRuns.BuffersConserved | src/buf_ring.rs:142-150 | In every state each buffer of each group is in exactly one place, slot equals id, and takes and returns balance with the buffers out. |
| SystemRuns.AllBuffersApart | src/buf_ring.rs:58-79 | No two buffers of the whole system overlap, of one group or of two, whoever holds them, and all are in memory. |
| SystemRuns.CanReceiveIff | src/buf_ring.rs:209-232 | No buffer is lost: the kernel can receive on an armed stream exactly when fewer buffers than the group has are out, and then up to a whole buffer. |
| SystemRuns.SendsMatchPending | src/net.rs:186-194 | Every pending payload is in memory under its pointer and has exactly one send in flight. |
| SystemRuns.SubmittedInOrder | src/ring.rs:60-68 | Each stream's sends reach the kernel in the order they were written: those consumed, then those in the ring, are those written. |
| SystemRuns.EveryRun | src/ping_pong.rs:68-190 | After setup, in every interleaving: nothing aborts; the bytes a stream has delivered, queued and waiting are, in order, those the run's receives brought in on its socket; every group keeps slot equal to id; no queue outgrows its capacity; the messages written are those given to write, are consumed in that order, and are each transmitted once or still in flight; and every stream's receive is armed or waits to be. |
| SystemRuns.ProgramSizes | src/lib.rs:18-26 | The program's own sizes are among those the results cover. |
| SystemProgress.Settles | src/ping_pong.rs:106-190 | From every state that keeps the invariant, the kernel finishing what it has and the streams reading what they have leads to rest without new input. |
| SystemProgress.RestMeans | src/buf_ring.rs:209-232 | At rest every buffer is in its ring, every stream has delivered all its socket received, nothing is pending, and every message was transmitted exactly once. |
| SystemProgress.RunLeaksNothing | src/net.rs:66-72 | In every run each live payload allocation is some pending send's. |
| SystemProgress.EveryRunSettles | src/ping_pong.rs:68-190 | Every run from setup can be continued, without new input, to a state where each stream has delivered in order exactly the bytes the run brought in, each message the run wrote was transmitted exactly once, every buffer is back and no payload is allocated. |
| SystemFailures.OverwriteReached | src/net.rs:122-126 | From setup of any one stream, steps that are all allowed reach a state where a pending send is exactly 2^32 writes old and one more write makes the kernel read its freed payload. |
| Programs.Program.HandleOne | src/ping_pong.rs:162-170 | On the shared objects, decoding, routing and handling a completion does what the system model says, each abort included. |
| Programs.Program.Read | src/net.rs:131-143 | On the shared objects, a read changes its own stream and its own group's ring alone, and the bytes put in the slice are those delivered. |
| Programs.Program.Write | src/net.rs:167-195 | On the shared objects, a write changes its own stream and the submission ring alone, and nothing when it aborts. |
| Programs.Program.AddStream | src/io_uring_probe_v2.rs:68-87 | One iteration of the setup loop on the objects keeps every earlier stream and group. |
| Programs.Program.SetUp | src/io_uring_probe_v2.rs:68-87 | The setup loop on the objects ends in the state of Setup, with nothing shared but the submission ring and the buffer memory. |
| Programs.Program.Follow | src/ping_pong.rs:106-190 | Every run of the system from a state the objects hold is carried out by the objects without aborting. |
| Programs.RunProgram | src/ping_pong.rs:68-190 | Setup and any run, from fresh objects: the objects end in the state the system model ends in. |
| EventLoops.CompletionQueue.Post | src/ping_pong.rs:130-130 | The kernel's post appends to the unreleased completions. |
| EventLoops.CompletionQueue.PeekBatch | src/ping_pong.rs:130-130 | The batch points at the oldest ready completions, in order. |
| EventLoops.CompletionQueue.Advance | src/ping_pong.rs:202-205 | Advancing releases exactly the oldest slots, across wrap-around. |
| EventLoops.PointerIsFront | src/ping_pong.rs:161-163 | After i releases the pointer taken for item i still points at the oldest unreleased completion. |
| EventLoops.EventLoop.SubmitPrepared | src/ping_pong.rs:118-123 | The submission moves the kernel's tail to the last entry prepared and changes nothing else. |
| EventLoops.EventLoop.HandleOne | src/ping_pong.rs:162-188 | One item is read through its pointer, handled without aborting, and its slot released; it is a run of the system that handles one completion, first. |
| EventLoops.EventLoop.HandleBatch | src/ping_pong.rs:161-189 | Each completion of a batch is handled once, in ring order, whatever is posted meanwhile, and while item i is handled exactly i slots have been released; it is a run of the system that handles as many completions. |
| EventLoops.EventLoop.Turn | src/ping_pong.rs:106-190 | Every entry waiting is submitted first; then exactly a full batch is handled, or all that are ready if fewer, or after a wait the first to arrive; what waited plus what was posted is what was handled plus what is left, in order. |
| EventLoops.EventLoop.Turns | src/ping_pong.rs:106-190 | Any number of turns is a run of the system that handles each completion once, in the order posted. |

## Left out

- Kernel and `liburing` internals (submit, peek, wait, ring registration, setup flags): replaced by the steps and assumptions above.
- TCP connect, TLS, the WebSocket handshake, frame decoding and the ping payload: the handler is any sequence of stream reads and writes, interleaved in any way.
- Blocking mode of a stream (before it is made non-blocking), `todo!()` methods, timers, logging.
- Error completions, end of stream and short sends: the code aborts on them; the aborts are modelled, the environment does not produce them.
- Re-arming a terminated multishot receive and the order in which the kernel completes sends: the code does neither; only the order of submission is claimed.
- Weak memory: add and advance are separate steps, but steps are sequentially consistent.
- `src/examples/io_uring_probe.rs`, `src/common.rs`, build scripts and the unused operations of `src/op.rs`: not part of the protocol.
- EventLoops.EventLoop: its streams are the value of the system model; `Program.dfy` carries out the runs of that model on objects, and the batch loop is not written a second time over them.
- RingMemory.BufRing.GetReadBuf: an id past the ring is an abort, because what the source then reads is outside the ring's memory.
- ReaderObjects.BufRingPool.GetReadBuf: a null ring pointer is an abort, because dereferencing it has no meaning to model.
- StreamObjects.TcpStream.Write: the copy of the bytes is a value with the address the allocator chose, not an allocated object; its lifetime is modelled by the heap of `Systems.dfy`.
- ReaderObjects.BufRingPool.NewBufferGroup: the ring passed in is not registered under another id, because the kernel hands out a new ring at each registration.
