// A whole library transfer, from the user's buffer to the descriptors that hardware
// has worked off.
module EndToEnd {
  import opened Scatter
  import opened Plan
  import opened QueueSpec
  import opened QueueRuns
  import opened Transfer
  import opened Aftermath

  /** The byte copies of the descriptors of a completed request, as hardware made them. */
  ghost function CopiesDone(s: State, i: nat): seq<(nat, nat)>
    requires s.epoch <= i < |s.accepted| && LogStart(s, i) <= LogStart(s, i + 1) <= |s.log|
  {
    Copies(s.log[LogStart(s, i)..LogStart(s, i + 1)])
  }

  /** The request was told its first outcome in the queue's current epoch, which began
      without charged requests. Writes go to H2C and reads to C2H queues; neither has a
      keyhole. */
  ghost predicate Answered(s: State, write: bool, i: nat, r: Request) {
    && Reachable(s) && s.conf.keyhole == 0 && s.conf.c2h == !write && !s.dirty
    && s.epoch <= i < |s.outcomes| && i < |s.accepted| && s.accepted[i] == r
  }

  /** Where buffer byte `j` of a transfer lies during call `c`. */
  function BusOf(bus: (nat, nat) -> nat, c: nat, buf: nat, j: nat): nat {
    bus(c, (buf + j) / PAGE) + (buf + j) % PAGE
  }

  /** A copy from the buffer to the device for a write, the other way for a read. */
  function Copy(write: bool, bus: nat, dev: nat): (nat, nat) {
    if write then (bus, dev) else (dev, bus)
  }

  /** One character-device call whose request is done has copied each byte of its part of
      the buffer, once and in order, to or from its own device position. */
  lemma CallMoves(s: State, write: bool, i: nat, buf: nat, len: nat, pos: nat, pages: seq<nat>, sg: seq<SwSg>,
                  bus: (nat, nat) -> nat, c: nat)
    requires PageSplit(buf, len, pages, sg) && MappedBy(buf, sg, bus, c)
    requires Answered(s, write, i, RequestFor(sg, len, pos)) && DoneAt(s, i)
    ensures LogStart(s, i) <= LogStart(s, i + 1) <= |s.log| && |CopiesDone(s, i)| == len
    ensures forall k :: 0 <= k < len ==> CopiesDone(s, i)[k] == Copy(write, BusOf(bus, c, buf, k), pos + k)
  {
    hide LogStart, Copies, Reachable, PageSplit, MappedBy, Mapped, DoneAt, WellFormed, HostAddr;
    AcceptedFits(s, i);
    DoneAtMoves(s, i);
    var r := RequestFor(sg, len, pos);
    forall k | 0 <= k < len
      ensures CopiesDone(s, i)[k] == Copy(write, BusOf(bus, c, buf, k), pos + k)
    {
      ByteOfRequest(buf, len, pos, pages, sg, bus, c, k);
      assert CopiesDone(s, i)[k] == Asked(s.conf, r, k);
    }
  }

  lemma AcceptedFits(s: State, i: nat)
    requires Reachable(s) && i < |s.accepted|
    ensures WellFormed(s.accepted[i], s.conf.keyhole)
  {
    ReachableInv(s);
    hide ListInv, OutcomeInv, RingInv, EpochInv, WellFormed, Addressed;
  }

  /** One call of a transfer: the queue it ran on as the call returned, its place in
      that queue's history, the page split it used, and the outcome its submitter read
      when it woke. */
  datatype Call = Call(queue: State, write: bool, index: nat, pages: seq<nat>, sg: seq<SwSg>, read: Outcome)

  ghost predicate CallOf(call: Call, c: Chunk, buf: nat, bus: (nat, nat) -> nat, n: nat) {
    && PageSplit(buf + c.start, c.bytes, call.pages, call.sg)
    && MappedBy(buf + c.start, call.sg, bus, n)
    && Answered(call.queue, call.write, call.index, RequestFor(call.sg, c.bytes, c.pos))
    && WasTold(call.queue, call.index, call.read)
  }

  /** The submitter read the first outcome its request was told. */
  ghost predicate ReadFirst(call: Call) {
    call.index < |call.queue.outcomes| && call.read == call.queue.outcomes[call.index]
  }

  /** The stop that refused the request found no callback request pending ahead of it. */
  ghost predicate NoneAhead(call: Call) {
    exists s, timedOut, es :: RefusedBy(call, s, timedOut, es)
  }

  ghost predicate RefusedBy(call: Call, s: State, timedOut: bool, es: seq<Event>) {
    && Reachable(s) && !s.dirty && Enabled(s, StopEnd(timedOut)) && |s.outcomes| <= call.index < |s.accepted|
    && Place(s, call.index) <= |s.pend| && !CallbackAhead(s, Place(s, call.index))
    && ConfOk(StopEndStep(s).conf) && StopEndStep(s).conf == s.conf
    && Possible(StopEndStep(s), es) && NoStart(es) && call.queue == Run(StopEndStep(s), es)
  }

  predicate InChunk(c: Chunk, j: nat) {
    c.start <= j < c.start + c.bytes
  }

  /** Byte `k` of the call was copied between these two addresses, in the direction of
      the call. */
  ghost predicate Delivered(call: Call, k: int, bus: nat, dev: nat) {
    var s, i := call.queue, call.index;
    && s.epoch <= i < |s.accepted| && LogStart(s, i) <= LogStart(s, i + 1) <= |s.log|
    && 0 <= k < |CopiesDone(s, i)| && CopiesDone(s, i)[k] == Copy(call.write, bus, dev)
  }

  /** What each read or write call returned is what its submitter was woken with. */
  ghost predicate Observed(calls: seq<Call>, moved: nat -> int) {
    forall n :: 0 <= n < |calls| ==> moved(n) == BlockedReturn(calls[n].read)
  }

  /** A library call that returns its size had every chunk succeed. */
  lemma ReturnedSize(size: nat, base: nat, moved: nat -> int, rc: int)
    requires rc == (if Succeeds(size, base, moved) then Signed64(size) else -Transfer.EIO) && rc == size
    ensures Succeeds(size, base, moved)
  {
  }

  /** A chunk whose call returned what it asked for was told so, and not refused. */
  lemma ChunkTold(call: Call, c: Chunk, buf: nat, bus: (nat, nat) -> nat, n: nat)
    requires CallOf(call, c, buf, bus, n) && BlockedReturn(call.read) == c.bytes
    ensures call.index < |call.queue.outcomes| && call.read == Outcome(c.bytes, 0)
    ensures ReadFirst(call) || call.queue.outcomes[call.index] == Refused()
    ensures ReadFirst(call) ==> call.queue.outcomes[call.index] != Refused()
  {
    hide Reachable, PageSplit, MappedBy, Mapped;
    var s, i := call.queue, call.index;
    BlockedReturnsCount(s, i, call.read);
    ExactlyOneOutcome(s, i);
    ToldWhat(s, i, call.read);
  }

  /** A second success of a request with no callback ahead at the stop is a true one. */
  lemma SecondDone(call: Call)
    requires NoneAhead(call) && call.index < |call.queue.outcomes| && WasTold(call.queue, call.index, call.read)
    requires !ReadFirst(call)
    ensures call.queue.epoch <= call.index < |call.queue.accepted| && DoneAt(call.queue, call.index)
  {
    hide Run, Possible, Reachable, StopEndStep, DoneAt, TimesTold, CallbackAhead;
    var s, timedOut, es :| RefusedBy(call, s, timedOut, es);
    AgainCounts(call.queue, call.index);
    SecondSuccessDone(s, timedOut, es, call.index);
  }

  lemma FirstDone(s: State, write: bool, i: nat, r: Request)
    requires Answered(s, write, i, r) && s.outcomes[i] != Refused()
    ensures DoneAt(s, i)
  {
    hide Reachable, DoneAt;
    ExactlyOneOutcome(s, i);
    DoneFacts(s, i);
  }

  /** The library call of any size that returns its size has copied buffer byte `j`
      between its own place in memory and device address `(devOffset & mask) + j`, to
      the device for a write and from it for a read, in exactly one of its calls,
      whatever queues the calls ran on and however their rings split the work. This also
      holds of a submitter that read a second outcome, unless the stop that refused its
      request found a callback request ahead of it. */
  lemma WholeTransfer(write: bool, buf: nat, size: nat, devOffset: nat, bus: (nat, nat) -> nat, calls: seq<Call>,
                      moved: nat -> int, rc: int, j: nat)
    requires |calls| == ChunkCount(size) && j < size && forall n :: 0 <= n < |calls| ==> calls[n].write == write
    requires forall n :: 0 <= n < |calls| ==> CallOf(calls[n], ChunkAt(size, Base(devOffset), n), buf, bus, n)
    requires Observed(calls, moved)
    requires rc == if Succeeds(size, Base(devOffset), moved) then Signed64(size) else -Transfer.EIO
    requires rc == size
    ensures j / RW_MAX_SIZE < |calls|
    ensures forall m :: 0 <= m < |calls| ==> (InChunk(ChunkAt(size, Base(devOffset), m), j) <==> m == j / RW_MAX_SIZE)
    ensures var n := j / RW_MAX_SIZE;
            if ReadFirst(calls[n]) || NoneAhead(calls[n])
            then calls[n].write == write
                 && Delivered(calls[n], j - n * RW_MAX_SIZE, BusOf(bus, n, buf, j), Base(devOffset) + j)
            else calls[n].index < |calls[n].queue.outcomes| && calls[n].queue.outcomes[calls[n].index] == Refused()
  {
    hide LogStart, Copies, Reachable, PageSplit, MappedBy, Mapped, Answered, Base, CopiesDone, ReadFirst, Delivered,
         NoneAhead;
    var n, base := j / RW_MAX_SIZE, Base(devOffset);
    forall m | 0 <= m < |calls|
      ensures InChunk(ChunkAt(size, base, m), j) <==> m == n
    {
      ChunksTile(size, base, j, m);
    }
    ChunksTile(size, base, j, 0);
    ChunksTile(size, base, j, n);
    ReturnedSize(size, base, moved, rc);
    var c := ChunkAt(size, base, n);
    assert CallOf(calls[n], c, buf, bus, n);
    ChunkTold(calls[n], c, buf, bus, n);
    if ReadFirst(calls[n]) || NoneAhead(calls[n]) {
      ChunkDelivered(calls[n], c, buf, bus, n, j);
    }
  }

  lemma ChunkDelivered(call: Call, c: Chunk, buf: nat, bus: (nat, nat) -> nat, n: nat, j: nat)
    requires CallOf(call, c, buf, bus, n) && InChunk(c, j) && (ReadFirst(call) || NoneAhead(call))
    requires BlockedReturn(call.read) == c.bytes
    ensures Delivered(call, j - c.start, BusOf(bus, n, buf, j), c.pos + (j - c.start))
  {
    hide LogStart, Copies, Reachable, PageSplit, MappedBy, Mapped, CopiesDone, DoneAt, NoneAhead;
    ChunkTold(call, c, buf, bus, n);
    if ReadFirst(call) {
      FirstDone(call.queue, call.write, call.index, RequestFor(call.sg, c.bytes, c.pos));
    } else {
      SecondDone(call);
    }
    CallMoves(call.queue, call.write, call.index, buf + c.start, c.bytes, c.pos, call.pages, call.sg, bus, n);
    assert buf + c.start + (j - c.start) == buf + j;
  }
}
