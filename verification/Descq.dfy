// The descriptor queue as the driver keeps it: a ring of descriptors, wrapped
// indices and two request lists, updated in place under the queue lock.
module Descq {
  import opened Scatter
  import opened Plan
  import opened Ring
  import opened QueueSpec
  import opened QueueInv
  import opened Cursor
  import opened QueueRuns
  import opened Aftermath
  import opened Processing
  import Bits

  const ERANGE: int := 34

  /** Counters and records that the driver does not keep. */
  datatype History = History(
    produced: nat, consumed: nat, published: nat, hardware: nat, log: seq<Desc>, epoch: nat, dirty: bool,
    carried: seq<Request>, accepted: seq<Request>, outcomes: seq<Outcome>, stale: seq<nat>, again: seq<Again>,
    uncounted: nat, mapFailed: seq<bool>)

  function Noted(h: History): Book {
    Book(h.outcomes, h.stale, h.again)
  }

  function WithBook(h: History, b: Book): History {
    h.(outcomes := b.outcomes, stale := b.stale, again := b.again)
  }

  class Descq {
    const conf: Conf
    var online: bool
    var stopWait: bool
    var pidx: nat
    var cidx: nat
    var avail: nat
    var credit: nat
    var pidxInfo: nat
    var doorbell: nat
    var writeback: nat
    var desc: array<Desc>
    var work: seq<Cb>
    var pend: seq<Cb>
    var drained: bool
    var workReqPend: nat
    var procRunning: bool

    ghost var h: History

    /** The queue as a value of the specification. */
    ghost function Model(): (s: State)
      reads this, desc
      ensures s.produced == h.produced && s.published == h.published && s.work == work && s.avail == avail
    {
      State(conf, online, stopWait, pidx, cidx, avail, credit, pidxInfo, doorbell, writeback,
            desc[..], work, pend, drained, workReqPend, h.produced, h.consumed, h.published, h.hardware,
            h.log, h.epoch, h.dirty, h.carried, h.accepted, h.outcomes, h.stale, h.again, h.uncounted, h.mapFailed)
    }

    /** The queue is in a state that some run of the specification reaches. */
    ghost predicate Valid()
      reads this, desc
    {
      Reachable(Model()) && (online ==> Bits.ApertureOk(conf.keyhole)) && (stopWait ==> online)
    }

    /** The queue lock is free: all produced descriptors are published. */
    ghost predicate Released()
      reads this, desc
    {
      Valid() && Quiet(Model()) && !procRunning
    }

    constructor (c: Conf)
      requires ConfOk(c)
      ensures Released() && conf == c && Model() == Init(c)
    {
      conf := c;
      online, stopWait, drained, procRunning := false, false, false, false;
      pidx, cidx, avail, credit, pidxInfo, doorbell, writeback := 0, 0, 0, 0, 0, 0, 0;
      desc := new Desc[0];
      work, pend, workReqPend := [], [], 0;
      h := History(0, 0, 0, 0, [], 0, false, [], [], [], [], [], 0, []);
      new;
      InitReachable(c);
    }

    /** One accepted request at the tail of the work list, or -EINVAL. */
    method Submit(r: Request) returns (rv: int)
      requires Released() && WellFormed(r, conf.keyhole) && Addressed(r)
      modifies this`work, this`workReqPend, this`h
      ensures Released()
      ensures Model() == SubmitStep(old(Model()), r)
      ensures rv == (if online then 0 else -EINVAL)
    {
      hide Reachable, WellFormed, Addressed;
      ghost var s := Model();
      SubmitReaches(s, r);
      if !online {
        return -EINVAL;
      }
      work := work + [Cb(r, 0, 0)];
      workReqPend := (workReqPend + 1) % U32;
      h := h.(accepted := h.accepted + [r], mapFailed := h.mapFailed + [false]);
      assert [Cb(r, 0, 0)] == Fresh([r]);
      return 0;
    }

    /** Retire the head of the pending list. */
    method RequestDone()
      requires |pend| > 0
      modifies this`pend, this`drained, this`h
      ensures pend == old(pend)[1..]
      ensures h == WithBook(old(h), Tell(Noted(old(h)), [DoneOutcome(old(pend)[0])]))
      ensures drained == (conf.pktHandler || avail + 1 == conf.rngsz)
    {
      hide Tell;
      var cb := pend[0];
      pend := pend[1..];
      var error := 0;
      if cb.req.callback && cb.offset != cb.req.count {
        error := -EINVAL;
      }
      h := WithBook(h, Tell(Noted(h), [Outcome(cb.offset, error)]));
      if !conf.pktHandler {
        drained := avail + 1 == conf.rngsz;
      } else {
        drained := true;
      }
    }

    /** Pay `credits` to the pending requests, oldest first; what is left over is
        returned. */
    method PayPending(credits: nat) returns (cr: nat)
      requires credits > 0
      modifies this`pend, this`drained, this`h
      ensures var (n, rest, c) := Retire(old(pend), credits);
              && cr == c && pend == rest
              && h == WithBook(old(h), Tell(Noted(old(h)), DoneOutcomes(old(pend)[..n])))
              && drained == (if n == 0 then old(drained) else conf.pktHandler || avail + 1 == conf.rngsz)
    {
      hide Retire, Tell;
      cr := credits;
      ghost var k := 0;
      ghost var before := pend;
      assert DoneOutcomes(before[..0]) == [];
      TellNobody(Noted(h));
      while |pend| > 0
        invariant 0 <= k <= |before| && pend == before[k..] && cr > 0
        invariant h == WithBook(old(h), Tell(Noted(old(h)), DoneOutcomes(before[..k])))
        invariant drained == (if k == 0 then old(drained) else conf.pktHandler || avail + 1 == conf.rngsz)
        invariant var (n, rest, c) := Retire(pend, cr);
                  Retire(before, credits) == (k + n, rest, c)
        decreases |pend|
      {
        var cb := pend[0];
        RetireHead(pend, cr);
        if cr >= cb.descNr {
          cr := cr - cb.descNr;
          assert DoneOutcomes(before[..k + 1]) == DoneOutcomes(before[..k]) + [DoneOutcome(cb)];
          TellTwice(Noted(old(h)), DoneOutcomes(before[..k]), [DoneOutcome(cb)]);
          RequestDone();
          k := k + 1;
        } else {
          pend := [cb.(descNr := cb.descNr - cr)] + pend[1..];
          cr := 0;
        }
        if cr == 0 {
          break;
        }
      }
      RetireNothing(cr);
    }

    /** Read the writeback index; the number of descriptors newly returned. */
    method ReadWriteback() returns (cr: nat)
      requires conf.rngsz > 0
      requires pidx != cidx && writeback != cidx ==> WrappedDiff(writeback, cidx, conf.rngsz) > 0
      modifies this`cidx, this`avail, this`credit, this`h
      ensures cr == (if pidx == old(cidx) || writeback == old(cidx) then 0
                     else WrappedDiff(writeback, old(cidx), conf.rngsz))
      ensures cidx == (if cr == 0 then old(cidx) else writeback)
      ensures avail == old(avail) + cr && credit == old(credit) + cr
      ensures h == old(h).(consumed := old(h).consumed + cr)
    {
      if pidx == cidx {
        return 0;
      }
      var was, now := cidx, writeback;
      if now == was {
        return 0;
      }
      cr := if now < was then conf.rngsz - was + now else now - was;
      cidx := now;
      avail := avail + cr;
      credit := credit + cr;
      h := h.(consumed := h.consumed + cr);
    }

    /** The completion pass: read the writeback index, return the slots it frees,
        pay the pending requests and republish the index last published. An interrupt
        may bring it to a queue that has been stopped. */
    method CompletionStatus()
      requires Valid() && (online || !conf.polling)
      modifies this`cidx, this`avail, this`credit, this`h, this`pend, this`drained, this`doorbell
      ensures Valid()
      ensures Model() == CompleteStep(old(Model()))
      ensures h.produced == old(h).produced && h.published == old(h).published
    {
      hide Reachable, CompleteStep, WrappedDiff, Retire, Tell, DoneOutcomes;
      ghost var s := Model();
      CompleteGuards(s);
      var cr := TakeCompletions();
      if cr > 0 {
        CompleteIs(s, Model());
      }
    }

    /** Take the descriptors newly returned and pay for them. */
    method TakeCompletions() returns (cr: nat)
      requires conf.rngsz > 0
      requires pidx != cidx && writeback != cidx ==> WrappedDiff(writeback, cidx, conf.rngsz) > 0
      modifies this`cidx, this`avail, this`credit, this`h, this`pend, this`drained, this`doorbell
      ensures cr == (if pidx == old(cidx) || writeback == old(cidx) then 0
                     else WrappedDiff(writeback, old(cidx), conf.rngsz))
      ensures avail == old(avail) + cr
      ensures cr == 0 ==> cidx == old(cidx) && credit == old(credit) && h == old(h) && pend == old(pend)
                          && drained == old(drained) && doorbell == old(doorbell)
      ensures cr > 0 ==>
                var (n, rest, c) := Retire(old(pend), old(credit) + cr);
                && cidx == writeback && credit == c && pend == rest && doorbell == pidxInfo
                && h == WithBook(old(h).(consumed := old(h).consumed + cr),
                                 Tell(Noted(old(h)), DoneOutcomes(old(pend)[..n])))
                && drained == (if n == 0 then old(drained) else conf.pktHandler || avail + 1 == conf.rngsz)
    {
      hide Retire, DoneOutcomes, WrappedDiff, Tell;
      cr := ReadWriteback();
      if cr == 0 {
        return;
      }
      credit := PayPending(credit);
      doorbell := pidxInfo;
    }

    /** Write one descriptor at index `p` and step the index. */
    method WriteOne(cb: Cb, i: nat, tlen: nat, src: nat, ep0: nat, p0: nat, cnt: nat, ghost ring0: seq<Desc>)
      returns (len: nat, ep: nat, p: nat)
      requires AtStep(cb, conf.keyhole, cnt, i, tlen, src, ep0)
      requires cnt < desc.Length == |ring0| == conf.rngsz && p0 == Slot(pidx + cnt, conf.rngsz)
      requires FilledBut(conf, desc[..], ring0, pidx, Needed(cb, conf.keyhole)[..cnt], p0)
      modifies desc
      ensures len == LoopLen(cb.req, conf.keyhole, ep0, tlen) <= tlen
      ensures ep == Wrapped(cb.req, conf.keyhole, ep0) + len
      ensures p == Slot(pidx + (cnt + 1), conf.rngsz)
      ensures desc[..] == WriteRing(ring0, pidx, RawDescs(conf, Needed(cb, conf.keyhole)[..cnt + 1]))
    {
      hide WriteRing, Needed, AtStep, RawDescs, WellFormed, FilledBut, Reached, SumLen;
      StepBounds(cb, conf.keyhole, cnt, i, tlen, src, ep0);
      NextXfer(cb, conf.keyhole, cnt, i, tlen, src, ep0);
      var req, k := cb.req, conf.keyhole;
      var aperture := if k != 0 then k else BLEN_MAX;
      var epMax := req.epAddr + aperture - 1;
      ep, len := ep0, Min(tlen, aperture);
      if k != 0 {
        if ep > epMax {
          ep := req.epAddr;
        }
        if ep + len > epMax {
          len := epMax - ep + 1;
        }
      }
      ghost var ring := desc[..];
      desc[p0] := if conf.c2h then Desc(ep, src, len, true, false, false) else Desc(src, ep, len, true, false, false);
      assert desc[..] == ring[p0 := desc[p0]];
      OneMore(conf, ring, ring0, pidx, Needed(cb, k), cnt, p0);
      ep := ep + len;
      SlotStep(pidx + cnt, 1, conf.rngsz);
      p := if p0 + 1 == conf.rngsz then 0 else p0 + 1;
    }

    /** The inner issue loop: cut what is left of one scatter entry into
        descriptors until the entry or the free space is used up. */
    method FillEntry(cb: Cb, i: nat, tlen0: nat, src0: nat, ep0: nat, p0: nat, cnt0: nat, max: nat,
                     ghost ring0: seq<Desc>)
      returns (tlen: nat, ep: nat, p: nat, cnt: nat, moved: nat, last: nat)
      requires AtStep(cb, conf.keyhole, cnt0, i, tlen0, src0, ep0)
      requires cnt0 < max < desc.Length == |ring0| == conf.rngsz
      requires p0 == Slot(pidx + cnt0, conf.rngsz)
      requires FilledBut(conf, desc[..], ring0, pidx, Needed(cb, conf.keyhole)[..cnt0], p0)
      modifies desc
      ensures cnt0 < cnt <= max && cnt <= |Needed(cb, conf.keyhole)|
      ensures p == Slot(pidx + cnt, conf.rngsz) && last == Slot(pidx + (cnt - 1), conf.rngsz)
      ensures moved == Reached(cb, conf.keyhole, cnt) - Reached(cb, conf.keyhole, cnt0)
      ensures desc[..] == WriteRing(ring0, pidx, RawDescs(conf, Needed(cb, conf.keyhole)[..cnt]))
      ensures if tlen == 0 then AtEntry(cb, conf.keyhole, cnt, i + 1, 0, ep) else cnt == max
    {
      hide WriteRing, Needed, AtStep, AtEntry, Reached, RawDescs, WellFormed, FilledBut, SumLen, LoopLen, Wrapped;
      ghost var k := conf.keyhole;
      var src: nat, len: nat := src0, 0;
      tlen, ep, p, cnt, moved, last := tlen0, ep0, p0, cnt0, 0, p0;
      StepBounds(cb, k, cnt, i, tlen, src, ep);
      while true
        invariant cnt0 <= cnt < max && cnt < |Needed(cb, k)|
        invariant AtStep(cb, k, cnt, i, tlen, src, ep)
        invariant p == Slot(pidx + cnt, conf.rngsz)
        invariant moved == Reached(cb, k, cnt) - Reached(cb, k, cnt0)
        invariant FilledBut(conf, desc[..], ring0, pidx, Needed(cb, k)[..cnt], p)
        decreases max - cnt
      {
        NextXfer(cb, k, cnt, i, tlen, src, ep);
        ghost var ep1 := ep;
        last := p;
        len, ep, p := WriteOne(cb, i, tlen, src, ep, p, cnt, ring0);
        if len == tlen {
          StepToNext(cb, k, cnt, i, tlen, src, ep1);
        } else {
          StepInside(cb, k, cnt, i, tlen, src, ep1);
          StepBounds(cb, k, cnt + 1, i, tlen - len, src + len, ep);
        }
        moved, src, tlen, cnt := moved + len, src + len, tlen - len, cnt + 1;
        if cnt == max {
          break;
        }
        if tlen == 0 {
          break;
        }
        FilledIsFilledBut(conf, desc[..], ring0, pidx, Needed(cb, k)[..cnt], p);
      }
    }

    /** Where in the scatter list and at which device address issue resumes. */
    method Locate(cb: Cb) returns (i: nat, skip: nat, ep: nat)
      requires WellFormed(cb.req, conf.keyhole) && HeadInv(cb, conf.keyhole) && Bits.ApertureOk(conf.keyhole)
      ensures AtEntry(cb, conf.keyhole, 0, i, skip, ep)
    {
      var req, k := cb.req, conf.keyhole;
      FoundOffset(cb, k);
      var at := FindOffset(req.sgl, req.count, cb.offset);
      if at.None? {
        assert false;
      }
      i, skip := at.value.0, at.value.1;
      ep := req.epAddr + if k == 0 then cb.offset else Bits.And(cb.offset, k - 1);
      if k != 0 {
        Bits.MaskIsMod(cb.offset, k);
      }
      StartsAt(cb, k, i, skip, ep);
    }

    /** Mark the first and the last descriptor of a pass. */
    method MarkPass(start: nat, last: nat, ghost ring0: seq<Desc>, ghost xs: seq<Xfer>)
      requires 0 < |xs| <= |ring0| == desc.Length
      requires start == Slot(pidx, desc.Length) && last == Slot(pidx + (|xs| - 1), desc.Length)
      requires desc[..] == WriteRing(ring0, pidx, RawDescs(conf, xs))
      modifies desc
      ensures desc[..] == WriteRing(ring0, pidx, PassDescs(conf, xs))
    {
      hide WriteRing, RawDescs, PassDescs;
      Delimit(conf, ring0, pidx, xs);
      ghost var raw := desc[..];
      desc[last] := desc[last].(eop := true);
      assert desc[..] == raw[last := raw[last].(eop := true)];
      ghost var ended := desc[..];
      desc[start] := desc[start].(sop := true);
      assert desc[..] == ended[start := ended[start].(sop := true)];
    }

    /** Clear the slot about to be filled. */
    method ClearSlot(p: nat, ghost ring0: seq<Desc>, ghost xs: seq<Xfer>)
      requires p < desc.Length == |ring0|
      requires desc[..] == WriteRing(ring0, pidx, RawDescs(conf, xs))
      modifies desc
      ensures FilledBut(conf, desc[..], ring0, pidx, xs, p)
    {
      hide WriteRing, RawDescs, FilledBut;
      ghost var ring := desc[..];
      desc[p] := desc[p].(len := 0, dv := false, sop := false, eop := false);
      assert desc[..] == ring[p := desc[p]];
      ClearedIsFilledBut(conf, ring, ring0, pidx, xs, p, desc[p]);
    }

    /** The outer issue loop: walk the scatter list from the byte offset reached,
        filling slots from the producer index on. */
    method FillSlots(cb: Cb, max: nat) returns (p: nat, cnt: nat, moved: nat)
      requires WellFormed(cb.req, conf.keyhole) && HeadInv(cb, conf.keyhole) && Bits.ApertureOk(conf.keyhole)
      requires 0 < max < desc.Length == conf.rngsz && pidx < conf.rngsz
      modifies desc
      ensures cnt == Min(max, |Needed(cb, conf.keyhole)|) > 0
      ensures p == Slot(pidx + cnt, conf.rngsz)
      ensures moved == SumLen(Needed(cb, conf.keyhole)[..cnt])
      ensures desc[..] == WriteRing(old(desc[..]), pidx, PassDescs(conf, Needed(cb, conf.keyhole)[..cnt]))
    {
      hide WriteRing, Needed, AtStep, AtEntry, RawDescs, PassDescs, FilledBut, SumLen, HeadInv, PlanOf, DevOk;
      var req, k := cb.req, conf.keyhole;
      NeededSome(cb, k);
      var i: nat, skip: nat, ep: nat := Locate(cb);
      ghost var ring0 := desc[..];
      NothingFilled(conf, ring0, pidx, Needed(cb, k));
      Bits.ModUnique(pidx, conf.rngsz, 0, pidx);
      var start, last := pidx, pidx;
      p, cnt, moved := pidx, 0, 0;
      while i < |req.sgl| && cnt < max
        invariant cnt <= max && cnt <= |Needed(cb, k)|
        invariant cnt < max ==> AtEntry(cb, k, cnt, i, skip, ep)
        invariant p == Slot(pidx + cnt, conf.rngsz)
        invariant cnt > 0 ==> last == Slot(pidx + (cnt - 1), conf.rngsz)
        invariant moved == SumLen(Needed(cb, k)[..cnt])
        invariant desc[..] == WriteRing(ring0, pidx, RawDescs(conf, Needed(cb, k)[..cnt]))
        decreases |req.sgl| - i
      {
        EntryBounds(cb, k, cnt, i, skip, ep);
        var tlen: nat, src: nat, more: nat := req.sgl[i].len, req.sgl[i].dma, 0;
        ClearSlot(p, ring0, Needed(cb, k)[..cnt]);
        if skip != 0 {
          tlen := tlen - skip;
          src := src + skip;
          skip := 0;
        }
        tlen, ep, p, cnt, more, last := FillEntry(cb, i, tlen, src, ep, p, cnt, max, ring0);
        moved := moved + more;
        i := i + 1;
      }
      if cnt < max {
        EntryBounds(cb, k, cnt, i, skip, ep);
      }
      MarkPass(start, last, ring0, Needed(cb, k)[..cnt]);
    }

    /** Charge the head of the work list for what was issued; once it is fully
        issued, move it to the pending list. */
    method UpdateRequest(numDesc: nat, dataCnt: nat)
      requires |work| > 0
      modifies this`work, this`pend, this`workReqPend
      ensures var cb := old(work)[0].(offset := old(work)[0].offset + dataCnt, descNr := old(work)[0].descNr + numDesc);
              if cb.offset >= cb.req.count then
                work == old(work)[1..] && pend == old(pend) + [cb] && workReqPend == Sum32(old(workReqPend), -1)
              else work == [cb] + old(work)[1..] && pend == old(pend) && workReqPend == old(workReqPend)
    {
      var cb := work[0];
      cb := cb.(descNr := cb.descNr + numDesc, offset := cb.offset + dataCnt);
      work := [cb] + work[1..];
      if cb.offset >= cb.req.count {
        work := work[1..];
        workReqPend := if workReqPend == 0 then U32 - 1 else (workReqPend - 1) % U32;
        pend := pend + [cb];
      }
    }

    /** Fill the ring for the head of the work list and step the indices. */
    method Fill() returns (cnt: nat, moved: nat)
      requires |work| > 0 && WellFormed(work[0].req, conf.keyhole) && HeadInv(work[0], conf.keyhole)
      requires Bits.ApertureOk(conf.keyhole) && pidx < conf.rngsz && 0 < avail < desc.Length == conf.rngsz
      modifies this`pidx, this`avail, this`h, desc
      ensures cnt == Min(old(avail), |Needed(work[0], conf.keyhole)|) > 0
      ensures pidx == Slot(old(pidx) + cnt, conf.rngsz) && avail == old(avail) - cnt
      ensures var xs := Needed(work[0], conf.keyhole)[..cnt];
              && moved == SumLen(xs)
              && desc[..] == WriteRing(old(desc[..]), old(pidx), PassDescs(conf, xs))
              && h == old(h).(produced := old(h).produced + cnt, log := old(h).log + PassDescs(conf, xs))
    {
      hide WriteRing, PassDescs, Needed, SumLen, HeadInv;
      pidx, cnt, moved := FillSlots(work[0], avail);
      avail := avail - cnt;
      h := h.(produced := h.produced + cnt, log := h.log + PassDescs(conf, Needed(work[0], conf.keyhole)[..cnt]));
    }

    /** One round of the processing loop: issue for the head of the work list. */
    method Issue() returns (cnt: nat)
      requires Valid() && IssueEnabled(Model())
      modifies this`pidx, this`avail, this`work, this`pend, this`workReqPend, this`h, desc
      ensures Valid()
      ensures Model() == IssueStep(old(Model())) && cnt > 0
      ensures h.produced == old(h).produced + cnt && h.published == old(h).published
    {
      hide Reachable, WriteRing, PassDescs, Needed, SumLen, WellFormed, HeadInv, IssueStep, IssueCb, IssueXfers,
           IssueCount, Sum32;
      ghost var s := Model();
      IssueReady(s);
      var moved;
      cnt, moved := Fill();
      IssueDefs(s);
      UpdateRequest(cnt, moved);
      IssueIs(s, Model());
    }

    /** Tell the hardware about everything produced. */
    method Publish()
      requires Valid() && online && h.published < h.produced
      modifies this`drained, this`pidxInfo, this`doorbell, this`h
      ensures Valid()
      ensures Model() == PublishStep(old(Model()))
      ensures h.published == h.produced == old(h).produced
    {
      hide Reachable, PublishStep;
      ghost var s := Model();
      PublishReaches(s);
      drained := false;
      pidxInfo := pidx;
      doorbell := pidxInfo;
      h := h.(published := h.produced);
      PublishIs(s, Model());
    }

    /** The hardware returns some of the descriptors it has been told about, and
        writes back how far it got. It may do so after a stop. */
    method HardwareMoves() returns (n: nat)
      requires Valid() && desc.Length > 0
      modifies this`writeback, this`h
      ensures Valid() && old(h).hardware + n <= old(h).published && conf.rngsz > 0
      ensures Model() == HardwareStep(old(Model()), n)
      ensures h.produced == old(h).produced && h.published == old(h).published
    {
      hide Reachable, HardwareStep, WrappedDiff;
      ghost var s := Model();
      HardwareRoom(s);
      n :| 0 <= n <= WrappedDiff(doorbell, writeback, conf.rngsz);
      HardwareReaches(s, n);
      SlotOfSlot(h.hardware, n, conf.rngsz);
      writeback := Slot(writeback + n, conf.rngsz);
      h := h.(hardware := h.hardware + n);
      HardwareIs(s, n, Model());
    }

    /** A poll made by the processing loop in a polling mode: by then the hardware
        has moved on, and a completion pass picks that up. In interrupt mode it
        does nothing. */
    method Poll() returns (ghost tr: seq<Event>)
      requires Valid() && online
      modifies this`cidx, this`avail, this`credit, this`h, this`pend, this`drained, this`doorbell,
               this`writeback, this`procRunning
      ensures Valid() && Polled(old(Model()), tr, Model())
      ensures h.produced == old(h).produced && h.published == old(h).published
      ensures procRunning == (old(procRunning) || conf.polling)
      ensures !conf.polling ==> work == old(work) && avail == old(avail)
    {
      hide Reachable, HardwareStep, CompleteStep;
      tr := [];
      if conf.polling {
        procRunning := true;
        OnlineHasRing(Model());
        var n := HardwareMoves();
        CompletionStatus();
        tr := [Hardware(n), Complete];
      }
    }

    /** The processing loop: issue for the head of the work list until the list is
        empty or, in spite of polling, the ring stays full. */
    method IssueLoop() returns (written: nat, ghost tr: seq<Event>)
      requires Valid() && online && !stopWait && procRunning == conf.polling && Quiet(Model())
      modifies this`pidx, this`cidx, this`avail, this`credit, this`h, this`work, this`pend, this`drained,
               this`workReqPend, this`doorbell, this`writeback, this`procRunning, desc
      ensures Valid() && procRunning == conf.polling
      ensures Rounds(old(Model()), tr, Model())
      ensures h.published + written == h.produced
      ensures work == [] || avail == 0
    {
      hide Reachable, Inv, Rounds, Polled, IssueStep, WorkLeft, WriteRing;
      written, tr := 0, [];
      RoundsNone(Model());
      while |work| > 0
        invariant Valid() && Rounds(old(Model()), tr, Model()) && (tr == [] || tr[|tr| - 1].Issue?)
        invariant procRunning == conf.polling
        invariant h.published + written == h.produced
        decreases WorkLeft(work, conf.keyhole)
      {
        var max := avail;
        if max == 0 {
          ghost var full := Model();
          ghost var poll := Poll();
          RoundPoll(old(Model()), tr, full, poll, Model());
          tr := tr + poll;
          max := avail;
        }
        if max == 0 {
          break;
        }
        ghost var s := Model();
        ReachableInv(s);
        CanIssue(s);
        var cnt := Issue();
        IssueShrinks(s);
        RoundIssue(old(Model()), tr, s);
        tr := tr + [Event.Issue];
        written := written + cnt;
      }
    }

    /** Process the work list, then tell the hardware what was produced. The ghost
        trace lists the events this call amounts to. */
    method ProcRequest() returns (ghost tr: seq<Event>)
      requires Released()
      modifies this, desc
      ensures Released() && online == old(online) && stopWait == old(stopWait)
      ensures Processed(old(Model()), tr, Model()) && Traced(old(Model()), tr, Model())
      ensures stopWait ==> tr == [Complete]
      ensures !online ==> tr == []
      ensures online && !stopWait && !conf.polling ==> work == [] || avail == 0
      ensures online && !stopWait && conf.polling ==> |tr| >= 2 && tr[0].Hardware? && tr[1].Complete?
      ensures online && !stopWait && old(work) != [] && old(avail) > 0 ==> h.published > old(h).published
    {
      hide Reachable, Inv, Traced, Processed;
      ghost var s := Model();
      ReachableInv(s);
      tr := Process();
      ProcessedMeans(s, tr, Model());
    }

    method Process() returns (ghost tr: seq<Event>)
      requires Released()
      modifies this, desc
      ensures Released() && online == old(online) && stopWait == old(stopWait)
      ensures Processed(old(Model()), tr, Model())
    {
      hide Reachable, CompleteStep, InParts;
      if stopWait {
        CompletionStatus();
        return [Complete];
      }
      if !online || procRunning {
        return [];
      }
      tr := ProcWork();
    }

    method ProcWork() returns (ghost tr: seq<Event>)
      requires Released() && online && !stopWait
      modifies this`pidx, this`cidx, this`avail, this`credit, this`h, this`work, this`pend, this`drained,
               this`workReqPend, this`doorbell, this`pidxInfo, this`writeback, this`procRunning, desc
      ensures Released() && exists p :: InParts(old(Model()), tr, Model(), p)
    {
      hide Reachable, Polled, Rounds, Told, Model;
      ghost var s := Model();
      ghost var first := Poll();
      ghost var begun := Model();
      var written;
      ghost var rounds;
      written, rounds := IssueLoop();
      ghost var ended := Model();
      ghost var last := [];
      if written > 0 {
        last := PublishAndPoll();
      } else {
        ToldNothing(ended);
      }
      StopRunning();
      tr := first + rounds + last;
      assert InParts(s, tr, Model(), Parts(first, rounds, last, begun, ended));
    }

    method StopRunning()
      modifies this`procRunning
      ensures !procRunning && Model() == old(Model())
    {
      procRunning := false;
    }

    method PublishAndPoll() returns (ghost tr: seq<Event>)
      requires Valid() && online && h.published < h.produced
      modifies this`cidx, this`avail, this`credit, this`h, this`pend, this`drained, this`doorbell, this`pidxInfo,
               this`writeback, this`procRunning
      ensures Valid() && Quiet(Model()) && Told(old(Model()), tr, Model())
    {
      hide Reachable, Polled, PublishStep;
      Publish();
      ghost var poll := Poll();
      tr := [Event.Publish] + poll;
      assert tr[1..] == poll;
    }

    /** Put a batch on the work list. */
    method QueueBatch(rs: seq<Request>, failed: seq<bool>) returns (rv: int)
      requires Released() && BatchOk(rs, failed, conf.keyhole)
      modifies this`work, this`h
      ensures Released()
      ensures Model() == BatchStep(old(Model()), rs, failed)
      ensures rv == (if online then 0 else -EINVAL)
    {
      hide Reachable, BatchOk;
      BatchReaches(Model(), rs, failed);
      if !online {
        return -EINVAL;
      }
      ghost var before := work;
      var i := 0;
      while i < |rs|
        invariant 0 <= i <= |rs| && work == before + Fresh(rs[..i]) && h == old(h)
      {
        work := work + [Cb(rs[i], 0, 0)];
        assert Fresh(rs[..i + 1]) == Fresh(rs[..i]) + [Cb(rs[i], 0, 0)];
        i := i + 1;
      }
      assert rs[..|rs|] == rs;
      h := h.(accepted := h.accepted + rs, mapFailed := h.mapFailed + failed, uncounted := h.uncounted + |rs|);
      return 0;
    }

    /** Submit a batch and process the work list at once. Direction and callback are
        checked on the first request only. Requests whose buffers could not be mapped
        have been called back by then, and are queued like the others. */
    method BatchSubmit(rs: seq<Request>, write: bool, failed: seq<bool>) returns (rv: int, ghost tr: seq<Event>)
      requires Released() && |rs| > 0 && BatchOk(rs, failed, conf.keyhole)
      modifies this, desc
      ensures Released() && online == old(online)
      ensures rv == (if write == conf.c2h || !rs[0].callback || !online then -EINVAL else 0)
      ensures rv != 0 ==> Model() == old(Model())
      ensures rv == 0 ==> Processed(BatchStep(old(Model()), rs, failed), tr, Model())
                          && Traced(BatchStep(old(Model()), rs, failed), tr, Model())
      ensures rv == 0 && old(stopWait) ==> tr == [Complete]
      ensures rv == 0 && !old(stopWait) && !conf.polling ==> work == [] || avail == 0
      ensures rv == 0 && !old(stopWait) && conf.polling ==> |tr| >= 2 && tr[0].Hardware? && tr[1].Complete?
      ensures rv == 0 && !old(stopWait) && old(avail) > 0 ==> h.published > old(h).published
    {
      hide Reachable, Traced, BatchOk, Processed;
      tr := [];
      if write == conf.c2h {
        return -EINVAL, [];
      }
      if !rs[0].callback {
        return -EINVAL, [];
      }
      rv := QueueBatch(rs, failed);
      if rv == 0 {
        tr := ProcRequest();
      }
    }

    /** Submit a request and process the work list at once; `mapping` is the result of
        mapping its buffers. What fits the ring has been issued and published when it
        returns, unless a stop waits. */
    method RequestSubmit(r: Request, write: bool, mapping: int) returns (rv: int, ghost tr: seq<Event>)
      requires Released() && WellFormed(r, conf.keyhole) && (mapping >= 0 ==> Addressed(r))
      modifies this, desc
      ensures Released() && online == old(online)
      ensures rv == (if write == conf.c2h then -EINVAL else if mapping < 0 then mapping
                     else if online then 0 else -EINVAL)
      ensures rv != 0 ==> Model() == old(Model())
      ensures rv == 0 ==> Processed(SubmitStep(old(Model()), r), tr, Model())
                          && Traced(SubmitStep(old(Model()), r), tr, Model())
      ensures rv == 0 && old(stopWait) ==> tr == [Complete]
      ensures rv == 0 && !old(stopWait) && !conf.polling ==> work == [] || avail == 0
      ensures rv == 0 && !old(stopWait) && conf.polling ==> |tr| >= 2 && tr[0].Hardware? && tr[1].Complete?
      ensures rv == 0 && !old(stopWait) && old(avail) > 0 ==> h.published > old(h).published
    {
      hide Reachable, Traced, WellFormed, Addressed, Processed;
      tr := [];
      if write == conf.c2h {
        return -EINVAL, [];
      }
      if mapping < 0 {
        return mapping, [];
      }
      rv := Submit(r);
      if rv == 0 {
        tr := ProcRequest();
      }
    }

    /** The completion service, run by the polling thread or on an interrupt. On
        an interrupt it goes on to issue exactly when requests are counted as queued. */
    method ServiceCompletion() returns (ghost tr: seq<Event>)
      requires Released()
      modifies this, desc
      ensures Released() && online == old(online)
      ensures Serviced(old(Model()), tr, Model()) && Traced(old(Model()), tr, Model())
      ensures var counted := CompleteStep(old(Model())).workReqPend != 0;
              && (!conf.polling && !counted ==> tr == [Complete])
              && (!conf.polling && !online ==> tr == [Complete])
              && (!conf.polling && old(stopWait) && counted ==> tr == [Complete, Complete])
              && (!conf.polling && online && !old(stopWait) && counted ==> work == [] || avail == 0)
      ensures conf.polling && old(stopWait) ==> tr == [Complete]
      ensures conf.polling && online && !old(stopWait) ==> |tr| >= 2 && tr[0].Hardware? && tr[1].Complete?
      ensures conf.polling && online && !old(stopWait) && old(work) != [] && old(avail) > 0 ==>
                h.published > old(h).published
    {
      hide Reachable, Inv, Traced, Serviced, CompleteStep;
      ghost var s := Model();
      ReachableInv(s);
      tr := Service();
      ServicedMeans(s, tr, Model());
    }

    method Service() returns (ghost tr: seq<Event>)
      requires Released()
      modifies this, desc
      ensures Released() && online == old(online)
      ensures Serviced(old(Model()), tr, Model())
    {
      hide Reachable, Traced, CompleteStep, Processed;
      if conf.polling {
        tr := [];
        if !procRunning {
          tr := ProcRequest();
        }
      } else {
        CompletionStatus();
        tr := [Complete];
        if workReqPend != 0 {
          ghost var more := ProcRequest();
          tr := tr + more;
          assert tr[1..] == more;
        }
      }
    }

    /** First half of a stop: refuse further issue, and say whether to wait. */
    method StopBegin() returns (rv: int, wait: bool)
      requires Released()
      modifies this`stopWait
      ensures Released()
      ensures !online ==> rv == -EINVAL && Model() == old(Model())
      ensures online ==> rv == 0 && Model() == old(Model()).(stopWait := true) && wait == !drained
    {
      hide Reachable;
      StopBeginReaches(Model());
      if !online {
        return -EINVAL, false;
      }
      stopWait := true;
      return 0, !drained;
    }

    /** Call back every request of a list with -ENXIO, keeping the blocking ones. */
    method Flush(cbs: seq<Cb>) returns (kept: seq<Cb>)
      modifies this`h
      ensures kept == Blocking(cbs)
      ensures h == WithBook(old(h), Tell(Noted(old(h)), Flushed(|cbs|)))
    {
      hide Tell;
      kept := [];
      var i := 0;
      TellNobody(Noted(h));
      assert Flushed(0) == [];
      while i < |cbs|
        invariant 0 <= i <= |cbs| && kept == Blocking(cbs[..i])
        invariant h == WithBook(old(h), Tell(Noted(old(h)), Flushed(i)))
      {
        assert cbs[..i + 1][..i] == cbs[..i];
        if !cbs[i].req.callback {
          kept := kept + [cbs[i]];
        }
        TellTwice(Noted(old(h)), Flushed(i), [Refused()]);
        assert Flushed(i + 1) == Flushed(i) + [Refused()];
        h := WithBook(h, Tell(Noted(h), [Refused()]));
        i := i + 1;
      }
      assert cbs[..i] == cbs;
    }

    /** Second half of a stop, once drained or after the timeout: take the queue
        offline and refuse whatever is still linked. */
    method StopEnd(ghost timedOut: bool)
      requires Released() && online && stopWait && (timedOut || drained)
      modifies this`online, this`stopWait, this`pend, this`work, this`workReqPend, this`h
      ensures Released()
      ensures Model() == StopEndStep(old(Model()))
      ensures |h.outcomes| == |h.accepted| && h.accepted == old(h).accepted
      ensures forall i :: 0 <= i < |h.accepted| && h.accepted[i].callback ==> TimesTold(Model(), i) == 1
    {
      hide Reachable, Blocking, Flushed, Tell, KeptIds, LinkedIds, TimesTold, StopEndStep;
      ghost var s := Model();
      StopReaches(s, timedOut);
      Refuse(KeptIds(s.pend + s.work, LinkedIds(s)));
      StopEndIs(s, Model());
    }

    /** Take the queue offline and flush both lists. */
    method Refuse(ghost kept: seq<nat>)
      modifies this`online, this`stopWait, this`pend, this`work, this`workReqPend, this`h
      ensures !online && !stopWait && pend == Blocking(old(pend)) && work == Blocking(old(work))
      ensures workReqPend == Sum32(old(workReqPend), |Blocking(old(work))| - |old(work)|)
      ensures h == WithBook(old(h), Tell(Noted(old(h)), Flushed(|old(pend)| + |old(work)|))).(stale := kept)
    {
      hide Blocking, Flushed, Tell;
      online, stopWait := false, false;
      var linked := |work|;
      FlushedTwice(|pend|, |work|);
      TellTwice(Noted(h), Flushed(|pend|), Flushed(|work|));
      pend := Flush(pend);
      work := Flush(work);
      workReqPend := Sum32(workReqPend, |work| - linked);
      h := h.(stale := kept);
    }

    /** Allocate the ring, cleared. */
    method AllocRing()
      modifies this`desc
      ensures fresh(desc) && desc[..] == ClearedRing(conf.rngsz)
      ensures Blank(desc[..])
    {
      desc := new Desc[conf.rngsz](i => Desc(0, 0, 0, false, false, false));
    }

    /** Reset the queue to an empty ring and take it online. */
    method GoOnline()
      requires Released() && !online && Bits.ApertureOk(conf.keyhole)
      modifies this
      ensures Released()
      ensures Model() == StartStep(old(Model()))
      ensures desc.Length == conf.rngsz && Blank(desc[..])
    {
      hide Reachable, StartStep, ClearedRing, Blank, Linked, PartialCharge;
      ghost var s := Model();
      StartReaches(s);
      ResetRing();
      h := History(0, 0, 0, 0, [], |s.outcomes|, |s.pend| > 0 || PartialCharge(s) > 0, Linked(s), s.accepted,
                   s.outcomes, s.stale, s.again, |s.work|, s.mapFailed);
      StartIs(s, Model());
    }

    method ResetRing()
      requires conf.rngsz > 0
      modifies this`online, this`desc, this`avail, this`drained, this`pidx, this`cidx, this`credit, this`workReqPend,
               this`writeback, this`doorbell
      ensures fresh(desc) && desc[..] == ClearedRing(conf.rngsz) && Blank(desc[..]) && online
      ensures avail == conf.rngsz - 1 && drained
      ensures pidx == cidx == credit == workReqPend == writeback == doorbell == 0
    {
      hide ClearedRing, Blank;
      AllocRing();
      ConfigComplete();
      online := true;
    }

    /** Reset the indices. The software copy of the published index is kept. */
    method ConfigComplete()
      requires conf.rngsz > 0
      modifies this`avail, this`drained, this`pidx, this`cidx, this`credit, this`workReqPend, this`writeback,
               this`doorbell
      ensures avail == conf.rngsz - 1 && drained
      ensures pidx == cidx == credit == workReqPend == writeback == doorbell == 0
    {
      avail, drained := conf.rngsz - 1, true;
      pidx, cidx, credit, workReqPend := 0, 0, 0, 0;
      writeback, doorbell := 0, 0;
    }

    /** Bring an added queue online, unless its keyhole is not a power of two. Requests
        still linked stay so. */
    method Start() returns (rv: int)
      requires Released()
      modifies this
      ensures Released()
      ensures rv == (if old(online) then -EINVAL else if Bits.ApertureOk(conf.keyhole) then 0 else -ERANGE)
      ensures Model() == if rv == 0 then StartStep(old(Model())) else old(Model())
      ensures rv == 0 ==> desc.Length == conf.rngsz && Blank(desc[..])
    {
      hide Reachable, StartStep;
      if online {
        return -EINVAL;
      }
      if conf.keyhole != 0 && Bits.And(conf.keyhole, conf.keyhole - 1) != 0 {
        return -ERANGE;
      }
      GoOnline();
      return 0;
    }
  }

  /** No descriptor of the ring is valid, and none moves a byte. */
  ghost predicate Blank(ring: seq<Desc>) {
    forall q :: 0 <= q < |ring| ==> ring[q] == Desc(0, 0, 0, false, false, false)
  }

  /** A request reported done by the queue object, in an epoch begun without charged
      requests, has had each of its bytes moved once and in order. */
  lemma ObjectMoved(q: Descq, i: nat)
    requires q.Valid() && ToldDone(q.Model(), i)
    ensures |q.h.outcomes| <= |q.h.accepted| == |q.h.mapFailed|
    ensures LogStart(q.Model(), i) <= LogStart(q.Model(), i + 1) <= |q.h.log|
    ensures var r := q.h.accepted[i];
            var copies := Copies(q.h.log[LogStart(q.Model(), i)..LogStart(q.Model(), i + 1)]);
            && r.count == Total(r.sgl) && q.h.outcomes[i] == Outcome(r.count, 0) && |copies| == r.count
            && forall b :: 0 <= b < r.count ==> copies[b] == Asked(q.conf, r, b)
  {
    hide Reachable, LogStart, Copies, Asked, Xfers;
    NoEarlyCompletion(q.Model(), i);
    DoneMeansMoved(q.Model(), i);
  }

  // ------------------------------------------------------------ one step

  lemma SubmitReaches(s: State, r: Request)
    requires Reachable(s) && Quiet(s) && WellFormed(r, s.conf.keyhole) && Addressed(r)
    ensures Reachable(SubmitStep(s, r))
  {
    ReachableStep(s, Event.Submit(r));
  }

  lemma BatchReaches(s: State, rs: seq<Request>, failed: seq<bool>)
    requires Reachable(s) && Quiet(s) && BatchOk(rs, failed, s.conf.keyhole)
    ensures Reachable(BatchStep(s, rs, failed))
  {
    hide BatchOk;
    ReachableStep(s, Event.Batch(rs, failed));
  }

  lemma PublishReaches(s: State)
    requires Reachable(s) && s.online && s.published < s.produced
    ensures Reachable(PublishStep(s))
  {
    ReachableStep(s, Event.Publish);
  }

  lemma HardwareReaches(s: State, n: nat)
    requires Reachable(s) && s.hardware + n <= s.published
    ensures s.conf.rngsz > 0 && Reachable(HardwareStep(s, n))
  {
    ReachableStep(s, Hardware(n));
  }

  lemma StopBeginReaches(s: State)
    requires Reachable(s) && Quiet(s)
    ensures s.online ==> Reachable(s.(stopWait := true))
  {
    if s.online {
      ReachableStep(s, Event.StopBegin);
    }
  }

  lemma StopReaches(s: State, timedOut: bool)
    requires Reachable(s) && Enabled(s, Event.StopEnd(timedOut))
    ensures var t := StopEndStep(s);
            && Reachable(t) && Quiet(t) && |t.outcomes| == |t.accepted| && t.accepted == s.accepted
            && forall i :: 0 <= i < |t.accepted| && t.accepted[i].callback ==> TimesTold(t, i) == 1
  {
    hide Reachable, StopEndStep, TimesTold;
    ReachableStep(s, Event.StopEnd(timedOut));
    var t := StopEndStep(s);
    StopFrame(s);
    if |t.accepted| > 0 {
      ExactlyOneOutcome(t, 0);
    } else {
      StoppedCounts(t);
    }
    forall i | 0 <= i < |t.accepted| && t.accepted[i].callback
      ensures TimesTold(t, i) == 1
    {
      ExactlyOneOutcome(t, i);
    }
  }

  lemma StoppedCounts(s: State)
    requires Reachable(s) && !s.online
    ensures |s.outcomes| == |s.accepted|
  {
    ReachableInv(s);
    hide ListInv, RingInv, EpochInv, MapInv, BookInv;
  }

  lemma StopEndIs(s: State, t: State)
    requires var b := Tell(BookOf(s), Flushed(|s.pend| + |s.work|));
             t == s.(online := false, stopWait := false, pend := Blocking(s.pend), work := Blocking(s.work),
                     workReqPend := Sum32(s.workReqPend, |Blocking(s.work)| - |s.work|),
                     outcomes := b.outcomes, again := b.again, stale := KeptIds(s.pend + s.work, LinkedIds(s)))
    ensures t == StopEndStep(s)
  {
  }

  lemma StartReaches(s: State)
    requires Reachable(s) && Quiet(s) && !s.online
    ensures s.conf.rngsz > 0 && Reachable(StartStep(s))
  {
    ReachableStep(s, Event.Start);
  }

  lemma StartIs(s: State, t: State)
    requires s.conf.rngsz > 0
    requires t == s.(online := true, pidx := 0, cidx := 0, avail := s.conf.rngsz - 1, credit := 0,
       doorbell := 0, writeback := 0, ring := t.ring, drained := true, workReqPend := 0, produced := 0, consumed := 0,
       published := 0, hardware := 0, log := [], epoch := |s.outcomes|,
       dirty := |s.pend| > 0 || PartialCharge(s) > 0, carried := Linked(s), uncounted := |s.work|)
    requires t.ring == ClearedRing(s.conf.rngsz)
    ensures t == StartStep(s)
  {
  }

  lemma TellNobody(b: Book)
    ensures Tell(b, []) == b
  {
    AgainsNone();
  }

  lemma FlushedTwice(m: nat, n: nat)
    ensures Flushed(m) + Flushed(n) == Flushed(m + n)
  {
  }

  // ------------------------------------------------------------ progress

  /** Descriptors the work list still needs. */
  ghost function WorkLeft(cbs: seq<Cb>, k: nat): nat {
    if |cbs| == 0 then 0
    else (if WellFormed(cbs[0].req, k) then |Needed(cbs[0], k)| else 0) + WorkLeft(cbs[1..], k)
  }

  /** Every issue pass brings the work list closer to empty. */
  lemma IssueShrinks(s: State)
    requires Inv(s) && IssueEnabled(s)
    ensures WorkLeft(IssueStep(s).work, s.conf.keyhole) < WorkLeft(s.work, s.conf.keyhole)
  {
    hide RingInv, EpochInv, OutcomeInv, CountInv, WriteRing, PassDescs, PlanOf, Needed, LinkInv, MapInv;
    var k, cb, cb' := s.conf.keyhole, s.work[0], IssueCb(s);
    HeadRequest(s);
    IssuePass(s);
    NeededIsTail(cb, k);
    if cb'.offset < cb.req.count {
      StillHead(s);
      NeededIsTail(cb', k);
      assert ([cb'] + s.work[1..])[1..] == s.work[1..];
    }
  }

  lemma OnlineHasRing(s: State)
    requires Reachable(s) && s.online
    ensures |s.ring| > 0
  {
    hide Reachable, Inv;
    ReachableInv(s);
    OnlineRing(s);
  }

  lemma HardwareIs(s: State, n: nat, t: State)
    requires s.conf.rngsz > 0
    requires t == s.(hardware := s.hardware + n, writeback := Slot(s.hardware + n, s.conf.rngsz))
    ensures t == HardwareStep(s, n)
  {
  }

  lemma HardwareRoom(s: State)
    requires Reachable(s) && s.ring != []
    ensures s.conf.rngsz > 0 && s.writeback == Slot(s.hardware, s.conf.rngsz)
    ensures WrappedDiff(s.doorbell, s.writeback, s.conf.rngsz) == s.published - s.hardware
    ensures 0 <= s.published - s.hardware < s.conf.rngsz
  {
    ReachableInv(s);
    hide EpochInv, OutcomeInv, MapInv, ListInv;
    WrappedDiffTrue(s.hardware, s.published, s.conf.rngsz);
  }

  lemma PublishIs(s: State, t: State)
    requires t == s.(drained := false, pidxInfo := s.pidx, doorbell := s.pidx, published := s.produced)
    ensures t == PublishStep(s)
  {
  }

  /** The head of the work list meets what the issue loops need. */
  lemma IssueReady(s: State)
    requires Reachable(s) && IssueEnabled(s)
    ensures WellFormed(s.work[0].req, s.conf.keyhole) && HeadInv(s.work[0], s.conf.keyhole)
    ensures s.avail < s.conf.rngsz && s.pidx < s.conf.rngsz
    ensures Reachable(IssueStep(s))
  {
    hide EpochInv, OutcomeInv, CountInv, HeadInv, WellFormed, IssueStep, MapInv, LinkInv, Reachable;
    ReachableInv(s);
    IssueReaches(s);
    HeadRequest(s);
  }

  lemma IssueReaches(s: State)
    requires Reachable(s) && IssueEnabled(s)
    ensures Reachable(IssueStep(s))
  {
    hide Reachable, IssueStep;
    ReachableStep(s, Event.Issue);
  }

  lemma IssueDefs(s: State)
    requires IssueEnabled(s)
    ensures var n, xs := IssueCount(s), IssueXfers(s);
            && n == Min(s.avail, |Needed(s.work[0], s.conf.keyhole)|)
            && xs == Needed(s.work[0], s.conf.keyhole)[..n]
            && IssueCb(s) == s.work[0].(offset := s.work[0].offset + SumLen(xs), descNr := s.work[0].descNr + n)
  {
  }

  lemma IssueIs(s: State, t: State)
    requires IssueEnabled(s)
    requires var n, cb := IssueCount(s), IssueCb(s);
             var full := cb.offset >= cb.req.count;
             t == s.(pidx := Slot(s.pidx + n, s.conf.rngsz), avail := s.avail - n,
                     ring := WriteRing(s.ring, s.pidx, PassDescs(s.conf, IssueXfers(s))),
                     work := if full then s.work[1..] else [cb] + s.work[1..],
                     pend := if full then s.pend + [cb] else s.pend,
                     workReqPend := if full then Sum32(s.workReqPend, -1) else s.workReqPend,
                     produced := s.produced + n, log := s.log + PassDescs(s.conf, IssueXfers(s)))
    ensures t == IssueStep(s)
  {
    hide WriteRing, PassDescs, IssueXfers, IssueCb;
  }

  /** What a completion pass that finds new writebacks does. */
  lemma CompleteIs(s: State, t: State)
    requires s.pidx != s.cidx && s.writeback != s.cidx
    requires WrappedDiff(s.writeback, s.cidx, s.conf.rngsz) >= 0
    requires var cr := WrappedDiff(s.writeback, s.cidx, s.conf.rngsz);
             var (n, rest, credit) := Retire(s.pend, s.credit + cr);
             var b := Tell(BookOf(s), DoneOutcomes(s.pend[..n]));
             t == s.(cidx := s.writeback, avail := s.avail + cr, credit := credit, pend := rest,
                     drained := DrainFlag(s, n, s.avail + cr), doorbell := s.pidxInfo, consumed := s.consumed + cr,
                     outcomes := b.outcomes, stale := b.stale, again := b.again)
    ensures t == CompleteStep(s)
  {
  }

  lemma RetireNothing(cr: nat)
    ensures Retire([], cr) == (0, [], cr)
  {
  }

  lemma CompleteGuards(s: State)
    requires Reachable(s) && (s.online || !s.conf.polling)
    ensures Reachable(CompleteStep(s))
    ensures s.conf.rngsz > 0
    ensures s.pidx == s.cidx || s.writeback == s.cidx ==> CompleteStep(s) == s
    ensures s.pidx != s.cidx && s.writeback != s.cidx ==>
              WrappedDiff(s.writeback, s.cidx, s.conf.rngsz) > 0
  {
    hide Reachable, EpochInv, OutcomeInv, MapInv, ListInv, Tell, Retire;
    ReachableInv(s);
    CompleteReaches(s);
    if s.ring != [] {
      CompleteRing(s);
    }
  }

  lemma CompleteReaches(s: State)
    requires Reachable(s) && (s.online || !s.conf.polling)
    ensures Reachable(CompleteStep(s))
  {
    hide Reachable, CompleteStep;
    ReachableStep(s, Complete);
  }

  /** One round of the completion loop. */
  lemma RetireHead(pend: seq<Cb>, cr: nat)
    requires |pend| > 0
    ensures cr == pend[0].descNr ==> Retire(pend, cr) == (1, pend[1..], 0)
    ensures cr > pend[0].descNr ==>
              var (n, rest, c) := Retire(pend[1..], cr - pend[0].descNr);
              Retire(pend, cr) == (n + 1, rest, c)
    ensures cr < pend[0].descNr ==>
              Retire(pend, cr) == (0, [pend[0].(descNr := pend[0].descNr - cr)] + pend[1..], 0)
  {
    assert Charges(pend)[1..] == Charges(pend[1..]);
    if cr == pend[0].descNr && |pend| > 1 {
      assert pend[1].(descNr := Charges(pend)[1..][0]) == pend[1];
      assert [pend[1]] + pend[2..] == pend[1..];
    }
  }
}
