// The running variables of the issue loops, tied to the plan of the request.
module Cursor {
  import opened Scatter
  import opened Plan
  import opened Ring
  import opened QueueSpec
  import opened QueueInv

  /** Byte offset reached after `n` more transfers. */
  function Reached(cb: Cb, k: nat, n: nat): nat
    requires cb.req.count == Total(cb.req.sgl) && n <= |Needed(cb, k)|
  {
    cb.offset + SumLen(Needed(cb, k)[..n])
  }

  /** The running device address: it may sit one past the keyhole, to be wrapped
      when the next descriptor is written. */
  ghost predicate DevOk(r: Request, k: nat, ep: nat, at: nat) {
    if k == 0 then ep == r.epAddr + at
    else ep == r.epAddr + at % k || (ep == r.epAddr + k && at % k == 0)
  }

  /** Before a descriptor: `tlen` bytes of entry `i` are left, from bus address
      `src`, and the next transfer of the plan starts there. */
  ghost predicate AtStep(cb: Cb, k: nat, n: nat, i: nat, tlen: nat, src: nat, ep: nat) {
    var r := cb.req;
    && WellFormed(r, k) && cb.offset <= r.count
    && n < |Needed(cb, k)| && i < |r.sgl|
    && DevOk(r, k, ep, Reached(cb, k, n))
    && Prefix(r.sgl, i) <= Reached(cb, k, n)
    && Reached(cb, k, n) + tlen == Prefix(r.sgl, i + 1)
    && src == r.sgl[i].dma + (Reached(cb, k, n) - Prefix(r.sgl, i))
    && (r.count > 0 ==> tlen > 0)
  }

  /** Between entries: entry `i` is next, `skip` bytes of it being done, or the
      list and the plan are both exhausted. */
  ghost predicate AtEntry(cb: Cb, k: nat, n: nat, i: nat, skip: nat, ep: nat) {
    var r := cb.req;
    && WellFormed(r, k) && cb.offset <= r.count
    && n <= |Needed(cb, k)|
    && if n < |Needed(cb, k)| then
         i < |r.sgl| && skip <= r.sgl[i].len
         && AtStep(cb, k, n, i, r.sgl[i].len - skip, r.sgl[i].dma + skip, ep)
       else i == |r.sgl|
  }

  /** The keyhole wrap made just before a descriptor is written. */
  function Wrapped(r: Request, k: nat, ep: nat): nat {
    if k != 0 && ep > r.epAddr + k - 1 then r.epAddr else ep
  }

  /** The length the loop gives the next descriptor. */
  function LoopLen(r: Request, k: nat, ep: nat, tlen: nat): int {
    var len := Min(tlen, Aperture(k));
    var max := r.epAddr + Aperture(k) - 1;
    if k != 0 && Wrapped(r, k, ep) + len > max then max - Wrapped(r, k, ep) + 1 else len
  }

  /** The loop's length and wrapped address are those of the plan's step. */
  lemma LoopIsStep(r: Request, k: nat, at: nat, i: nat, tlen: nat, ep: nat)
    requires r.count == Total(r.sgl) && at < r.count && i < |r.sgl|
    requires Prefix(r.sgl, i) <= at < at + tlen == Prefix(r.sgl, i + 1)
    requires DevOk(r, k, ep, at)
    ensures LoopLen(r, k, ep, tlen) == StepLen(r, k, at) <= tlen
    ensures Wrapped(r, k, ep) == DevAddr(r, k, at)
  {
    EntryUnique(r.sgl, at, i);
  }

  /** The loop's address and length are those of the plan's next transfer. */
  lemma NextXfer(cb: Cb, k: nat, n: nat, i: nat, tlen: nat, src: nat, ep: nat)
    requires AtStep(cb, k, n, i, tlen, src, ep)
    ensures 0 <= LoopLen(cb.req, k, ep, tlen) <= tlen
    ensures Needed(cb, k)[n] == Xfer(src, Wrapped(cb.req, k, ep), LoopLen(cb.req, k, ep, tlen))
    ensures Reached(cb, k, n + 1) == Reached(cb, k, n) + LoopLen(cb.req, k, ep, tlen)
  {
    hide LoopLen, Wrapped, DevOk;
    if cb.req.count > 0 {
      NextInPlan(cb, k, n, i, tlen, src, ep);
    } else {
      NextOfEmpty(cb, k, n, i, tlen, src, ep);
    }
    hide Needed, Prefix, WellFormed;
    assert Needed(cb, k)[..n + 1][..n] == Needed(cb, k)[..n];
  }

  lemma NextOfEmpty(cb: Cb, k: nat, n: nat, i: nat, tlen: nat, src: nat, ep: nat)
    requires AtStep(cb, k, n, i, tlen, src, ep) && cb.req.count == 0
    ensures LoopLen(cb.req, k, ep, tlen) == tlen == 0
    ensures Needed(cb, k)[n] == Xfer(src, Wrapped(cb.req, k, ep), 0)
  {
    assert Needed(cb, k)[..0] == [];
  }

  lemma NextInPlan(cb: Cb, k: nat, n: nat, i: nat, tlen: nat, src: nat, ep: nat)
    requires AtStep(cb, k, n, i, tlen, src, ep) && cb.req.count > 0
    ensures 0 <= LoopLen(cb.req, k, ep, tlen) <= tlen
    ensures Needed(cb, k)[n] == Xfer(src, Wrapped(cb.req, k, ep), LoopLen(cb.req, k, ep, tlen))
  {
    hide From, LoopLen, Wrapped, DevOk, EntryOf;
    var r, at := cb.req, Reached(cb, k, n);
    StepOfPlan(r, k, cb.offset, n);
    LoopIsStep(r, k, at, i, tlen, ep);
    HostAddrInEntry(r.sgl, i, at);
  }

  /** After a descriptor that does not finish the entry. */
  lemma StepInside(cb: Cb, k: nat, n: nat, i: nat, tlen: nat, src: nat, ep: nat)
    requires AtStep(cb, k, n, i, tlen, src, ep)
    requires LoopLen(cb.req, k, ep, tlen) < tlen
    ensures LoopLen(cb.req, k, ep, tlen) >= 0
    ensures var len := LoopLen(cb.req, k, ep, tlen);
            AtStep(cb, k, n + 1, i, tlen - len, src + len, Wrapped(cb.req, k, ep) + len)
  {
    NextXfer(cb, k, n, i, tlen, src, ep);
    DevAdvances(cb, k, n, i, tlen, src, ep);
    var len := LoopLen(cb.req, k, ep, tlen);
    PrefixMonotone(cb.req.sgl, i + 1, |cb.req.sgl|);
    PlanExhausted(cb.req, k, cb.offset, n + 1);
  }

  /** The device address stays in step with the bytes moved. */
  lemma DevAdvances(cb: Cb, k: nat, n: nat, i: nat, tlen: nat, src: nat, ep: nat)
    requires AtStep(cb, k, n, i, tlen, src, ep)
    ensures LoopLen(cb.req, k, ep, tlen) >= 0 && n + 1 <= |Needed(cb, k)|
    ensures DevOk(cb.req, k, Wrapped(cb.req, k, ep) + LoopLen(cb.req, k, ep, tlen), Reached(cb, k, n + 1))
  {
    NextXfer(cb, k, n, i, tlen, src, ep);
    if k != 0 {
      SlotStep(Reached(cb, k, n), LoopLen(cb.req, k, ep, tlen), k);
    }
  }

  /** After a descriptor that finishes the entry. */
  lemma StepToNext(cb: Cb, k: nat, n: nat, i: nat, tlen: nat, src: nat, ep: nat)
    requires AtStep(cb, k, n, i, tlen, src, ep)
    requires LoopLen(cb.req, k, ep, tlen) == tlen
    ensures AtEntry(cb, k, n + 1, i + 1, 0, Wrapped(cb.req, k, ep) + tlen)
  {
    hide LoopLen, Wrapped, DevOk, From, SumLen, EntryOf, HostAddr;
    NextXfer(cb, k, n, i, tlen, src, ep);
    DevAdvances(cb, k, n, i, tlen, src, ep);
    EntryDone(cb, k, n, i, tlen);
  }

  /** Where that leaves the plan and the list. */
  lemma EntryDone(cb: Cb, k: nat, n: nat, i: nat, tlen: nat)
    requires WellFormed(cb.req, k) && cb.offset <= cb.req.count && n < |Needed(cb, k)| && i < |cb.req.sgl|
    requires Reached(cb, k, n + 1) == Prefix(cb.req.sgl, i + 1)
    ensures if n + 1 < |Needed(cb, k)|
            then i + 1 < |cb.req.sgl| && cb.req.sgl[i + 1].len > 0 && cb.req.count > 0
            else i + 1 == |cb.req.sgl|
  {
    hide SumLen, From, EntryOf;
    var r := cb.req;
    if r.count > 0 {
      PlanExhausted(r, k, cb.offset, n + 1);
      if i + 1 < |r.sgl| {
        PrefixStrict(r.sgl, i + 1, |r.sgl|);
      }
    }
  }

  /** The scatter walk finds where the plan resumes. */
  lemma StartsAt(cb: Cb, k: nat, i: nat, skip: nat, ep: nat)
    requires WellFormed(cb.req, k) && HeadInv(cb, k)
    requires if cb.req.count == 0 then i == skip == 0
             else cb.offset < cb.req.count && i == EntryOf(cb.req.sgl, cb.offset, |cb.req.sgl|)
                  && Prefix(cb.req.sgl, i) + skip == cb.offset
    requires ep == DevAddr(cb.req, k, cb.offset)
    ensures AtEntry(cb, k, 0, i, skip, ep)
  {
    NeededIsTail(cb, k);
    assert Needed(cb, k)[..0] == [];
    if cb.req.count == 0 {
      assert PlanOf(cb.req, k)[..0] == [];
      assert Prefix(cb.req.sgl, 1) == Prefix(cb.req.sgl, 0) + cb.req.sgl[0].len;
    }
  }

  /** A partly issued request still has bytes to issue. */
  lemma HeadShort(cb: Cb, k: nat)
    requires WellFormed(cb.req, k) && HeadInv(cb, k)
    ensures cb.req.count > 0 ==> cb.offset < cb.req.count
    ensures cb.offset <= cb.req.count
  {
    if cb.req.count > 0 {
      ResumeFrom(cb.req, k, 0, cb.descNr);
      PlanExhausted(cb.req, k, 0, cb.descNr);
    } else {
      assert PlanOf(cb.req, k)[..0] == [];
    }
  }

  // ------------------------------------------------------------ ring contents

  /** Descriptors as the loop writes them, before the pass is delimited. */
  function RawDescs(c: Conf, xs: seq<Xfer>): (ds: seq<Desc>)
    ensures |ds| == |xs|
  {
    seq(|xs|, i requires 0 <= i < |xs| => MkDesc(c, xs[i], false, false))
  }

  lemma {:induction false} WriteRingUpdate<T>(ring: seq<T>, p: nat, ds: seq<T>, j: nat, d: T)
    requires j < |ds| <= |ring|
    ensures WriteRing(ring, p, ds)[Slot(p + j, |ring|) := d] == WriteRing(ring, p, ds[j := d])
    decreases |ds|
  {
    var m := |ds| - 1;
    if j < m {
      WriteRingUpdate(ring, p, ds[..m], j, d);
      SlotDistinct(p + j, p + m, |ring|);
      assert ds[j := d][..m] == ds[..m][j := d];
    } else {
      assert ds[j := d][..m] == ds[..m];
    }
  }

  lemma WriteRingSnoc<T>(ring: seq<T>, p: nat, ds: seq<T>, d: T)
    requires |ring| > 0
    ensures WriteRing(ring, p, ds + [d]) == WriteRing(ring, p, ds)[Slot(p + |ds|, |ring|) := d]
  {
    assert (ds + [d])[..|ds|] == ds;
  }

  /** Marking the last and the first descriptor delimits the pass. */
  lemma Delimit(c: Conf, ring: seq<Desc>, p: nat, xs: seq<Xfer>)
    requires 0 < |xs| <= |ring|
    ensures var first, last := Slot(p, |ring|), Slot(p + (|xs| - 1), |ring|);
            var raw := WriteRing(ring, p, RawDescs(c, xs));
            var ended := raw[last := raw[last].(eop := true)];
            ended[first := ended[first].(sop := true)] == WriteRing(ring, p, PassDescs(c, xs))
  {
    var ds, m := RawDescs(c, xs), |xs| - 1;
    WriteRingHits(ring, p, ds, m);
    WriteRingUpdate(ring, p, ds, m, ds[m].(eop := true));
    var es := ds[m := ds[m].(eop := true)];
    WriteRingHits(ring, p, es, 0);
    WriteRingUpdate(ring, p, es, 0, es[0].(sop := true));
    assert es[0 := es[0].(sop := true)] == PassDescs(c, xs);
  }

  // ------------------------------------------------------------ loop views

  /** The ring holds what was written so far, except perhaps at slot `p`. */
  ghost predicate FilledBut(c: Conf, ring: seq<Desc>, ring0: seq<Desc>, p0: nat, xs: seq<Xfer>, p: nat) {
    && 0 < |ring0| == |ring| && p < |ring|
    && ring == WriteRing(ring0, p0, RawDescs(c, xs))[p := ring[p]]
  }

  lemma FilledIsFilledBut(c: Conf, ring: seq<Desc>, ring0: seq<Desc>, p0: nat, xs: seq<Xfer>, p: nat)
    requires 0 < |ring0| && p < |ring0| && ring == WriteRing(ring0, p0, RawDescs(c, xs))
    ensures FilledBut(c, ring, ring0, p0, xs, p)
  {
  }

  lemma ClearedIsFilledBut(c: Conf, ring: seq<Desc>, ring0: seq<Desc>, p0: nat, xs: seq<Xfer>, p: nat, d: Desc)
    requires 0 < |ring0| && p < |ring0| && ring == WriteRing(ring0, p0, RawDescs(c, xs))
    ensures FilledBut(c, ring[p := d], ring0, p0, xs, p)
  {
  }

  lemma NothingFilled(c: Conf, ring: seq<Desc>, p0: nat, xs: seq<Xfer>)
    requires |ring| > 0
    ensures ring == WriteRing(ring, p0, RawDescs(c, xs[..0])) && SumLen(xs[..0]) == 0
  {
  }

  /** Writing the next transfer at the open slot fills one more. */
  lemma OneMore(c: Conf, ring: seq<Desc>, ring0: seq<Desc>, p0: nat, xs: seq<Xfer>, n: nat, p: nat)
    requires n < |xs| && FilledBut(c, ring, ring0, p0, xs[..n], p) && p == Slot(p0 + n, |ring0|)
    ensures ring[p := MkDesc(c, xs[n], false, false)] == WriteRing(ring0, p0, RawDescs(c, xs[..n + 1]))
  {
    var ds := RawDescs(c, xs[..n]);
    assert RawDescs(c, xs[..n + 1]) == ds + [MkDesc(c, xs[n], false, false)];
    WriteRingSnoc(ring0, p0, ds, MkDesc(c, xs[n], false, false));
  }

  lemma StepBounds(cb: Cb, k: nat, n: nat, i: nat, tlen: nat, src: nat, ep: nat)
    requires AtStep(cb, k, n, i, tlen, src, ep)
    ensures cb.req.count == Total(cb.req.sgl) && n < |Needed(cb, k)| && i < |cb.req.sgl|
  {
  }

  lemma EntryBounds(cb: Cb, k: nat, n: nat, i: nat, skip: nat, ep: nat)
    requires AtEntry(cb, k, n, i, skip, ep)
    ensures i < |cb.req.sgl| ==>
              && n < |Needed(cb, k)| && skip <= cb.req.sgl[i].len
              && AtStep(cb, k, n, i, cb.req.sgl[i].len - skip, cb.req.sgl[i].dma + skip, ep)
    ensures i >= |cb.req.sgl| ==> n == |Needed(cb, k)|
  {
  }

  lemma NeededSome(cb: Cb, k: nat)
    requires WellFormed(cb.req, k) && HeadInv(cb, k)
    ensures |Needed(cb, k)| > 0
  {
    NeededIsTail(cb, k);
  }

  /** The scatter walk never runs off the list for a request in work. */
  lemma FoundOffset(cb: Cb, k: nat)
    requires WellFormed(cb.req, k) && HeadInv(cb, k)
    ensures cb.req.count > 0 ==> cb.offset < Total(cb.req.sgl) && NonEmpty(cb.req.sgl)
    ensures cb.req.count == 0 ==> cb.offset == 0
  {
    HeadShort(cb, k);
  }
}
